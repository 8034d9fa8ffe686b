/** The in-place tokenizer: it cuts a NUL-terminated buffer at delimiters, one token for each call. */
module Strtok {
  import opened Words
  import opened Options

  /** Position k holds a character of a string, and it is (or is not) a delimiter. */
  predicate Delim(buf: seq<byte>, k: nat, d: set<byte>) {
    k < |buf| && buf[k] != 0 && buf[k] in d
  }

  predicate Letter(buf: seq<byte>, k: nat, d: set<byte>) {
    k < |buf| && buf[k] != 0 && buf[k] !in d
  }

  /** The string that starts at i ends within the buffer. */
  predicate Terminated(buf: seq<byte>, i: nat) {
    exists k :: i <= k < |buf| && buf[k] == 0
  }

  function SkipDelims(buf: seq<byte>, i: nat, d: set<byte>): (r: nat)
    ensures r >= i
    decreases |buf| - i
  {
    if Delim(buf, i, d) then SkipDelims(buf, i + 1, d) else i
  }

  function SkipToken(buf: seq<byte>, i: nat, d: set<byte>): (r: nat)
    ensures r >= i && (Letter(buf, i, d) ==> i < r <= |buf|)
    decreases |buf| - i
  {
    if Letter(buf, i, d) then SkipToken(buf, i + 1, d) else i
  }

  lemma {:induction false} SkipDelimsMeaning(buf: seq<byte>, i: nat, d: set<byte>)
    ensures var r := SkipDelims(buf, i, d);
      (forall k :: i <= k < r ==> Delim(buf, k, d)) && !Delim(buf, r, d)
    decreases |buf| - i
  {
    if Delim(buf, i, d) {
      SkipDelimsMeaning(buf, i + 1, d);
    }
  }

  lemma {:induction false} SkipTokenMeaning(buf: seq<byte>, i: nat, d: set<byte>)
    ensures var r := SkipToken(buf, i, d);
      (forall k :: i <= k < r ==> Letter(buf, k, d)) && !Letter(buf, r, d)
    decreases |buf| - i
  {
    if Letter(buf, i, d) {
      SkipTokenMeaning(buf, i + 1, d);
    }
  }

  datatype Span = Span(lo: nat, hi: nat)

  /** The first token from i on. */
  function First(buf: seq<byte>, i: nat, d: set<byte>): (r: Option<Span>)
    ensures r.Some? ==> i <= r.value.lo < r.value.hi <= |buf|
  {
    var lo := SkipDelims(buf, i, d);
    if !Letter(buf, lo, d) then None
    else
      var hi := SkipToken(buf, lo, d);
      Some(Span(lo, hi))
  }

  datatype Outcome = Outcome(buf: seq<byte>, context: Option<nat>, token: Option<nat>)

  /** One call: the buffer, context and token it leaves. Pointers are indices into the buffer. */
  function Call(buf: seq<byte>, context: Option<nat>, d: set<byte>): Outcome {
    if context.None? then Outcome(buf, None, None)
    else
      match First(buf, context.value, d)
      case None => Outcome(buf, None, None)
      case Some(s) =>
        if Delim(buf, s.hi, d) then Outcome(buf[s.hi := 0], Some(s.hi + 1), Some(s.lo))
        else Outcome(buf, None, Some(s.lo))
  }

  method Advance(a: array<byte>, from: nat, d: set<byte>, overDelims: bool) returns (at: nat)
    requires Terminated(a[..], from)
    ensures at == if overDelims then SkipDelims(a[..], from, d) else SkipToken(a[..], from, d)
    ensures from <= at < a.Length && Terminated(a[..], at)
  {
    ghost var end :| from <= end < a.Length && a[..][end] == 0;
    at := from;
    while a[at] != 0 && (a[at] in d) == overDelims
      invariant from <= at <= end < a.Length && a[end] == 0
      invariant if overDelims then SkipDelims(a[..], at, d) == SkipDelims(a[..], from, d)
                else SkipToken(a[..], at, d) == SkipToken(a[..], from, d)
      decreases end - at
    {
      at := at + 1;
    }
    assert a[..][end] == 0;
  }

  /** `str` is the string argument: given on the first call, None (NULL) on later ones. */
  method StrtokS(a: array<byte>, str: Option<nat>, d: set<byte>, context: Option<nat>)
    returns (token: Option<nat>, next: Option<nat>)
    requires var c := if str.Some? then str else context;
      c.Some? ==> Terminated(a[..], c.value)
    modifies a
    ensures Outcome(a[..], next, token) == Call(old(a[..]), if str.Some? then str else context, d)
    ensures next.Some? ==> Terminated(a[..], next.value)
  {
    next := if str.Some? then str else context;
    if next.None? {
      return None, None;
    }
    SkipDelimsMeaning(a[..], next.value, d);
    var start := Advance(a, next.value, d, true);
    if a[start] == 0 {
      return None, None;
    }
    SkipTokenMeaning(a[..], start, d);
    var at := Advance(a, start, d, false);
    token := Some(start);
    if a[at] != 0 {
      ghost var end :| at <= end < a.Length && a[..][end] == 0;
      a[at] := 0;
      next := Some(at + 1);
      assert a[..][end] == 0;
    } else {
      next := None;
    }
  }

  // ---------- The tokens of a string ----------

  datatype List<T> = Nil | Cons(head: T, tail: List<T>)

  predicate Has(spans: List<Span>, s: Span) {
    spans.Cons? && (spans.head == s || Has(spans.tail, s))
  }

  function Spans(buf: seq<byte>, i: nat, d: set<byte>): List<Span>
    decreases |buf| - i
  {
    match First(buf, i, d)
    case None => Nil
    case Some(s) => Cons(s, if Delim(buf, s.hi, d) then Spans(buf, s.hi + 1, d) else Nil)
  }

  /** The string that starts at i reaches beyond position k. */
  predicate Reaches(buf: seq<byte>, i: nat, k: nat) {
    forall j :: i <= j < k ==> NonNul(buf, j)
  }

  predicate NonNul(buf: seq<byte>, j: nat) {
    j < |buf| && buf[j] != 0
  }

  /** A longest stretch without delimiters of the string that starts at i. */
  predicate MaximalRun(buf: seq<byte>, i: nat, d: set<byte>, s: Span) {
    && i <= s.lo < s.hi && Reaches(buf, i, s.hi)
    && (forall k :: s.lo <= k < s.hi ==> Letter(buf, k, d))
    && (s.lo == i || Delim(buf, s.lo - 1, d))
    && !Letter(buf, s.hi, d)
  }

  lemma FirstIsRun(buf: seq<byte>, i: nat, d: set<byte>)
    ensures First(buf, i, d).Some? ==> MaximalRun(buf, i, d, First(buf, i, d).value)
  {
    SkipDelimsMeaning(buf, i, d);
    if First(buf, i, d).Some? {
      var s := First(buf, i, d).value;
      SkipTokenMeaning(buf, s.lo, d);
      forall j | i <= j < s.hi
        ensures NonNul(buf, j)
      {
        assert Delim(buf, j, d) || Letter(buf, j, d);
      }
      if s.lo > i {
        assert Delim(buf, s.lo - 1, d);
      }
    }
  }

  /** A run starts no earlier than the first token. */
  lemma RunStart(buf: seq<byte>, i: nat, d: set<byte>, s: Span)
    requires MaximalRun(buf, i, d, s)
    ensures First(buf, i, d).Some? && s.lo >= First(buf, i, d).value.lo
  {
    var lo := SkipDelims(buf, i, d);
    SkipDelimsMeaning(buf, i, d);
    assert Letter(buf, s.lo, d);
    assert s.lo < lo ==> Delim(buf, s.lo, d);
    if lo < s.lo {
      assert NonNul(buf, lo);
    }
    assert Letter(buf, lo, d);
  }

  lemma SameEnd(buf: seq<byte>, i: nat, d: set<byte>, s: Span, t: Span)
    requires MaximalRun(buf, i, d, s) && MaximalRun(buf, i, d, t) && s.lo == t.lo
    ensures s.hi == t.hi
  {
    assert s.hi < t.hi ==> Letter(buf, s.hi, d);
    assert t.hi < s.hi ==> Letter(buf, t.hi, d);
  }

  /** Two runs do not touch: a delimiter lies between them. */
  lemma RunsApart(buf: seq<byte>, i: nat, d: set<byte>, f: Span, s: Span)
    requires MaximalRun(buf, i, d, f) && MaximalRun(buf, i, d, s) && f.lo < s.lo
    ensures s.lo > f.hi && Delim(buf, f.hi, d) && MaximalRun(buf, f.hi + 1, d, s)
  {
    assert s.lo - 1 < f.hi ==> Letter(buf, s.lo - 1, d);
    assert s.lo > f.hi;
    assert NonNul(buf, f.hi);
    forall j | f.hi + 1 <= j < s.hi
      ensures NonNul(buf, j)
    {
    }
  }

  /** Any other run starts behind the delimiter that ends the first token. */
  lemma LaterRun(buf: seq<byte>, i: nat, d: set<byte>, s: Span)
    requires MaximalRun(buf, i, d, s)
    ensures First(buf, i, d).Some?
    ensures var f := First(buf, i, d).value;
      s == f || (Delim(buf, f.hi, d) && MaximalRun(buf, f.hi + 1, d, s))
  {
    RunStart(buf, i, d, s);
    FirstIsRun(buf, i, d);
    var f := First(buf, i, d).value;
    if s.lo == f.lo {
      SameEnd(buf, i, d, s, f);
    } else {
      RunsApart(buf, i, d, f, s);
    }
  }

  lemma EarlierRun(buf: seq<byte>, i: nat, d: set<byte>, s: Span, h: nat)
    requires i <= h && Reaches(buf, i, h) && Delim(buf, h, d) && MaximalRun(buf, h + 1, d, s)
    ensures MaximalRun(buf, i, d, s)
  {
    forall j | i <= j < s.hi
      ensures NonNul(buf, j)
    {
      assert j < h || j == h || h + 1 <= j;
    }
  }

  lemma RunIff(buf: seq<byte>, i: nat, d: set<byte>, s: Span)
    ensures match First(buf, i, d)
      case None => !MaximalRun(buf, i, d, s)
      case Some(f) =>
        MaximalRun(buf, i, d, s) <==> s == f || (Delim(buf, f.hi, d) && MaximalRun(buf, f.hi + 1, d, s))
  {
    FirstIsRun(buf, i, d);
    if MaximalRun(buf, i, d, s) {
      LaterRun(buf, i, d, s);
    } else if First(buf, i, d).Some? {
      var f := First(buf, i, d).value;
      if Delim(buf, f.hi, d) && MaximalRun(buf, f.hi + 1, d, s) {
        EarlierRun(buf, i, d, s, f.hi);
      }
    }
  }

  /** The spans are exactly the maximal runs. */
  lemma {:induction false} SpansAreMaximalRuns(buf: seq<byte>, i: nat, d: set<byte>, s: Span)
    ensures Has(Spans(buf, i, d), s) <==> MaximalRun(buf, i, d, s)
    decreases |buf| - i
  {
    RunIff(buf, i, d, s);
    match First(buf, i, d)
    case None =>
    case Some(f) =>
      if Delim(buf, f.hi, d) {
        SpansAreMaximalRuns(buf, f.hi + 1, d, s);
      }
  }

  predicate InOrder(spans: List<Span>, from: nat) {
    spans.Cons? ==> from <= spans.head.lo < spans.head.hi && InOrder(spans.tail, spans.head.hi + 1)
  }

  /** And they come in order. */
  lemma {:induction false} SpansInOrder(buf: seq<byte>, i: nat, d: set<byte>)
    ensures InOrder(Spans(buf, i, d), i)
    decreases |buf| - i
  {
    match First(buf, i, d)
    case None =>
    case Some(f) =>
      if Delim(buf, f.hi, d) {
        SpansInOrder(buf, f.hi + 1, d);
      }
  }

  // ---------- Repeated calls ----------

  /** n calls in a row: the buffer at the end and the tokens returned. */
  function Calls(buf: seq<byte>, context: Option<nat>, d: set<byte>, n: nat): (seq<byte>, seq<Option<nat>>)
    decreases n
  {
    if n == 0 then (buf, [])
    else
      var o := Call(buf, context, d);
      var rest := Calls(o.buf, o.context, d, n - 1);
      (rest.0, [o.token] + rest.1)
  }

  /** The buffer with each of the first n tokens terminated. */
  function Cut(buf: seq<byte>, spans: List<Span>, n: nat): (r: seq<byte>)
    ensures |r| == |buf|
    decreases n
  {
    if n == 0 || spans.Nil? then buf
    else Cut(if spans.head.hi < |buf| then buf[spans.head.hi := 0] else buf, spans.tail, n - 1)
  }

  /** The first n tokens in order, NULL once there are no more. */
  function Expected(spans: List<Span>, n: nat): seq<Option<nat>>
    decreases n
  {
    if n == 0 then []
    else if spans.Nil? then [None] + Expected(Nil, n - 1)
    else [Some(spans.head.lo)] + Expected(spans.tail, n - 1)
  }

  /** What lies before i does not matter. */
  ghost predicate SameFrom(a: seq<byte>, b: seq<byte>, i: nat) {
    |a| == |b| && forall k :: i <= k < |a| ==> a[k] == b[k]
  }

  lemma {:induction false} SkipsAgree(a: seq<byte>, b: seq<byte>, i: nat, d: set<byte>)
    requires SameFrom(a, b, i)
    ensures SkipDelims(a, i, d) == SkipDelims(b, i, d) && SkipToken(a, i, d) == SkipToken(b, i, d)
    decreases |a| - i
  {
    if i < |a| {
      SkipsAgree(a, b, i + 1, d);
    }
  }

  lemma FirstAgrees(a: seq<byte>, b: seq<byte>, i: nat, d: set<byte>)
    requires SameFrom(a, b, i)
    ensures First(a, i, d) == First(b, i, d)
  {
    SkipsAgree(a, b, i, d);
    SkipsAgree(a, b, SkipDelims(a, i, d), d);
  }

  lemma {:induction false} SpansAgree(a: seq<byte>, b: seq<byte>, i: nat, d: set<byte>)
    requires SameFrom(a, b, i)
    ensures Spans(a, i, d) == Spans(b, i, d)
    decreases |a| - i
  {
    FirstAgrees(a, b, i, d);
    match First(a, i, d)
    case None =>
    case Some(f) =>
      if Delim(a, f.hi, d) {
        SpansAgree(a, b, f.hi + 1, d);
      }
  }

  lemma {:induction false} NullForever(buf: seq<byte>, d: set<byte>, n: nat)
    ensures Calls(buf, None, d, n) == (buf, Expected(Nil, n))
  {
    if n > 0 {
      NullForever(buf, d, n - 1);
    }
  }

  ghost predicate Yields(buf: seq<byte>, context: Option<nat>, d: set<byte>, n: nat, spans: List<Span>) {
    Calls(buf, context, d, n) == (Cut(buf, spans, n), Expected(spans, n))
  }

  /** A token that ends at a delimiter: it is cut there and the rest follows. */
  lemma YieldsCons(buf: seq<byte>, i: nat, d: set<byte>, n: nat, f: Span, rest: List<Span>)
    requires n > 0 && First(buf, i, d) == Some(f) && Delim(buf, f.hi, d)
    requires Yields(buf[f.hi := 0], Some(f.hi + 1), d, n - 1, rest)
    ensures Yields(buf, Some(i), d, n, Cons(f, rest))
  {
    assert Call(buf, Some(i), d) == Outcome(buf[f.hi := 0], Some(f.hi + 1), Some(f.lo));
  }

  /** A token that ends at the NUL: nothing to cut, and NULL from then on. */
  lemma YieldsLast(buf: seq<byte>, i: nat, d: set<byte>, n: nat, f: Span)
    requires n > 0 && First(buf, i, d) == Some(f) && !Delim(buf, f.hi, d)
    ensures Yields(buf, Some(i), d, n, Cons(f, Nil))
  {
    assert Call(buf, Some(i), d) == Outcome(buf, None, Some(f.lo));
    NullForever(buf, d, n - 1);
    FirstIsRun(buf, i, d);
    assert f.hi < |buf| ==> buf[f.hi := 0] == buf;
  }

  lemma SpansCons(buf: seq<byte>, i: nat, d: set<byte>, f: Span, cut: seq<byte>)
    requires First(buf, i, d) == Some(f) && Delim(buf, f.hi, d) && SameFrom(buf, cut, f.hi + 1)
    ensures Spans(buf, i, d) == Cons(f, Spans(cut, f.hi + 1, d))
  {
    SpansAgree(buf, cut, f.hi + 1, d);
  }

  lemma YieldsNone(buf: seq<byte>, i: nat, d: set<byte>, n: nat)
    requires n > 0 && First(buf, i, d).None?
    ensures Yields(buf, Some(i), d, n, Nil)
  {
    assert Call(buf, Some(i), d) == Outcome(buf, None, None);
    NullForever(buf, d, n - 1);
  }

  /** The k-th call returns the k-th token, NULL after the last; the buffer is cut after each. */
  lemma {:induction false} CallsYieldSpans(buf: seq<byte>, i: nat, d: set<byte>, n: nat)
    ensures Yields(buf, Some(i), d, n, Spans(buf, i, d))
    decreases n
  {
    if n > 0 {
      match First(buf, i, d)
      case None => YieldsNone(buf, i, d, n);
      case Some(f) =>
        if Delim(buf, f.hi, d) {
          var cut := buf[f.hi := 0];
          SpansCons(buf, i, d, f, cut);
          CallsYieldSpans(cut, f.hi + 1, d, n - 1);
          YieldsCons(buf, i, d, n, f, Spans(cut, f.hi + 1, d));
        } else {
          YieldsLast(buf, i, d, n, f);
          assert Spans(buf, i, d) == Cons(f, Nil);
        }
    }
  }

  /** Position k follows one of the first n tokens. */
  predicate Ends(spans: List<Span>, n: nat, k: nat) {
    n > 0 && spans.Cons? && (spans.head.hi == k || Ends(spans.tail, n - 1, k))
  }

  /** Cutting writes NUL right behind the first n tokens and nothing else. */
  lemma {:induction false} CutEffect(buf: seq<byte>, spans: List<Span>, n: nat, k: nat)
    requires k < |buf|
    ensures Cut(buf, spans, n)[k] == if Ends(spans, n, k) then 0 else buf[k]
    decreases n
  {
    if n > 0 && spans.Cons? {
      var h := spans.head.hi;
      CutEffect(if h < |buf| then buf[h := 0] else buf, spans.tail, n - 1, k);
    }
  }

  lemma {:induction false} EndOf(spans: List<Span>, n: nat, k: nat) returns (s: Span)
    requires Ends(spans, n, k)
    ensures Has(spans, s) && s.hi == k
  {
    if spans.head.hi == k {
      s := spans.head;
    } else {
      s := EndOf(spans.tail, n - 1, k);
    }
  }

  /** s is among the first n tokens. */
  predicate Among(spans: List<Span>, n: nat, s: Span) {
    n > 0 && spans.Cons? && (spans.head == s || Among(spans.tail, n - 1, s))
  }

  lemma {:induction false} AmongEnds(spans: List<Span>, n: nat, s: Span)
    requires Among(spans, n, s)
    ensures Has(spans, s) && Ends(spans, n, s.hi)
  {
    if spans.head != s {
      AmongEnds(spans.tail, n - 1, s);
    }
  }

  /** Only delimiters of the string are overwritten, by NUL. */
  lemma OnlyDelimsOverwritten(buf: seq<byte>, i: nat, d: set<byte>, n: nat, k: nat)
    requires k < |buf|
    ensures var after := Calls(buf, Some(i), d, n).0;
      |after| == |buf| && (after[k] != buf[k] ==> after[k] == 0 && Reaches(buf, i, k) && Delim(buf, k, d))
  {
    var spans := Spans(buf, i, d);
    CallsYieldSpans(buf, i, d, n);
    CutEffect(buf, spans, n, k);
    if Ends(spans, n, k) {
      var s := EndOf(spans, n, k);
      SpansAreMaximalRuns(buf, i, d, s);
    }
  }

  /** The C string at s.lo reads as it did before, up to s.hi. */
  ghost predicate Reads(after: seq<byte>, buf: seq<byte>, s: Span) {
    && s.lo < s.hi < |after| == |buf| && after[s.hi] == 0
    && (forall m :: s.lo <= m < s.hi ==> after[m] == buf[m] && after[m] != 0)
  }

  /** Each token returned reads, at the end and as a C string, as its run of the original string. */
  lemma TokensKeepTheirText(buf: seq<byte>, i: nat, d: set<byte>, n: nat, s: Span)
    requires Terminated(buf, i) && Among(Spans(buf, i, d), n, s)
    ensures Reads(Calls(buf, Some(i), d, n).0, buf, s)
  {
    var spans := Spans(buf, i, d);
    AmongEnds(spans, n, s);
    SpansAreMaximalRuns(buf, i, d, s);
    RunEnds(buf, i, d, s);
    CallsYieldSpans(buf, i, d, n);
    CutEffect(buf, spans, n, s.hi);
    LettersStay(buf, i, d, n, s);
  }

  lemma LettersStay(buf: seq<byte>, i: nat, d: set<byte>, n: nat, s: Span)
    requires MaximalRun(buf, i, d, s) && s.hi < |buf|
    ensures var after := Calls(buf, Some(i), d, n).0;
      |after| == |buf| && forall m :: s.lo <= m < s.hi ==> after[m] == buf[m] && after[m] != 0
  {
    var after := Calls(buf, Some(i), d, n).0;
    OnlyDelimsOverwritten(buf, i, d, n, s.lo);
    forall m | s.lo <= m < s.hi
      ensures after[m] == buf[m] && after[m] != 0
    {
      assert Letter(buf, m, d);
      OnlyDelimsOverwritten(buf, i, d, n, m);
    }
  }

  lemma RunEnds(buf: seq<byte>, i: nat, d: set<byte>, s: Span)
    requires Terminated(buf, i) && MaximalRun(buf, i, d, s)
    ensures s.hi < |buf|
  {
    var z :| i <= z < |buf| && buf[z] == 0;
    assert z < s.hi ==> NonNul(buf, z);
  }

  /** A call moves the context past the token it returns, or ends it. */
  lemma ContextAdvances(buf: seq<byte>, i: nat, d: set<byte>)
    ensures var o := Call(buf, Some(i), d);
      o.context.None? || (o.token.Some? && i <= o.token.value < o.context.value - 1 < |buf| == |o.buf|)
  {
  }
}
