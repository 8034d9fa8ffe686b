/**
 Deleting surplus history files: scan the directory into the priority queue, then pop and unlink
 while more than `maxFileCount` remain.
 */
module LogCleanup {
  import opened ErrorCodes
  import opened Options
  import opened PQueue

  const MAX_LOG_FILE_COUNT: nat := 128

  datatype FileInfo = FileInfo(path: string, mtime: int)

  /** A directory entry; `mtime` is None when stat fails. */
  datatype Entry = Entry(name: string, mtime: Option<int>)

  function OldestFileCompare(a: FileInfo, b: FileInfo): int {
    if a.mtime < b.mtime then -1 else if a.mtime > b.mtime then 1 else 0
  }

  lemma CompareIsPreorder()
    ensures TotalPreorder(OldestFileCompare)
  {
  }

  /** The part of the name from its last dot on, or None without a dot. */
  function Extension(name: string): (e: Option<string>)
    ensures e.Some? <==> '.' in name
    ensures e.Some? ==> 0 < |e.value| <= |name| && e.value[0] == '.' && '.' !in e.value[1..]
    ensures e.Some? ==> name[|name| - |e.value|..] == e.value
  {
    if name == [] then None
    else if name[|name| - 1] == '.' then Some(".")
    else
      var e := Extension(name[..|name| - 1]);
      if e.None? then None else Some(e.value + [name[|name| - 1]])
  }

  predicate IsHistory(base: string, name: string) {
    && base + "_" <= name
    && (Extension(name) == Some(".log") || Extension(name) == Some(".gz"))
  }

  /** What a directory entry contributes: a history file that stat finds. */
  function AsCandidate(dir: string, base: string, e: Entry): Option<FileInfo> {
    if IsHistory(base, e.name) && e.mtime.Some? then Some(FileInfo(dir + "/" + e.name, e.mtime.value)) else None
  }

  /** The history files of a scan that stat finds, in scan order. */
  function Candidates(dir: string, base: string, entries: seq<Entry>): seq<FileInfo> {
    if entries == [] then []
    else
      var before := Candidates(dir, base, entries[..|entries| - 1]);
      var last := AsCandidate(dir, base, entries[|entries| - 1]);
      if last.Some? then before + [last.value] else before
  }

  /** Exactly the entries that are history files and that stat finds, each with its path and time. */
  lemma {:induction false} CandidatesExact(dir: string, base: string, entries: seq<Entry>, f: FileInfo)
    ensures f in Candidates(dir, base, entries) <==>
      exists i :: 0 <= i < |entries| && AsCandidate(dir, base, entries[i]) == Some(f)
  {
    if entries != [] {
      var n := |entries| - 1;
      var init := entries[..n];
      CandidatesExact(dir, base, init, f);
      assert forall i :: 0 <= i < n ==> init[i] == entries[i];
      InSnoc(Candidates(dir, base, init), AsCandidate(dir, base, entries[n]), f);
    }
  }

  lemma InSnoc<T>(a: seq<T>, last: Option<T>, x: T)
    ensures x in (if last.Some? then a + [last.value] else a) <==> x in a || last == Some(x)
  {
  }

  /** A name that ends in an extension without further dots has that extension. */
  lemma HasExtension(stem: string, ext: string)
    requires ext != [] && ext[0] == '.' && '.' !in ext[1..]
    ensures Extension(stem + ext) == Some(ext)
  {
    var full, k := stem + ext, |stem|;
    assert full[k] == '.' && full[k + 1..] == ext[1..];
    LastDot(full, Extension(full).value, k);
    assert full[k..] == ext;
  }

  lemma LogExtension(stem: string)
    ensures Extension(stem + ".log") == Some(".log")
  {
    var ext := ".log";
    assert ext[1..] == ['l', 'o', 'g'];
    HasExtension(stem, ext);
  }

  lemma GzExtension(stem: string)
    ensures Extension(stem + ".gz") == Some(".gz")
  {
    var ext := ".gz";
    assert ext[1..] == ['g', 'z'];
    HasExtension(stem, ext);
  }

  lemma PrefixStays(a: string, b: string, c: string)
    requires a <= b
    ensures a <= b + c
  {
  }

  /** Names that start right and end in .log or .log.gz are history files. */
  lemma NamedHistory(base: string, stem: string)
    requires base + "_" <= stem
    ensures IsHistory(base, stem + ".log") && IsHistory(base, (stem + ".log") + ".gz")
  {
    LogExtension(stem);
    GzExtension(stem + ".log");
    PrefixStays(base + "_", stem, ".log");
    PrefixStays(base + "_", stem + ".log", ".gz");
  }

  predicate EndsWith(name: string, end: string) {
    |end| <= |name| && name[|name| - |end|..] == end
  }

  /** History files are told by how their names start and end. */
  lemma IsHistoryIff(base: string, name: string)
    ensures IsHistory(base, name) <==> base + "_" <= name && (EndsWith(name, ".log") || EndsWith(name, ".gz"))
  {
    if EndsWith(name, ".log") {
      var stem := name[..|name| - 4];
      assert name == stem + ".log";
      LogExtension(stem);
    } else if EndsWith(name, ".gz") {
      var stem := name[..|name| - 3];
      assert name == stem + ".gz";
      GzExtension(stem);
    }
  }

  lemma SuffixAt(s: string, from: nat, k: nat)
    requires from <= |s| && k < |s|
    ensures from <= k ==> s[k] in s[from..]
  {
    if from <= k {
      assert s[from..][k - from] == s[k];
    }
  }

  /** Only one suffix starts with a dot and has no other. */
  lemma LastDot(full: string, e: string, k: nat)
    requires 0 < |e| <= |full| && full[|full| - |e|..] == e && e[0] == '.' && '.' !in e[1..]
    requires k < |full| && full[k] == '.' && '.' !in full[k + 1..]
    ensures e == full[k..]
  {
    var d := |full| - |e|;
    SuffixAt(full, d + 1, k);
    SuffixAt(full, k + 1, d);
    assert e[1..] == full[d + 1..];
  }

  function FirstOf<T>(s: seq<T>, n: nat): seq<T> {
    if |s| <= n then s else s[..n]
  }

  /** What the draining loop unlinks, in order. */
  function Victims(heap: seq<FileInfo>, keep: nat): seq<FileInfo>
    decreases |heap|
  {
    if |heap| <= keep then []
    else
      PopConserves(OldestFileCompare, heap);
      [heap[0]] + Victims(Popped(OldestFileCompare, heap), keep)
  }

  function Paths(files: seq<FileInfo>): seq<string> {
    seq(|files|, i requires 0 <= i < |files| => files[i].path)
  }

  lemma {:induction false} PushAllAppend<T>(cmp: Comparator<T>, s: seq<T>, xs: seq<T>, x: T)
    ensures PushAll(cmp, s, xs + [x]) == Pushed(cmp, PushAll(cmp, s, xs), x)
    decreases |xs|
  {
    if xs == [] {
      assert ([] + [x])[1..] == [];
    } else {
      assert (xs + [x])[1..] == xs[1..] + [x];
      PushAllAppend(cmp, Pushed(cmp, s, xs[0]), xs[1..], x);
    }
  }

  /** Scan loop: queue every candidate while there is room. */
  method Collect(dir: string, base: string, entries: seq<Entry>) returns (queue: Heap<FileInfo>)
    ensures fresh(queue) && queue.Valid() && fresh(queue.buffer) && queue.compare == OldestFileCompare
    ensures queue.Contents() ==
      PushAll(OldestFileCompare, [], FirstOf(Candidates(dir, base, entries), MAX_LOG_FILE_COUNT))
  {
    queue := new Heap<FileInfo>(MAX_LOG_FILE_COUNT, OldestFileCompare);
    for i := 0 to |entries|
      invariant queue.Valid() && fresh(queue) && fresh(queue.buffer)
      invariant queue.compare == OldestFileCompare && queue.capacity == MAX_LOG_FILE_COUNT
      invariant queue.Contents() ==
        PushAll(OldestFileCompare, [], FirstOf(Candidates(dir, base, entries[..i]), MAX_LOG_FILE_COUNT))
    {
      var e := entries[i];
      assert entries[..i + 1][..i] == entries[..i];
      if IsHistory(base, e.name) && e.mtime.Some? {
        var info := FileInfo(dir + "/" + e.name, e.mtime.value);
        PushFits(Candidates(dir, base, entries[..i]), info);
        var pushed := queue.Push(info);
      }
    }
    assert entries[..|entries|] == entries;
  }

  lemma VictimsStep(victims: seq<FileInfo>, heap: seq<FileInfo>, keep: nat)
    requires |heap| > keep
    ensures victims + Victims(heap, keep) ==
      (victims + [heap[0]]) + Victims(Popped(OldestFileCompare, heap), keep)
    ensures Paths(victims + [heap[0]]) == Paths(victims) + [heap[0].path]
  {
    var rest := Victims(Popped(OldestFileCompare, heap), keep);
    assert Victims(heap, keep) == [heap[0]] + rest;
    Regroup(victims, heap[0], rest);
  }

  lemma Regroup(a: seq<FileInfo>, x: FileInfo, b: seq<FileInfo>)
    ensures a + ([x] + b) == (a + [x]) + b
    ensures Paths(a + [x]) == Paths(a) + [x.path]
  {
  }

  /** Drain loop: pop and unlink while too many remain. */
  method Drain(queue: Heap<FileInfo>, keep: nat) returns (unlinked: seq<string>)
    requires queue.Valid() && queue.compare == OldestFileCompare
    modifies queue, queue.buffer
    ensures unlinked == Paths(Victims(old(queue.Contents()), keep))
  {
    unlinked := [];
    ghost var goal, victims := Victims(queue.Contents(), keep), [];
    while queue.size > keep
      invariant queue.Valid() && queue.buffer == old(queue.buffer)
      invariant victims + Victims(queue.Contents(), keep) == goal
      invariant unlinked == Paths(victims)
      decreases queue.size
    {
      VictimsStep(victims, queue.Contents(), keep);
      var popped, oldest := queue.Pop();
      unlinked := unlinked + [oldest.path];
      victims := victims + [oldest];
    }
  }

  /** `scan` is None when scandir fails. */
  method CleanOldFiles(dir: string, base: string, scan: Option<seq<Entry>>, maxFileCount: nat)
    returns (rc: Code, unlinked: seq<string>)
    ensures rc == if scan.None? then FileOpen else Ok
    ensures unlinked == if scan.None? then [] else
      Paths(Victims(PushAll(OldestFileCompare, [], FirstOf(Candidates(dir, base, scan.value), MAX_LOG_FILE_COUNT)),
                    maxFileCount))
  {
    unlinked := [];
    if scan.None? {
      return FileOpen, unlinked;
    }
    var queue := Collect(dir, base, scan.value);
    unlinked := Drain(queue, maxFileCount);
    return Ok, unlinked;
  }

  lemma PushFits(files: seq<FileInfo>, x: FileInfo)
    ensures var q := PushAll(OldestFileCompare, [], FirstOf(files, MAX_LOG_FILE_COUNT));
      PushAll(OldestFileCompare, [], FirstOf(files + [x], MAX_LOG_FILE_COUNT)) ==
      if |q| >= MAX_LOG_FILE_COUNT then q else Pushed(OldestFileCompare, q, x)
  {
    PushAllConserves(OldestFileCompare, [], FirstOf(files, MAX_LOG_FILE_COUNT));
    if |files| < MAX_LOG_FILE_COUNT {
      PushAllAppend(OldestFileCompare, [], files, x);
    } else {
      assert (files + [x])[..MAX_LOG_FILE_COUNT] == files[..MAX_LOG_FILE_COUNT];
    }
  }

  /** The drain takes exactly the surplus out of the queue, each file once. */
  lemma {:induction false} VictimsAreSurplus(heap: seq<FileInfo>, keep: nat)
    ensures |Victims(heap, keep)| == if |heap| > keep then |heap| - keep else 0
    ensures multiset(Victims(heap, keep)) <= multiset(heap)
    decreases |heap|
  {
    if |heap| > keep {
      PopConserves(OldestFileCompare, heap);
      var rest := Popped(OldestFileCompare, heap);
      VictimsAreSurplus(rest, keep);
      assert multiset([heap[0]] + Victims(rest, keep)) == multiset{heap[0]} + multiset(Victims(rest, keep));
    }
  }

  ghost predicate Distinct<T>(s: seq<T>) {
    forall i, j :: 0 <= i < j < |s| ==> s[i] != s[j]
  }

  lemma {:induction false} CountAtLeastTwo<T>(s: seq<T>, i: nat, j: nat)
    requires i < j < |s| && s[i] == s[j]
    ensures multiset(s)[s[i]] >= 2
  {
    var a, b, d := s[..i], s[i + 1..j], s[j + 1..];
    assert s == a + [s[i]] + b + [s[j]] + d;
  }

  lemma {:induction false} DistinctCount<T>(s: seq<T>, x: T)
    requires Distinct(s)
    ensures multiset(s)[x] <= 1
    decreases |s|
  {
    if s != [] {
      DistinctCount(s[1..], x);
      assert s == [s[0]] + s[1..];
      if x == s[0] {
        assert x !in s[1..];
      }
    }
  }

  lemma AppendDistinct<T>(s: seq<T>, x: T)
    requires Distinct(s) && x !in s
    ensures Distinct(s + [x])
  {
  }

  /** Files of one directory scan with distinct names have distinct paths. */
  lemma {:induction false} CandidatesDistinct(dir: string, base: string, entries: seq<Entry>)
    requires forall i, j :: 0 <= i < j < |entries| ==> entries[i].name != entries[j].name
    ensures Distinct(Paths(Candidates(dir, base, entries)))
    ensures forall x :: x in Paths(Candidates(dir, base, entries)) ==>
      exists i :: 0 <= i < |entries| && x == dir + "/" + entries[i].name
  {
    if entries != [] {
      var n, e := |entries| - 1, entries[|entries| - 1];
      var before := Candidates(dir, base, entries[..n]);
      CandidatesDistinct(dir, base, entries[..n]);
      forall x | x in Paths(before)
        ensures exists i :: 0 <= i < |entries| && x == dir + "/" + entries[i].name
        ensures x != dir + "/" + e.name
      {
        var i :| 0 <= i < |entries[..n]| && x == dir + "/" + entries[..n][i].name;
        assert entries[i].name != e.name;
        SamePrefix(dir + "/", entries[i].name, e.name);
      }
      AppendDistinct(Paths(before), dir + "/" + e.name);
      if IsHistory(base, e.name) && e.mtime.Some? {
        var file := FileInfo(dir + "/" + e.name, e.mtime.value);
        assert Paths(before + [file]) == Paths(before) + [file.path];
      }
    }
  }

  lemma SamePrefix(p: string, a: string, b: string)
    requires a != b
    ensures p + a != p + b
  {
    assert (p + a)[|p|..] == a && (p + b)[|p|..] == b;
  }

  lemma QueueUnlinksSurplus(queued: seq<FileInfo>, keep: nat)
    requires Distinct(Paths(queued))
    ensures var unlinked := Paths(Victims(PushAll(OldestFileCompare, [], queued), keep));
      && |unlinked| == (if |queued| > keep then |queued| - keep else 0)
      && Distinct(unlinked)
      && forall x :: x in unlinked ==> x in Paths(queued)
  {
    var heap := PushAll(OldestFileCompare, [], queued);
    PushAllConserves(OldestFileCompare, [], queued);
    var victims := Victims(heap, keep);
    VictimsAreSurplus(heap, keep);
    SubBagDistinct(victims, queued);
    forall x | x in Paths(victims)
      ensures x in Paths(queued)
    {
      var i :| 0 <= i < |victims| && victims[i].path == x;
      assert victims[i] in multiset(victims);
      assert victims[i] in multiset(queued);
      var j :| 0 <= j < |queued| && queued[j] == victims[i];
      assert Paths(queued)[j] == x;
    }
  }

  /**
   With N matching files that stat finds, cleanup unlinks exactly max(0, min(N, 128) - maxFileCount)
   different scanned files.
   */
  lemma CleanupUnlinksSurplus(dir: string, base: string, entries: seq<Entry>, maxFileCount: nat)
    requires forall i, j :: 0 <= i < j < |entries| ==> entries[i].name != entries[j].name
    ensures var files := Candidates(dir, base, entries);
      var queued := FirstOf(files, MAX_LOG_FILE_COUNT);
      var unlinked := Paths(Victims(PushAll(OldestFileCompare, [], queued), maxFileCount));
      && |unlinked| == (if |queued| > maxFileCount then |queued| - maxFileCount else 0)
      && Distinct(unlinked)
      && forall x :: x in unlinked ==> x in Paths(files)
  {
    var files := Candidates(dir, base, entries);
    var queued := FirstOf(files, MAX_LOG_FILE_COUNT);
    CandidatesDistinct(dir, base, entries);
    assert forall i :: 0 <= i < |queued| ==> Paths(queued)[i] == Paths(files)[i];
    QueueUnlinksSurplus(queued, maxFileCount);
  }

  lemma SubBagDistinct(a: seq<FileInfo>, b: seq<FileInfo>)
    requires multiset(a) <= multiset(b) && Distinct(Paths(b))
    ensures Distinct(Paths(a))
  {
    assert Distinct(b) by {
      assert forall i :: 0 <= i < |b| ==> Paths(b)[i] == b[i].path;
    }
    forall i, j | 0 <= i < j < |a|
      ensures Paths(a)[i] != Paths(a)[j]
    {
      if a[i] == a[j] {
        CountAtLeastTwo(a, i, j);
        DistinctCount(b, a[i]);
      } else {
        assert a[i] in multiset(a) && a[j] in multiset(a);
        assert a[i] in multiset(b) && a[j] in multiset(b);
        var k :| 0 <= k < |b| && b[k] == a[i];
        var l :| 0 <= l < |b| && b[l] == a[j];
        assert Paths(b)[k] != Paths(b)[l];
      }
    }
  }

  /** The comparator puts the newest file on top, so the first file unlinked is a newest one. */
  lemma FirstVictimIsNewest(files: seq<FileInfo>, maxFileCount: nat)
    requires |files| > maxFileCount
    ensures var victims := Victims(PushAll(OldestFileCompare, [], files), maxFileCount);
      victims != [] && victims[0] in files && forall k :: 0 <= k < |files| ==> files[k].mtime <= victims[0].mtime
  {
    CompareIsPreorder();
    PushAllConserves(OldestFileCompare, [], files);
    FirstOutIsMaximal(OldestFileCompare, files);
    var top := PushAll(OldestFileCompare, [], files)[0];
    assert forall k :: 0 <= k < |files| && OldestFileCompare(files[k], top) <= 0 ==> files[k].mtime <= top.mtime;
  }

  /** So an oldest file goes first exactly when all are equally old. */
  lemma OldestGoesFirstIff(files: seq<FileInfo>, maxFileCount: nat)
    requires |files| > maxFileCount
    ensures var victims := Victims(PushAll(OldestFileCompare, [], files), maxFileCount);
      && victims != []
      && ((forall k :: 0 <= k < |files| ==> victims[0].mtime <= files[k].mtime) <==>
          (forall j, k :: 0 <= j < |files| && 0 <= k < |files| ==> files[j].mtime == files[k].mtime))
  {
    FirstVictimIsNewest(files, maxFileCount);
    var first := Victims(PushAll(OldestFileCompare, [], files), maxFileCount)[0];
    var i :| 0 <= i < |files| && files[i] == first;
    if forall k :: 0 <= k < |files| ==> first.mtime <= files[k].mtime {
      assert forall k :: 0 <= k < |files| ==> files[k].mtime == first.mtime;
    }
  }

  /** The queue after i pops. */
  function AfterPops(heap: seq<FileInfo>, i: nat): seq<FileInfo>
    requires i <= |heap|
    decreases i
  {
    if i == 0 then heap
    else
      PopConserves(OldestFileCompare, heap);
      AfterPops(Popped(OldestFileCompare, heap), i - 1)
  }

  lemma VictimsCons(heap: seq<FileInfo>, keep: nat) returns (rest: seq<FileInfo>)
    requires |heap| > keep
    ensures |rest| == |heap| - 1 && Victims(heap, keep) == [heap[0]] + Victims(rest, keep)
    ensures forall i :: 0 < i <= |heap| ==> AfterPops(heap, i) == AfterPops(rest, i - 1)
  {
    PopConserves(OldestFileCompare, heap);
    rest := Popped(OldestFileCompare, heap);
  }

  /** The i-th file unlinked is the root of the queue after i pops. */
  lemma {:induction false} VictimAt(heap: seq<FileInfo>, keep: nat, i: nat)
    requires i + keep < |heap|
    ensures i < |Victims(heap, keep)| && AfterPops(heap, i) != [] && Victims(heap, keep)[i] == AfterPops(heap, i)[0]
    decreases i
  {
    var rest := VictimsCons(heap, keep);
    if i > 0 {
      VictimAt(rest, keep, i - 1);
      assert AfterPops(heap, i) == AfterPops(rest, i - 1);
    }
  }
}
