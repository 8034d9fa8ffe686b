/**
 The 32-bit queue refines the unbounded one: along a clean run, forgetting the high part of every
 counter commutes with every step.
 */
module MpscWrap {
  import opened Words
  import opened MpscProtocol
  import opened MpscInvariant

  function WrapClaim(x: Claim): Claim {
    Claim(x.item, x.ticket % WORD)
  }

  function WrapLine(line: seq<Claim>): (r: seq<Claim>) {
    seq(|line|, i requires 0 <= i < |line| => WrapClaim(line[i]))
  }

  function WrapProducer(x: Producer): Producer {
    if x.Idle? then x else x.(claim := WrapClaim(x.claim))
  }

  function WrapConsumer(x: Consumer): Consumer {
    if x.Ready? then x else x.(pos := x.pos % WORD)
  }

  /** The state with every counter cut to 32 bits. */
  function Wrap(s: State): State {
    s.(writePos := s.writePos % WORD,
       readPos := s.readPos % WORD,
       seqs := seq(|s.seqs|, i requires 0 <= i < |s.seqs| => s.seqs[i] % WORD),
       producers := seq(|s.producers|, p requires 0 <= p < |s.producers| => WrapProducer(s.producers[p])),
       consumer := WrapConsumer(s.consumer),
       line := WrapLine(s.line))
  }

  /** The program's configuration: 32-bit counters, and fewer producers than a wrap could hide. */
  ghost predicate WordConfig(c: Config) {
    c.Accepted() && c.capacity >= 2 && c.wraps && c.capacity + c.producers < WORD
  }

  function Ideal(c: Config): Config {
    c.(wraps := false)
  }

  lemma {:induction false} RemoveWraps(line: seq<Claim>, x: Claim)
    requires forall i :: 0 <= i < |line| && line[i].item == x.item ==> line[i] == x
    ensures Remove(WrapLine(line), WrapClaim(x)) == WrapLine(Remove(line, x))
  {
    if line != [] {
      assert WrapLine(line)[1..] == WrapLine(line[1..]);
      assert WrapLine(line)[0] == WrapClaim(line[0]);
      if line[0] != x {
        RemoveWraps(line[1..], x);
        assert WrapLine([line[0]] + Remove(line[1..], x)) == [WrapClaim(line[0])] + WrapLine(Remove(line[1..], x));
      }
    }
  }

  lemma SlotWraps(c: Config, t: nat)
    requires c.Accepted()
    ensures Slot(c, t % WORD) == Slot(c, t)
  {
    MaskAfterWrap(t, c.capacity);
  }

  /** While outstanding reservations stay below 2^32 the unsigned distance is the true one. */
  lemma FullTestWraps(c: Config, s: State, v: View, p: nat)
    requires WordConfig(c) && Inv(Ideal(c), s, v)
    requires p < c.producers && s.producers[p].Reserved?
    ensures IsFull(c, Wrap(s), p) == IsFull(Ideal(c), s, p)
  {
    assert ProducerOk(Ideal(c), s, v, p);
    var t, r := s.producers[p].claim.ticket, s.readPos;
    MinusWraps(r, t - r);
  }

  ghost predicate ReadyTestAgrees(c: Config, s: State)
    requires WellFormed(c, s)
  {
    s.consumer.AtSlot? ==>
      var n, r := s.seqs[Slot(c, s.consumer.pos)], s.consumer.pos;
      n % WORD == (r + 1) % WORD <==> n == r + 1
  }

  /** What keeps the 32-bit step and the unbounded one on the same branch. */
  ghost predicate BranchesAgree(c: Config, s: State, step: Step)
    requires WellFormed(c, s)
  {
    match step
    case LoadReadPos(p) =>
      p < c.producers && s.producers[p].Reserved? ==>
        && IsFull(c, Wrap(s), p) == IsFull(Ideal(c), s, p)
        && forall i :: 0 <= i < |s.line| && s.line[i].item == s.producers[p].claim.item ==>
             s.line[i] == s.producers[p].claim
    case FetchSub(p) => p < c.producers && s.producers[p].RollingBack? ==> s.writePos > 0
    case CompareExchange(p, _) =>
      p < c.producers && s.producers[p].Claiming? ==>
        s.seqs[Slot(c, s.producers[p].claim.ticket)] == s.producers[p].claim.ticket
    case PopLoadSeq => ReadyTestAgrees(c, s)
    case _ => true
  }

  lemma FetchAddCommutes(c: Config, s: State, p: nat, data: seq<byte>)
    requires c.Accepted() && c.wraps && WellFormed(c, s)
    ensures Next(c, Wrap(s), FetchAdd(p, data)) == Wrap(Next(Ideal(c), s, FetchAdd(p, data)))
  {
    AddMod(s.writePos, 1);
  }

  lemma LoadCommutes(c: Config, s: State, p: nat)
    requires c.Accepted() && c.wraps && WellFormed(c, s) && BranchesAgree(c, s, LoadReadPos(p))
    ensures Next(c, Wrap(s), LoadReadPos(p)) == Wrap(Next(Ideal(c), s, LoadReadPos(p)))
  {
    if p < c.producers && s.producers[p].Reserved? {
      RemoveWraps(s.line, s.producers[p].claim);
    }
  }

  lemma FetchSubCommutes(c: Config, s: State, p: nat)
    requires c.Accepted() && c.wraps && WellFormed(c, s) && BranchesAgree(c, s, FetchSub(p))
    ensures Next(c, Wrap(s), FetchSub(p)) == Wrap(Next(Ideal(c), s, FetchSub(p)))
  {
  }

  lemma ClaimCommutes(c: Config, s: State, step: Step)
    requires c.Accepted() && c.wraps && WellFormed(c, s) && BranchesAgree(c, s, step)
    requires step.CompareExchange?
    ensures Next(c, Wrap(s), step) == Wrap(Next(Ideal(c), s, step))
  {
    if step.p < c.producers && !s.producers[step.p].Idle? {
      var t := s.producers[step.p].claim.ticket;
      SlotWraps(c, t);
      AddMod(t, c.capacity);
    }
  }

  lemma CopyInCommutes(c: Config, s: State, p: nat)
    requires c.Accepted() && c.wraps && WellFormed(c, s)
    ensures Next(c, Wrap(s), CopyIn(p)) == Wrap(Next(Ideal(c), s, CopyIn(p)))
  {
    if p < c.producers && s.producers[p].Copying? {
      SlotWraps(c, s.producers[p].claim.ticket);
    }
  }

  lemma PublishCommutes(c: Config, s: State, p: nat)
    requires c.Accepted() && c.wraps && WellFormed(c, s)
    ensures Next(c, Wrap(s), Publish(p)) == Wrap(Next(Ideal(c), s, Publish(p)))
  {
    if p < c.producers && s.producers[p].Publishing? {
      var t := s.producers[p].claim.ticket;
      SlotWraps(c, t);
      AddMod(t, 1);
    }
  }

  /** The steps of Pop that change nothing but the consumer. */
  lemma PopReadCommutes(c: Config, s: State, step: Step)
    requires c.Accepted() && c.wraps && WellFormed(c, s) && BranchesAgree(c, s, step)
    requires step.PopLoadReadPos? || step.PopLoadSeq? || step.PopCopyOut?
    ensures Next(c, Wrap(s), step) == Wrap(Next(Ideal(c), s, step))
  {
    if !s.consumer.Ready? {
      SlotWraps(c, s.consumer.pos);
      AddMod(s.consumer.pos, 1);
    }
  }

  lemma PopWriteCommutes(c: Config, s: State, step: Step)
    requires c.Accepted() && c.wraps && WellFormed(c, s)
    requires step.PopReleaseSlot? || step.PopAdvance?
    ensures Next(c, Wrap(s), step) == Wrap(Next(Ideal(c), s, step))
  {
    if !s.consumer.Ready? {
      SlotWraps(c, s.consumer.pos);
      AddMod(s.consumer.pos, c.capacity);
      AddMod(s.consumer.pos, 1);
    }
  }

  /** Each reserved claim is the only line entry with its item. */
  lemma OwnClaim(c: Config, s: State, v: View, p: nat)
    requires Inv(c, s, v) && p < c.producers && s.producers[p].Reserved?
    ensures forall i :: 0 <= i < |s.line| && s.line[i].item == s.producers[p].claim.item ==>
      s.line[i] == s.producers[p].claim
  {
    assert ProducerOk(c, s, v, p);
    assert s.producers[p].claim in s.line;
    var j :| 0 <= j < |s.line| && s.line[j] == s.producers[p].claim;
    assert forall i :: 0 <= i < |s.line| && s.line[i].item == s.line[j].item ==> i == j;
  }

  lemma FailingCount(c: Config, s: State, v: View, p: nat)
    requires WellFormed(c, s) && Counters(c, s, v)
    requires p < c.producers && s.producers[p].RollingBack?
    ensures s.writePos > 0
  {
    assert p in FailingWindows(c, s, v.doomed);
  }

  /** The free, ready and claimed markers of a position differ in 32 bits, unless the capacity is 1. */
  lemma MarkersDifferIff(c: Config, t: nat)
    requires c.Accepted()
    ensures var free, ready, claimed := t % WORD, (t + 1) % WORD, (t + c.capacity) % WORD;
      (free != ready && ready != claimed && claimed != free) <==> c.capacity >= 2
  {
    var q, r := t / WORD, t % WORD;
    assert (t + 1) % WORD == if r + 1 < WORD then r + 1 else 0;
    assert (t + c.capacity) % WORD == if r + c.capacity < WORD then r + c.capacity else r + c.capacity - WORD;
  }

  lemma MarkerWraps(n: nat, r: nat, c: nat)
    requires n == r || n == r + 1 || n == r + c
    requires 2 <= c < WORD
    ensures n % WORD == (r + 1) % WORD <==> n == r + 1
  {
    AddWrap(r, 1);
    AddWrap(r, c);
  }

  /** Whether a slot is ready can be read off the 32-bit marker. */
  lemma ReadyTestWraps(c: Config, s: State, v: View)
    requires WordConfig(c) && v.kept <= |s.line| && WellFormed(c, s) && ConsumerOk(Ideal(c), s, v) && Slots(Ideal(c), s, v)
    ensures ReadyTestAgrees(c, s)
  {
    if s.consumer.AtSlot? {
      assert SlotOk(Ideal(c), s, v, s.readPos);
      MarkerWraps(s.seqs[Slot(c, s.readPos)], s.readPos, c.capacity);
    }
  }

  lemma InvAgrees(c: Config, s: State, v: View, step: Step)
    requires WordConfig(c) && Inv(Ideal(c), s, v)
    ensures BranchesAgree(c, s, step)
  {
    match step
    case LoadReadPos(p) =>
      if p < c.producers && s.producers[p].Reserved? {
        FullTestWraps(c, s, v, p);
        OwnClaim(Ideal(c), s, v, p);
      }
    case FetchSub(p) =>
      if p < c.producers && s.producers[p].RollingBack? {
        FailingCount(Ideal(c), s, v, p);
      }
    case CompareExchange(p, _) =>
      if p < c.producers {
        assert ProducerOk(Ideal(c), s, v, p);
      }
    case PopLoadSeq =>
      ReadyTestWraps(c, s, v);
    case _ =>
  }

  /** Cutting counters to 32 bits commutes with every step from a state of the invariant. */
  lemma StepWraps(c: Config, s: State, v: View, step: Step)
    requires WordConfig(c) && Inv(Ideal(c), s, v)
    ensures Next(c, Wrap(s), step) == Wrap(Next(Ideal(c), s, step))
  {
    InvAgrees(c, s, v, step);
    if step.FetchAdd? {
      FetchAddCommutes(c, s, step.p, step.data);
    } else if step.LoadReadPos? {
      LoadCommutes(c, s, step.p);
    } else if step.FetchSub? {
      FetchSubCommutes(c, s, step.p);
    } else if step.CompareExchange? {
      ClaimCommutes(c, s, step);
    } else if step.CopyIn? {
      CopyInCommutes(c, s, step.p);
    } else if step.Publish? {
      PublishCommutes(c, s, step.p);
    } else if step.PopReleaseSlot? || step.PopAdvance? {
      PopWriteCommutes(c, s, step);
    } else {
      PopReadCommutes(c, s, step);
    }
  }
}
