/**
 Why the clean-run hypothesis cannot be dropped: for every capacity of at least two that Init accepts
 and any two producers, a run from the initial state leaves two accepted pushes with one ticket.
 */
module MpscOverlap {
  import opened Words
  import opened MpscProtocol
  import opened MpscInvariant
  import opened MpscWrap
  import opened MpscFifo
  import opened MpscCalls

  function Fill(n: nat): seq<Step> {
    if n == 0 then [] else Fill(n - 1) + PushCall(0, [])
  }

  /** Positions 0 to k - 1 are ready, nothing has been popped, nobody is inside. */
  ghost predicate Filled(c: Config, s: State, k: nat) {
    && WellFormed(c, s) && k <= c.capacity
    && s.writePos == k && s.readPos == 0
    && (forall i :: 0 <= i < c.capacity ==> s.seqs[i] == if i < k then i + 1 else i)
    && (forall p :: 0 <= p < c.producers ==> s.producers[p].Idle?)
    && s.consumer.Ready?
  }

  lemma PushHead(c: Config, s: State, k: nat) returns (s1: State, s2: State, x: Claim)
    requires WordConfig(c) && c.producers > 0 && Filled(c, s, k) && k < c.capacity
    ensures WellFormed(c, s1) && Leads(c, s, FetchAdd(0, []), s1)
    ensures WellFormed(c, s2) && Leads(c, s1, LoadReadPos(0), s2)
    ensures x.ticket == k && s2.producers == s.producers[0 := Claiming(x)] && s2.seqs == s.seqs
    ensures s2.writePos == k + 1 && s2.readPos == 0 && s2.consumer == s.consumer
  {
    x := Claim(Item(0, s.serials[0], []), k);
    s1 := Next(c, s, FetchAdd(0, []));
    s2 := Next(c, s1, LoadReadPos(0));
  }

  lemma ClaimSlot(c: Config, s2: State, k: nat, x: Claim, s3: State)
    requires WordConfig(c) && WellFormed(c, s2) && c.producers > 0 && k < c.capacity
    requires s2.producers[0] == Claiming(x) && x.ticket == k && s2.seqs[k] == k
    requires s3 == s2.(seqs := s2.seqs[k := Norm(c, k + c.capacity)], producers := s2.producers[0 := Copying(x)])
    ensures WellFormed(c, s3) && Leads(c, s2, CompareExchange(0, false), s3)
  {
    MaskSmall(k, c.capacity);
  }

  lemma FillSlot(c: Config, s3: State, k: nat, x: Claim, s4: State)
    requires WordConfig(c) && WellFormed(c, s3) && c.producers > 0 && k < c.capacity
    requires s3.producers[0] == Copying(x) && x.ticket == k
    requires s4 == s3.(buffer := s3.buffer[k := x.item], producers := s3.producers[0 := Publishing(x)])
    ensures WellFormed(c, s4) && Leads(c, s3, CopyIn(0), s4)
  {
    MaskSmall(k, c.capacity);
  }

  lemma MarkSlot(c: Config, s4: State, k: nat, x: Claim, s5: State)
    requires WordConfig(c) && WellFormed(c, s4) && c.producers > 0 && k < c.capacity
    requires s4.producers[0] == Publishing(x) && x.ticket == k
    requires s5 == s4.(seqs := s4.seqs[k := k + 1], producers := s4.producers[0 := Idle])
    ensures WellFormed(c, s5) && Leads(c, s4, Publish(0), s5)
  {
    MaskSmall(k, c.capacity);
  }

  lemma PushRest(c: Config, s2: State, k: nat, x: Claim) returns (s3: State, s4: State, s5: State)
    requires WordConfig(c) && WellFormed(c, s2) && c.producers > 0 && k < c.capacity
    requires s2.producers[0] == Claiming(x) && x.ticket == k && s2.seqs[k] == k
    ensures WellFormed(c, s3) && Leads(c, s2, CompareExchange(0, false), s3)
    ensures WellFormed(c, s4) && Leads(c, s3, CopyIn(0), s4)
    ensures WellFormed(c, s5) && Leads(c, s4, Publish(0), s5)
    ensures s5.seqs == s2.seqs[k := k + 1] && s5.producers == s2.producers[0 := Idle]
    ensures s5.writePos == s2.writePos && s5.readPos == s2.readPos && s5.consumer == s2.consumer
  {
    s3 := s2.(seqs := s2.seqs[k := Norm(c, k + c.capacity)], producers := s2.producers[0 := Copying(x)]);
    s4 := s3.(buffer := s3.buffer[k := x.item], producers := s3.producers[0 := Publishing(x)]);
    s5 := s4.(seqs := s4.seqs[k := k + 1], producers := s4.producers[0 := Idle]);
    ClaimSlot(c, s2, k, x, s3);
    FillSlot(c, s3, k, x, s4);
    MarkSlot(c, s4, k, x, s5);
  }

  lemma PushFills(c: Config, s: State, k: nat)
    requires WordConfig(c) && c.producers > 0 && Filled(c, s, k) && k < c.capacity
    ensures Filled(c, Exec(c, s, PushCall(0, [])), k + 1)
  {
    var s1, s2, x := PushHead(c, s, k);
    var s3, s4, s5 := PushRest(c, s2, k, x);
    ExecFive(c, [s, s1, s2, s3, s4, s5], FetchAdd(0, []), LoadReadPos(0), CompareExchange(0, false), CopyIn(0), Publish(0));
  }

  lemma FillStep(c: Config, s: State, t: State, n: nat)
    requires WordConfig(c) && c.producers > 0 && WellFormed(c, s) && n < c.capacity
    requires t == Exec(c, s, Fill(n)) && Filled(c, t, n)
    ensures Filled(c, Exec(c, s, Fill(n + 1)), n + 1)
  {
    ExecAppend(c, s, Fill(n), PushCall(0, []));
    assert Fill(n + 1) == Fill(n) + PushCall(0, []);
    PushFills(c, t, n);
  }

  lemma {:induction false} FillFills(c: Config, s: State, n: nat)
    requires WordConfig(c) && c.producers > 0 && IsInit(c, s) && n <= c.capacity
    ensures Filled(c, Exec(c, s, Fill(n)), n)
  {
    if n > 0 {
      var m := n - 1;
      FillFills(c, s, m);
      FillStep(c, s, Exec(c, s, Fill(m)), m);
    }
  }

  lemma PopNext(c: Config, s: State, r: nat)
    requires WordConfig(c) && WellFormed(c, s) && s.readPos == r < c.capacity && s.seqs[r] == r + 1
    ensures var s' := PopOnce(c, s);
      && s'.readPos == r + 1 && s'.writePos == s.writePos && s'.producers == s.producers
      && forall i :: 0 <= i < c.capacity && i != r ==> s'.seqs[i] == s.seqs[i]
  {
    MaskSmall(r, c.capacity);
  }

  /** Two pops free the slots of positions 0 and 1. */
  lemma TwoPops(c: Config, s: State)
    requires WordConfig(c) && WellFormed(c, s) && s.consumer.Ready? && s.readPos == 0
    requires s.seqs[0] == 1 && s.seqs[1] == 2
    ensures var s' := Exec(c, s, PopCalls(2));
      s'.readPos == 2 && s'.writePos == s.writePos && s'.producers == s.producers
  {
    PopNext(c, s, 0);
    var t := PopOnce(c, s);
    PopNext(c, t, 1);
    var n: nat := 2;
    PopCallsRun(c, s, n);
    assert PopMany(c, s, n) == PopMany(c, t, n - 1) == PopMany(c, PopOnce(c, t), n - 2);
  }

  /** The overlapping windows: 0 fails, 1 is accepted inside its window, 0 rolls back and draws 1's ticket. */
  const OVERLAP: seq<Step> := [FetchAdd(1, []), LoadReadPos(1), FetchSub(0), FetchAdd(0, []), LoadReadPos(0)]

  /** The state before the overlap: 0 is about to roll back, two positions have been popped. */
  ghost predicate Primed(c: Config, s: State) {
    && WellFormed(c, s) && c.producers >= 2
    && s.readPos == 2 && s.writePos == c.capacity + 1
    && s.producers[0].RollingBack? && s.producers[1].Idle?
  }

  /** Two accepted pushes hold one ticket. */
  ghost predicate Duplicated(c: Config, s: State) {
    && WellFormed(c, s) && c.producers >= 2
    && s.producers[0].Claiming? && s.producers[1].Claiming?
    && s.producers[0].claim.ticket == s.producers[1].claim.ticket
    && s.producers[0].claim.item != s.producers[1].claim.item
  }

  lemma FirstReservation(c: Config, s: State) returns (s1: State, s2: State)
    requires WordConfig(c) && Primed(c, s)
    ensures WellFormed(c, s1) && Leads(c, s, FetchAdd(1, []), s1)
    ensures WellFormed(c, s2) && Leads(c, s1, LoadReadPos(1), s2)
    ensures s2.readPos == 2 && s2.writePos == c.capacity + 2
    ensures s2.producers == s.producers[1 := Claiming(Claim(Item(1, s.serials[1], []), c.capacity + 1))]
  {
    s1 := Next(c, s, FetchAdd(1, []));
    s2 := Next(c, s1, LoadReadPos(1));
  }

  lemma SecondReservation(c: Config, s2: State) returns (s3: State, s4: State, s5: State)
    requires WordConfig(c) && WellFormed(c, s2) && c.producers >= 2
    requires s2.readPos == 2 && s2.writePos == c.capacity + 2
    requires s2.producers[0].RollingBack?
    ensures WellFormed(c, s3) && Leads(c, s2, FetchSub(0), s3)
    ensures WellFormed(c, s4) && Leads(c, s3, FetchAdd(0, []), s4)
    ensures WellFormed(c, s5) && Leads(c, s4, LoadReadPos(0), s5)
    ensures s5.producers[1] == s2.producers[1] && s5.producers[0].Claiming?
    ensures s5.producers[0].claim.ticket == c.capacity + 1 && s5.producers[0].claim.item.producer == 0
  {
    s3 := Next(c, s2, FetchSub(0));
    s4 := Next(c, s3, FetchAdd(0, []));
    s5 := Next(c, s4, LoadReadPos(0));
  }

  lemma OverlapRuns(c: Config, s: State)
    requires WordConfig(c) && Primed(c, s)
    ensures Duplicated(c, Exec(c, s, OVERLAP))
  {
    var s1, s2 := FirstReservation(c, s);
    var s3, s4, s5 := SecondReservation(c, s2);
    ExecFive(c, [s, s1, s2, s3, s4, s5], FetchAdd(1, []), LoadReadPos(1), FetchSub(0), FetchAdd(0, []), LoadReadPos(0));
  }

  const FAIL: seq<Step> := [FetchAdd(0, []), LoadReadPos(0)]

  lemma FailRuns(c: Config, s: State)
    requires WordConfig(c) && c.producers >= 2 && Filled(c, s, c.capacity)
    ensures var s' := Exec(c, s, FAIL);
      && s'.readPos == 0 && s'.writePos == c.capacity + 1 && s'.consumer.Ready?
      && s'.seqs[0] == 1 && s'.seqs[1] == 2
      && s'.producers[0].RollingBack? && s'.producers[1].Idle?
  {
    var s1 := Next(c, s, FAIL[0]);
    assert Exec(c, s, FAIL) == Next(c, s1, FAIL[1]) by {
      assert Exec(c, s, FAIL) == Exec(c, s1, FAIL[1..]);
      assert FAIL[1..][1..] == [];
    }
  }

  lemma ExecAppend3(c: Config, s: State, x: seq<Step>, y: seq<Step>, z: seq<Step>)
    requires WellFormed(c, s)
    ensures Exec(c, s, x + (y + z)) == Exec(c, Exec(c, Exec(c, s, x), y), z)
  {
    ExecAppend(c, s, x, y + z);
    ExecAppend(c, Exec(c, s, x), y, z);
  }

  /** From a full queue. */
  lemma FullQueueOverlaps(c: Config, s: State)
    requires WordConfig(c) && c.producers >= 2 && Filled(c, s, c.capacity)
    ensures Duplicated(c, Exec(c, s, FAIL + (PopCalls(2) + OVERLAP)))
  {
    FailRuns(c, s);
    TwoPops(c, Exec(c, s, FAIL));
    OverlapRuns(c, Exec(c, Exec(c, s, FAIL), PopCalls(2)));
    ExecAppend3(c, s, FAIL, PopCalls(2), OVERLAP);
  }

  /** For every capacity there is a run that ends with two accepted pushes holding the same ticket. */
  lemma OverlappingWindowsDuplicateTicket(c: Config, s0: State) returns (steps: seq<Step>)
    requires WordConfig(c) && c.producers >= 2 && IsInit(c, s0)
    ensures Duplicated(c, Exec(c, s0, steps))
  {
    var fill, rest := Fill(c.capacity), FAIL + (PopCalls(2) + OVERLAP);
    FillFills(c, s0, c.capacity);
    FullQueueOverlaps(c, Exec(c, s0, fill));
    ExecAppend(c, s0, fill, rest);
    steps := fill + rest;
  }

  /** In every run whatsoever, each slot has one owner. */
  ghost predicate AlwaysOneOwner(c: Config) {
    forall s0, steps :: IsInit(c, s0) ==> OneOwner(c, Exec(c, s0, steps))
  }

  lemma DuplicateHasTwoOwners(c: Config, s: State)
    requires Duplicated(c, s)
    ensures !OneOwner(c, s)
  {
    assert InFlight(s.producers[0]) && InFlight(s.producers[1]);
  }

  /** Without any discipline on the windows, slots have one owner in every run exactly with one producer. */
  lemma OneOwnerIffOneProducer(c: Config)
    requires WordConfig(c) && c.producers > 0
    ensures AlwaysOneOwner(c) <==> c.producers == 1
  {
    if c.producers == 1 {
      forall s0, steps | IsInit(c, s0)
        ensures OneOwner(c, Exec(c, s0, steps))
      {
        OneProducerIsSerialised(c, s0, steps);
        SerialisedIsClean(c, s0, steps);
        assert steps + [] == steps;
        Fifo(c, s0, steps, []);
      }
    } else {
      var s0 := InitState(c, Item(0, 0, []));
      var steps := OverlappingWindowsDuplicateTicket(c, s0);
      DuplicateHasTwoOwners(c, Exec(c, s0, steps));
    }
  }
}
