/**
 The guarantees of the 32-bit queue over whole runs. Every theorem here speaks about runs of the
 program's own configuration (`wraps`), from the state `SilogMpscQueueInit` leaves.
 */
module MpscFifo {
  import opened Words
  import opened MpscProtocol
  import opened MpscInvariant
  import opened MpscWrap
  import opened MpscAccepted

  lemma DoomedAfter(c: Config, s: State, steps: seq<Step>)
    requires WellFormed(c, s) && steps != []
    ensures var s' := Next(c, s, steps[0]); var d, d' := Doomed(c, s, steps), Doomed(c, s', steps[1..]);
      match steps[0]
      case FetchAdd(p, _) =>
        if Reserves(c, s, steps[0]) && p in d' then d' == d + {p} else d' == d && (Reserves(c, s, steps[0]) ==> p !in d)
      case LoadReadPos(p) => d' == d - {p}
      case _ => d' == d
  {
    var s' := Next(c, s, steps[0]);
    var d, d' := Doomed(c, s, steps), Doomed(c, s', steps[1..]);
    match steps[0]
    case FetchAdd(p, _) =>
      if Reserves(c, s, steps[0]) && p in d' {
        assert d' == d + {p};
      } else {
        assert d' == d;
      }
    case LoadReadPos(p) => assert d' == d - {p};
    case _ => assert d' == d;
  }

  /** Steps other than a push's first two keep the invariant and decide no push. */
  lemma LaterStep(c: Config, s: State, v: View, step: Step) returns (v': View)
    requires IdealConfig(c) && Inv(c, s, v) && !step.FetchAdd? && !step.LoadReadPos?
    ensures Inv(c, Next(c, s, step), v') && v'.doomed == v.doomed
  {
    v' := v;
    match step
    case FetchSub(p) =>
      if p < c.producers && s.producers[p].RollingBack? {
        FetchSubInv(c, s, v, p);
      }
    case CompareExchange(p, _) =>
      if p < c.producers && s.producers[p].Claiming? {
        CompareExchangeInv(c, s, v, p);
      }
    case CopyIn(p) =>
      if p < c.producers && s.producers[p].Copying? {
        CopyInInv(c, s, v, p);
      }
    case Publish(p) =>
      if p < c.producers && s.producers[p].Publishing? {
        PublishInv(c, s, v, p);
        v' := v.(holder := v.holder - {s.producers[p].claim.ticket});
      }
    case PopReleaseSlot =>
      if s.consumer.Releasing? {
        ReleaseInv(c, s, v);
      }
    case PopAdvance =>
      if s.consumer.Advancing? {
        AdvanceInv(c, s, v);
      }
    case _ => ConsumerLocal(c, s, v, step);
  }

  /** The fetch-add of a clean run keeps the invariant. */
  lemma ReserveStep(c: Config, s: State, v: View, p: nat, data: seq<byte>, away: bool) returns (v': View)
    requires IdealConfig(c) && Inv(c, s, v) && p < c.producers && s.producers[p].Idle?
    requires !away ==> NoFailingWindow(c, s, v.doomed)
    ensures Inv(c, Next(c, s, FetchAdd(p, data)), v')
    ensures v'.doomed == if away then v.doomed + {p} else v.doomed
  {
    if away {
      FetchAddDoomed(c, s, v, p, data);
      v' := v.(doomed := v.doomed + {p});
    } else {
      FetchAddKept(c, s, v, p, data);
      v' := View(v.kept + 1, v.doomed, v.holder[v.kept := p]);
    }
  }

  lemma LoadStep(c: Config, s: State, v: View, p: nat) returns (v': View)
    requires IdealConfig(c) && Inv(c, s, v) && p < c.producers && s.producers[p].Reserved?
    requires p in v.doomed <==> IsFull(c, s, p)
    ensures Inv(c, Next(c, s, LoadReadPos(p)), v') && v'.doomed == v.doomed - {p}
  {
    v' := v.(doomed := v.doomed - {p});
    if IsFull(c, s, p) {
      LoadReject(c, s, v, p);
    } else {
      LoadAccept(c, s, v, p);
      assert v' == v;
    }
  }

  lemma WindowsWrap(c: Config, s: State, doomed: set<nat>)
    requires WellFormed(c, s) && NoFailingWindow(c, Wrap(s), doomed)
    ensures NoFailingWindow(c, s, doomed)
  {
    assert forall q :: 0 <= q < c.producers && InFailingWindow(s, doomed, q) ==> InFailingWindow(Wrap(s), doomed, q);
  }

  lemma CleanReserve(c: Config, s: State, v: View, steps: seq<Step>) returns (v': View)
    requires WordConfig(c) && Inv(Ideal(c), s, v) && steps != [] && Reserves(c, s, steps[0])
    requires v.doomed == Doomed(c, Wrap(s), steps) && Clean(c, Wrap(s), steps)
    ensures Inv(Ideal(c), Next(Ideal(c), s, steps[0]), v')
    ensures v'.doomed == Doomed(c, Next(c, Wrap(s), steps[0]), steps[1..])
  {
    DoomedAfter(c, Wrap(s), steps);
    var away := TurnedAway(c, Next(c, Wrap(s), steps[0]), steps[1..], steps[0].p);
    if !away {
      WindowsWrap(c, s, v.doomed);
    }
    v' := ReserveStep(Ideal(c), s, v, steps[0].p, steps[0].data, away);
  }

  lemma CleanLoad(c: Config, s: State, v: View, steps: seq<Step>, p: nat) returns (v': View)
    requires WordConfig(c) && Inv(Ideal(c), s, v) && steps != [] && steps[0] == LoadReadPos(p)
    requires p < c.producers && s.producers[p].Reserved?
    requires v.doomed == Doomed(c, Wrap(s), steps)
    ensures Inv(Ideal(c), Next(Ideal(c), s, steps[0]), v')
    ensures v'.doomed == Doomed(c, Next(c, Wrap(s), steps[0]), steps[1..])
  {
    DoomedAfter(c, Wrap(s), steps);
    FullTestWraps(c, s, v, p);
    v' := LoadStep(Ideal(c), s, v, p);
  }

  /** One step of a clean run keeps the invariant. */
  lemma CleanStep(c: Config, s: State, v: View, steps: seq<Step>) returns (v': View)
    requires WordConfig(c) && Inv(Ideal(c), s, v) && steps != []
    requires v.doomed == Doomed(c, Wrap(s), steps) && Clean(c, Wrap(s), steps)
    ensures Inv(Ideal(c), Next(Ideal(c), s, steps[0]), v')
    ensures v'.doomed == Doomed(c, Next(c, Wrap(s), steps[0]), steps[1..])
  {
    var step := steps[0];
    v' := v;
    if Reserves(c, s, step) {
      v' := CleanReserve(c, s, v, steps);
    } else if step.LoadReadPos? && step.p < c.producers && s.producers[step.p].Reserved? {
      v' := CleanLoad(c, s, v, steps, step.p);
    } else {
      DoomedAfter(c, Wrap(s), steps);
      if !step.FetchAdd? && !step.LoadReadPos? {
        v' := LaterStep(Ideal(c), s, v, step);
      }
    }
  }

  /** A clean run of the 32-bit queue is, step for step, a run of the unbounded one. */
  lemma {:induction false} CleanPrefix(c: Config, s: State, v: View, steps: seq<Step>, rest: seq<Step>)
    returns (v': View)
    requires WordConfig(c) && Inv(Ideal(c), s, v)
    requires v.doomed == Doomed(c, Wrap(s), steps + rest) && Clean(c, Wrap(s), steps + rest)
    ensures Inv(Ideal(c), Exec(Ideal(c), s, steps), v')
    ensures Exec(c, Wrap(s), steps) == Wrap(Exec(Ideal(c), s, steps))
    ensures v'.doomed == Doomed(c, Exec(c, Wrap(s), steps), rest)
    decreases |steps|
  {
    if steps == [] {
      assert steps + rest == rest;
      v' := v;
    } else {
      var all := steps + rest;
      assert all[0] == steps[0] && all[1..] == steps[1..] + rest;
      StepWraps(c, s, v, steps[0]);
      var u := CleanStep(c, s, v, all);
      v' := CleanPrefix(c, Next(Ideal(c), s, steps[0]), u, steps[1..], rest);
    }
  }

  lemma CleanRun(c: Config, s: State, v: View, steps: seq<Step>) returns (v': View)
    requires WordConfig(c) && Inv(Ideal(c), s, v)
    requires v.doomed == Doomed(c, Wrap(s), steps) && Clean(c, Wrap(s), steps)
    ensures Inv(Ideal(c), Exec(Ideal(c), s, steps), v') && v'.doomed == {}
    ensures Exec(c, Wrap(s), steps) == Wrap(Exec(Ideal(c), s, steps))
  {
    assert steps + [] == steps;
    v' := CleanPrefix(c, s, v, steps, []);
  }

  /** From the initial state: the invariant holds all along every clean run. */
  lemma PrefixFromInit(c: Config, s0: State, steps: seq<Step>, rest: seq<Step>) returns (s: State, v: View)
    requires WordConfig(c) && IsInit(c, s0) && Clean(c, s0, steps + rest)
    ensures Inv(Ideal(c), s, v) && v.doomed == Doomed(c, Wrap(s), rest) && Exec(c, s0, steps) == Wrap(s)
    ensures s == Exec(Ideal(c), s0, steps)
  {
    assert Wrap(s0) == s0;
    InitInv(Ideal(c), s0);
    assert Doomed(c, s0, steps + rest) == {} by {
      forall p | 0 <= p < c.producers
        ensures !TurnedAway(c, s0, steps + rest, p)
      {
        assert s0.producers[p] == Idle;
      }
    }
    v := CleanPrefix(c, s0, View(0, {}, map[]), steps, rest);
    s := Exec(Ideal(c), s0, steps);
  }

  lemma {:induction false} AcceptedWraps(line: seq<Claim>, accepted: set<Item>)
    ensures AcceptedIn(WrapLine(line), accepted) == AcceptedIn(line, accepted)
  {
    if line != [] {
      assert WrapLine(line)[1..] == WrapLine(line[1..]);
      AcceptedWraps(line[1..], accepted);
    }
  }

  lemma {:induction false} PoppedIsPrefix(popped: seq<Item>, line: seq<Claim>, accepted: set<Item>)
    requires |popped| <= |line|
    requires forall i :: 0 <= i < |popped| ==> popped[i] == line[i].item && line[i].item in accepted
    ensures popped <= AcceptedIn(line, accepted)
  {
    if popped != [] {
      PoppedIsPrefix(popped[1..], line[1..], accepted);
      assert popped == [popped[0]] + popped[1..];
    }
  }

  lemma {:induction false} AcceptedBound(line: seq<Claim>, accepted: set<Item>, n: nat)
    requires forall i :: n <= i < |line| ==> line[i].item !in accepted
    ensures |AcceptedIn(line, accepted)| <= n
  {
    if line != [] {
      AcceptedBound(line[1..], accepted, if n == 0 then 0 else n - 1);
    }
  }

  lemma {:induction false} AcceptedMembers(line: seq<Claim>, accepted: set<Item>)
    ensures forall x :: x in AcceptedIn(line, accepted) ==> exists i :: 0 <= i < |line| && line[i].item == x
  {
    if line != [] {
      AcceptedMembers(line[1..], accepted);
      forall x | x in AcceptedIn(line, accepted)
        ensures exists i :: 0 <= i < |line| && line[i].item == x
      {
        if x in AcceptedIn(line[1..], accepted) {
          var i :| 0 <= i < |line[1..]| && line[1..][i].item == x;
          assert line[i + 1].item == x;
        }
      }
    }
  }

  /** Items of one producer appear in the order it pushed them. */
  ghost predicate OwnOrder(items: seq<Item>) {
    forall i, j :: 0 <= i < j < |items| && items[i].producer == items[j].producer ==> items[i].serial < items[j].serial
  }

  lemma {:induction false} AcceptedOwnOrder(line: seq<Claim>, accepted: set<Item>)
    requires forall i, j :: 0 <= i < j < |line| && line[i].item.producer == line[j].item.producer ==>
      line[i].item.serial < line[j].item.serial
    ensures OwnOrder(AcceptedIn(line, accepted))
  {
    if line != [] {
      AcceptedOwnOrder(line[1..], accepted);
      var rest := AcceptedIn(line[1..], accepted);
      AcceptedMembers(line[1..], accepted);
      forall j | 0 <= j < |rest| && rest[j].producer == line[0].item.producer
        ensures line[0].item.serial < rest[j].serial
      {
        assert rest[j] in rest;
        var i :| 0 <= i < |line[1..]| && line[1..][i].item == rest[j];
        assert line[i + 1].item == rest[j];
      }
    }
  }

  /** Each slot has one owner, and the claiming compare-exchange finds the ticket it expects. */
  ghost predicate OneOwner(c: Config, s: State)
    requires WellFormed(c, s)
  {
    && (forall p :: 0 <= p < c.producers && s.producers[p].Claiming? ==>
          s.seqs[Slot(c, s.producers[p].claim.ticket)] == s.producers[p].claim.ticket)
    && (forall p, q :: 0 <= p < q < c.producers && InFlight(s.producers[p]) && InFlight(s.producers[q]) ==>
          Slot(c, s.producers[p].claim.ticket) != Slot(c, s.producers[q].claim.ticket))
    && (forall p :: 0 <= p < c.producers && InFlight(s.producers[p]) && (s.consumer.Draining? || s.consumer.Releasing?) ==>
          Slot(c, s.producers[p].claim.ticket) != Slot(c, s.consumer.pos))
  }

  lemma IdealOwner(c: Config, s: State, v: View)
    requires IdealConfig(c) && Inv(c, s, v)
    ensures OneOwner(c, s)
  {
    LapSlots(c, Released(s));
    assert !s.consumer.Advancing? ==> SlotOk(c, s, v, s.readPos);
    forall p | 0 <= p < c.producers && InFlight(s.producers[p])
      ensures s.producers[p].Claiming? ==>
        s.seqs[Slot(c, s.producers[p].claim.ticket)] == s.producers[p].claim.ticket
      ensures Released(s) <= s.producers[p].claim.ticket < Released(s) + c.capacity
      ensures s.producers[p].claim.ticket in v.holder && v.holder[s.producers[p].claim.ticket] == p
    {
      assert ProducerOk(c, s, v, p);
    }
  }

  lemma OwnerWraps(c: Config, s: State)
    requires c.Accepted() && WellFormed(c, s) && OneOwner(Ideal(c), s)
    ensures OneOwner(c, Wrap(s))
  {
    var w := Wrap(s);
    forall p | 0 <= p < c.producers && InFlight(w.producers[p])
      ensures w.producers[p].Claiming? ==>
        w.seqs[Slot(c, w.producers[p].claim.ticket)] == w.producers[p].claim.ticket
    {
      SlotWraps(c, s.producers[p].claim.ticket);
    }
    forall p, q | 0 <= p < q < c.producers && InFlight(w.producers[p]) && InFlight(w.producers[q])
      ensures Slot(c, w.producers[p].claim.ticket) != Slot(c, w.producers[q].claim.ticket)
    {
      SlotWraps(c, s.producers[p].claim.ticket);
      SlotWraps(c, s.producers[q].claim.ticket);
    }
    forall p | 0 <= p < c.producers && InFlight(w.producers[p]) && (w.consumer.Draining? || w.consumer.Releasing?)
      ensures Slot(c, w.producers[p].claim.ticket) != Slot(c, w.consumer.pos)
    {
      SlotWraps(c, s.producers[p].claim.ticket);
      SlotWraps(c, s.consumer.pos);
    }
  }

  /** Nothing past one lap has been accepted. */
  lemma NotAcceptedYet(c: Config, s: State, v: View, k: nat)
    requires IdealConfig(c) && Inv(c, s, v)
    requires s.readPos + c.capacity <= k < |s.line|
    ensures s.line[k].item !in s.accepted
  {
    if k >= v.kept {
      assert ProducerOk(c, s, v, s.line[k].item.producer);
    } else {
      if k < Released(s) + c.capacity {
        assert SlotOk(c, s, v, k);
      }
      assert HolderOk(c, s, v, k);
      assert ProducerOk(c, s, v, v.holder[k]);
    }
  }

  lemma WithinLap(c: Config, s: State, v: View)
    requires IdealConfig(c) && Inv(c, s, v)
    ensures s.popped <= AcceptedOrder(s) && |AcceptedOrder(s)| <= |s.popped| + c.capacity
    ensures OwnOrder(AcceptedOrder(s))
  {
    PoppedIsPrefix(s.popped, s.line, s.accepted);
    forall k | s.readPos + c.capacity <= k < |s.line|
      ensures s.line[k].item !in s.accepted
    {
      NotAcceptedYet(c, s, v, k);
    }
    AcceptedBound(s.line, s.accepted, s.readPos + c.capacity);
    AcceptedOwnOrder(s.line, s.accepted);
  }

  /**
   At every point of every clean run (`rest` is still to come): what has been popped is a prefix of
   what has been accepted, in ticket order, that list is complete, and each item carries the data of its
   push; at most capacity accepted items are waiting; each producer's items keep their order; each slot has one owner.
   */
  lemma Fifo(c: Config, s0: State, steps: seq<Step>, rest: seq<Step>)
    requires WordConfig(c) && IsInit(c, s0) && Clean(c, s0, steps + rest)
    ensures var s := Exec(c, s0, steps);
      && s.popped <= AcceptedOrder(s) && AllListed(s)
      && (forall x :: x in s.accepted ==> Genuine(c, s0, steps, x))
      && |AcceptedOrder(s)| <= |s.popped| + c.capacity
      && OwnOrder(AcceptedOrder(s))
      && OneOwner(c, s)
  {
    var s, v := PrefixFromInit(c, s0, steps, rest);
    AcceptedWraps(s.line, s.accepted);
    WithinLap(Ideal(c), s, v);
    AcceptedAreListed(c, s0, steps);
    AcceptedAreGenuine(c, s0, steps);
    IdealOwner(Ideal(c), s, v);
    OwnerWraps(c, s);
  }

  /** No push is under way. */
  ghost predicate NoPush(c: Config, s: State)
    requires WellFormed(c, s)
  {
    forall p :: 0 <= p < c.producers ==> s.producers[p].Idle?
  }

  /** No push or pop is under way. */
  ghost predicate Quiescent(c: Config, s: State)
    requires WellFormed(c, s)
  {
    NoPush(c, s) && s.consumer.Ready?
  }

  /** One whole call of Pop; on an empty queue it stops after the second step. */
  const POP_CALL: seq<Step> := [PopLoadReadPos, PopLoadSeq, PopCopyOut, PopReleaseSlot, PopAdvance]

  function PopCalls(n: nat): seq<Step> {
    if n == 0 then [] else POP_CALL + PopCalls(n - 1)
  }

  /** With no push under way, every position not yet popped is ready and accepted. */
  lemma QuiescentSlots(c: Config, s: State, v: View)
    requires IdealConfig(c) && Inv(c, s, v) && v.doomed == {} && NoPush(c, s) && !s.consumer.Advancing?
    ensures forall k :: 0 <= k < |s.line| ==> s.line[k].item in s.accepted
    ensures s.readPos <= |s.line|
    ensures s.seqs[Slot(c, s.readPos)] == s.readPos + 1 <==> s.readPos < |s.line|
    ensures s.readPos < |s.line| ==> s.buffer[Slot(c, s.readPos)] == s.line[s.readPos].item
  {
    TailIsDoomed(c, s, v);
    assert v.holder == map[] by {
      assert forall k :: k in v.holder ==> HolderOk(c, s, v, k);
    }
    assert SlotOk(c, s, v, s.readPos);
    forall k | s.readPos <= k < |s.line|
      ensures s.line[k].item in s.accepted
    {
      assert k in v.holder || SlotOk(c, s, v, k);
    }
  }

  /** The effect of one whole call of Pop that nothing interrupts. */
  function PopOnce(c: Config, s: State): (s': State)
    requires WellFormed(c, s)
    ensures WellFormed(c, s')
  {
    var i := Slot(c, s.readPos);
    if s.seqs[i] == Norm(c, s.readPos + 1) then
      s.(readPos := Norm(c, s.readPos + 1),
         seqs := s.seqs[i := Norm(c, s.readPos + c.capacity)],
         popped := s.popped + [s.buffer[i]])
    else s
  }

  function PopMany(c: Config, s: State, n: nat): (s': State)
    requires WellFormed(c, s)
    ensures WellFormed(c, s')
    decreases n
  {
    if n == 0 then s else PopMany(c, PopOnce(c, s), n - 1)
  }

  lemma PopStates(c: Config, s: State) returns (s1: State, s2: State, s3: State, s4: State)
    requires WellFormed(c, s) && s.consumer.Ready?
    ensures WellFormed(c, s1) && WellFormed(c, s2) && WellFormed(c, s3) && WellFormed(c, s4)
    ensures Leads(c, s, PopLoadReadPos, s1) && Leads(c, s1, PopLoadSeq, s2) && Leads(c, s2, PopCopyOut, s3)
    ensures Leads(c, s3, PopReleaseSlot, s4) && Leads(c, s4, PopAdvance, PopOnce(c, s))
  {
    var i, r := Slot(c, s.readPos), s.readPos;
    s1 := s.(consumer := AtSlot(r));
    if s.seqs[i] == Norm(c, r + 1) {
      s2 := s.(consumer := Draining(r));
      s3 := s.(consumer := Releasing(r, s.buffer[i]));
      s4 := s.(seqs := s.seqs[i := Norm(c, r + c.capacity)], consumer := Advancing(r, s.buffer[i]));
    } else {
      s2, s3, s4 := s, s, s;
    }
  }

  lemma PopCallRuns(c: Config, s: State)
    requires WellFormed(c, s) && s.consumer.Ready?
    ensures Exec(c, s, POP_CALL) == PopOnce(c, s)
  {
    var s1, s2, s3, s4 := PopStates(c, s);
    ExecFive(c, [s, s1, s2, s3, s4, PopOnce(c, s)], PopLoadReadPos, PopLoadSeq, PopCopyOut, PopReleaseSlot, PopAdvance);
  }

  lemma {:induction false} PopCallsRun(c: Config, s: State, n: nat)
    requires WellFormed(c, s) && s.consumer.Ready?
    ensures Exec(c, s, PopCalls(n)) == PopMany(c, s, n)
    decreases n
  {
    if n > 0 {
      PopCallRuns(c, s);
      ExecAppend(c, s, POP_CALL, PopCalls(n - 1));
      PopCallsRun(c, PopOnce(c, s), n - 1);
    }
  }

  predicate OnlyPops(steps: seq<Step>) {
    forall i :: 0 <= i < |steps| ==> !steps[i].FetchAdd? && !steps[i].LoadReadPos?
  }

  lemma {:induction false} PopsAreClean(c: Config, s: State, steps: seq<Step>)
    requires WellFormed(c, s) && OnlyPops(steps)
    ensures Clean(c, s, steps)
    ensures Doomed(c, s, steps) == {}
    decreases |steps|
  {
    if steps != [] {
      PopsAreClean(c, Next(c, s, steps[0]), steps[1..]);
      forall p | 0 <= p < c.producers
        ensures !TurnedAway(c, s, steps, p)
      {
        assert p !in Doomed(c, Next(c, s, steps[0]), steps[1..]);
      }
    }
  }

  lemma {:induction false} PopCallsPop(n: nat)
    ensures OnlyPops(PopCalls(n))
  {
    if n > 0 {
      PopCallsPop(n - 1);
    }
  }

  ghost predicate Settled(c: Config, s: State, v: View) {
    Inv(Ideal(c), s, v) && v.doomed == {} && Quiescent(c, s)
  }

  lemma OnePop(c: Config, s: State, v: View) returns (v': View)
    requires WordConfig(c) && Settled(c, s, v)
    ensures Settled(c, PopOnce(Ideal(c), s), v')
    ensures PopOnce(Ideal(c), s).readPos == if s.readPos < |s.line| then s.readPos + 1 else s.readPos
    ensures s.readPos <= |s.line| && PopOnce(Ideal(c), s).line == s.line && PopOnce(Ideal(c), s).accepted == s.accepted
  {
    QuiescentSlots(Ideal(c), s, v);
    PopCallRuns(Ideal(c), s);
    PopsAreClean(c, Wrap(s), POP_CALL);
    v' := CleanRun(c, s, v, POP_CALL);
  }

  /** n calls of Pop on a quiescent queue deliver the next n items, or all there are. */
  lemma {:induction false} IdealDrain(c: Config, s: State, v: View, n: nat) returns (v': View)
    requires WordConfig(c) && Settled(c, s, v)
    ensures Settled(c, PopMany(Ideal(c), s, n), v')
    ensures var s' := PopMany(Ideal(c), s, n);
      && s'.line == s.line && s'.accepted == s.accepted
      && s'.readPos == if s.readPos + n <= |s.line| then s.readPos + n else |s.line|
    decreases n
  {
    if n == 0 {
      v' := v;
    } else {
      var u := OnePop(c, s, v);
      var t := PopOnce(Ideal(c), s);
      v' := IdealDrain(c, t, u, n - 1);
      assert PopMany(Ideal(c), s, n) == PopMany(Ideal(c), t, n - 1);
    }
  }

  lemma {:induction false} AllAccepted(items: seq<Item>, line: seq<Claim>, accepted: set<Item>)
    requires |items| == |line|
    requires forall k :: 0 <= k < |line| ==> items[k] == line[k].item && line[k].item in accepted
    ensures AcceptedIn(line, accepted) == items
  {
    if line != [] {
      AllAccepted(items[1..], line[1..], accepted);
      assert items == [items[0]] + items[1..];
    }
  }

  lemma SettledItems(c: Config, s: State, v: View)
    requires WordConfig(c) && Settled(c, s, v)
    ensures |AcceptedOrder(s)| == |s.line| && s.popped <= AcceptedOrder(s)
    ensures AcceptedOrder(Wrap(s)) == AcceptedOrder(s)
  {
    QuiescentSlots(Ideal(c), s, v);
    AcceptedWraps(s.line, s.accepted);
    var items := seq(|s.line|, k requires 0 <= k < |s.line| => s.line[k].item);
    AllAccepted(items, s.line, s.accepted);
    PoppedIsPrefix(s.popped, s.line, s.accepted);
  }

  lemma QuiescentUnwraps(c: Config, s: State)
    requires WellFormed(c, s) && Quiescent(c, Wrap(s))
    ensures Quiescent(c, s)
  {
    NoPushUnwraps(c, s);
  }

  /** With no push under way, none is about to be turned away. */
  lemma NoPushNoDoom(c: Config, s: State, rest: seq<Step>)
    requires WellFormed(c, s) && NoPush(c, s)
    ensures Doomed(c, s, rest) == {}
  {
    forall p | 0 <= p < c.producers
      ensures !TurnedAway(c, s, rest, p)
    {
      assert s.producers[p].Idle?;
    }
  }

  /**
   Nothing is lost: whenever no push is under way, enough calls of Pop deliver every accepted item,
   exactly once and in ticket order, and further calls find the queue empty.
   */
  lemma DrainDeliversAll(c: Config, s0: State, steps: seq<Step>, rest: seq<Step>, n: nat)
    requires WordConfig(c) && IsInit(c, s0) && Clean(c, s0, steps + rest)
    requires Quiescent(c, Exec(c, s0, steps))
    requires |AcceptedOrder(Exec(c, s0, steps))| <= |Exec(c, s0, steps).popped| + n
    ensures AllListed(Exec(c, s0, steps))
    ensures Exec(c, Exec(c, s0, steps), PopCalls(n)).popped == AcceptedOrder(Exec(c, s0, steps))
  {
    AcceptedAreListed(c, s0, steps);
    var s, v := PrefixFromInit(c, s0, steps, rest);
    NoPushNoDoom(c, Wrap(s), rest);
    QuiescentUnwraps(c, s);
    DrainSettled(c, s, v, n);
  }

  lemma DrainSettled(c: Config, s: State, v: View, n: nat)
    requires WordConfig(c) && Settled(c, s, v)
    requires |AcceptedOrder(Wrap(s))| <= |s.popped| + n
    ensures Exec(c, Wrap(s), PopCalls(n)).popped == AcceptedOrder(Wrap(s))
  {
    SettledItems(c, s, v);
    PopCallsPop(n);
    PopsAreClean(c, Wrap(s), PopCalls(n));
    var u := CleanRun(c, s, v, PopCalls(n));
    PopCallsRun(Ideal(c), s, n);
    var w := IdealDrain(c, s, v, n);
    SettledItems(c, PopMany(Ideal(c), s, n), w);
  }

  lemma NoPushUnwraps(c: Config, s: State)
    requires WellFormed(c, s) && NoPush(c, Wrap(s))
    ensures NoPush(c, s)
  {
    forall p | 0 <= p < c.producers
      ensures s.producers[p].Idle?
    {
      assert Wrap(s).producers[p].Idle?;
    }
  }

  lemma EmptyIdeal(c: Config, s: State, v: View)
    requires WordConfig(c) && Inv(Ideal(c), s, v) && v.doomed == {} && NoPush(c, s)
    requires s.consumer.AtSlot? && Next(c, Wrap(s), PopLoadSeq).consumer.Ready?
    ensures s.readPos == |s.line|
  {
    StepWraps(c, s, v, PopLoadSeq);
    QuiescentSlots(Ideal(c), s, v);
    assert Next(Ideal(c), s, PopLoadSeq).consumer.Ready?;
  }

  /** With no push under way, a pop that finds its slot not ready means that all was delivered. */
  lemma EmptyMeansDrained(c: Config, s0: State, steps: seq<Step>, rest: seq<Step>)
    requires WordConfig(c) && IsInit(c, s0) && Clean(c, s0, steps + rest)
    requires var s := Exec(c, s0, steps);
      NoPush(c, s) && s.consumer.AtSlot? && Next(c, s, PopLoadSeq).consumer.Ready?
    ensures var s := Exec(c, s0, steps);
      s.popped == AcceptedOrder(s) && AllListed(s)
  {
    AcceptedAreListed(c, s0, steps);
    var s, v := PrefixFromInit(c, s0, steps, rest);
    NoPushNoDoom(c, Wrap(s), rest);
    NoPushUnwraps(c, s);
    EmptyIdeal(c, s, v);
    AcceptedWraps(s.line, s.accepted);
    PoppedIsPrefix(s.popped, s.line, s.accepted);
    AcceptedBound(s.line, s.accepted, |s.line|);
  }

  predicate InWindow(x: Producer) {
    x.Reserved? || x.RollingBack?
  }

  /** Under the serialised discipline at most one window is open, and its ticket was the last drawn. */
  ghost predicate OneWindow(c: Config, s: State)
    requires WellFormed(c, s)
  {
    && (forall p, q :: 0 <= p < q < c.producers && InWindow(s.producers[p]) ==> !InWindow(s.producers[q]))
    && (forall p :: 0 <= p < c.producers && s.producers[p].Reserved? ==>
          s.writePos == Norm(c, s.producers[p].claim.ticket + 1))
  }

  /** A step of producer p leaves the others alone, and only its first step opens a window. */
  lemma WindowFrame(c: Config, s: State, step: Step, q: nat)
    requires WellFormed(c, s) && q < c.producers && !Reserves(c, s, step)
    ensures var s' := Next(c, s, step);
      && (InWindow(s'.producers[q]) ==> InWindow(s.producers[q]))
      && (s'.producers[q].Reserved? ==> s'.producers[q] == s.producers[q])
  {
  }

  lemma OneWindowStep(c: Config, s: State, step: Step)
    requires WellFormed(c, s) && OneWindow(c, s)
    requires Reserves(c, s, step) ==> forall q :: 0 <= q < c.producers ==> !InWindow(s.producers[q])
    ensures OneWindow(c, Next(c, s, step))
  {
    var s' := Next(c, s, step);
    if Reserves(c, s, step) {
      assert forall q :: 0 <= q < c.producers && q != step.p ==> s'.producers[q] == s.producers[q];
    } else {
      forall q | 0 <= q < c.producers
        ensures InWindow(s'.producers[q]) ==> InWindow(s.producers[q])
        ensures s'.producers[q].Reserved? ==> s'.producers[q] == s.producers[q] && s'.writePos == s.writePos
      {
        WindowFrame(c, s, step, q);
        if step.FetchSub? && step.p < c.producers && s.producers[step.p].RollingBack? {
          assert InWindow(s.producers[step.p]) && (q != step.p ==> !InWindow(s.producers[q]));
        }
      }
    }
  }

  lemma {:induction false} OneWindowRun(c: Config, s: State, steps: seq<Step>)
    requires WellFormed(c, s) && OneWindow(c, s) && Serialised(c, s, steps)
    ensures OneWindow(c, Exec(c, s, steps))
    decreases |steps|
  {
    if steps != [] {
      OneWindowStep(c, s, steps[0]);
      OneWindowRun(c, Next(c, s, steps[0]), steps[1..]);
    }
  }

  lemma {:induction false} SerialisedThenLoad(c: Config, s: State, steps: seq<Step>, p: nat)
    requires WellFormed(c, s) && Serialised(c, s, steps)
    ensures Serialised(c, s, steps + [LoadReadPos(p)])
    decreases |steps|
  {
    var all := steps + [LoadReadPos(p)];
    if steps == [] {
      assert all[1..] == [];
    } else {
      assert all[0] == steps[0] && all[1..] == steps[1..] + [LoadReadPos(p)];
      SerialisedThenLoad(c, Next(c, s, steps[0]), steps[1..], p);
    }
  }

  lemma OnlyWindow(c: Config, s: State, v: View, p: nat)
    requires WellFormed(c, s) && Counters(c, s, v) && OneWindow(c, Wrap(s))
    requires p < c.producers && s.producers[p].Reserved? && v.doomed <= {p}
    ensures s.writePos == v.kept + |v.doomed|
  {
    var failing := FailingWindows(c, s, v.doomed);
    forall q | 0 <= q < c.producers && q != p
      ensures q !in failing
    {
      assert InWindow(Wrap(s).producers[p]) && InWindow(s.producers[q]) ==> InWindow(Wrap(s).producers[q]);
    }
    if p in v.doomed {
      assert failing == {p} == v.doomed;
    } else {
      assert failing == {} == v.doomed;
    }
  }

  lemma TwoInTail(c: Config, s: State, v: View)
    requires WellFormed(c, s) && Tail(c, s, v) && Order(c, s) && v.kept + 1 < |s.line|
    ensures exists q, r :: q in v.doomed && r in v.doomed && q != r
  {
    var a, b := s.line[v.kept], s.line[v.kept + 1];
    assert a.item.producer in v.doomed && b.item.producer in v.doomed;
    assert a.item.producer != b.item.producer;
  }

  lemma TailCount(c: Config, s: State, v: View, p: nat)
    requires WellFormed(c, s) && Tail(c, s, v) && Order(c, s) && v.kept <= |s.line| && v.doomed <= {p}
    requires p in v.doomed ==> v.kept < |s.line|
    ensures |s.line| == v.kept + |v.doomed|
  {
    assert v.doomed == {p} || v.doomed == {};
    if v.kept + 1 < |s.line| {
      TwoInTail(c, s, v);
    }
    TailIsDoomed(c, s, v);
  }

  lemma PendingPlace(c: Config, s: State, v: View, p: nat)
    requires IdealConfig(c) && Inv(c, s, v) && p < c.producers && s.producers[p].Reserved?
    ensures v.kept <= |s.line| && (p in v.doomed ==> v.kept < |s.line|)
    ensures s.readPos <= s.producers[p].claim.ticket <= s.readPos + c.capacity + c.producers
    ensures s.readPos <= v.kept <= s.readPos + 1 + c.capacity + c.producers
    ensures if p in v.doomed then s.producers[p].claim.ticket >= v.kept else s.producers[p].claim.ticket < v.kept
  {
    assert ProducerOk(c, s, v, p);
    WaitingBound(c, s, v);
    Below(c.producers, Waiting(c, s, v));
    if p in v.doomed {
      var i :| 0 <= i < |s.line| && s.line[i] == s.producers[p].claim;
      assert i >= v.kept;
    }
  }

  /** Under the serialised discipline the pending ticket counts the other reservations in line. */
  lemma TicketIsCount(c: Config, s: State, v: View, p: nat)
    requires WordConfig(c) && Inv(Ideal(c), s, v) && OneWindow(c, Wrap(s))
    requires p < c.producers && s.producers[p].Reserved? && v.doomed <= {p}
    ensures s.producers[p].claim.ticket == |s.line| - 1
  {
    var t := s.producers[p].claim.ticket;
    OnlyWindow(c, s, v, p);
    PendingPlace(Ideal(c), s, v, p);
    TailCount(c, s, v, p);
    assert Wrap(s).producers[p].Reserved?;
    assert v.doomed == {p} || v.doomed == {};
    SameResidue(s.writePos, t);
  }

  lemma SameResidue(a: nat, t: nat)
    requires a % WORD == (t % WORD + 1) % WORD && a < t + 1 + WORD && t + 1 < a + WORD
    ensures a == t + 1
  {
  }

  /**
   Under the serialised discipline QUEUE_FULL is exact: a push is turned away if and only if at its
   load of readPos at least capacity other reservations, none of them turned away, were not yet popped.
   */
  lemma FullIffCapacityOutstanding(c: Config, s0: State, steps: seq<Step>, p: nat)
    requires WordConfig(c) && IsInit(c, s0) && Serialised(c, s0, steps)
    requires p < c.producers && Exec(c, s0, steps).producers[p].Reserved?
    ensures var s := Exec(c, s0, steps);
      IsFull(c, s, p) <==> |s.line| - 1 >= |s.popped| + c.capacity
  {
    OneWindowRun(c, s0, steps);
    SerialisedThenLoad(c, s0, steps, p);
    SerialisedIsClean(c, s0, steps + [LoadReadPos(p)]);
    var s, v := PrefixFromInit(c, s0, steps, [LoadReadPos(p)]);
    assert v.doomed <= {p} by {
      forall q | 0 <= q < c.producers && TurnedAway(c, Wrap(s), [LoadReadPos(p)], q)
        ensures q == p
      {
      }
    }
    TicketIsCount(c, s, v, p);
    FullTestWraps(c, s, v, p);
    assert ProducerOk(Ideal(c), s, v, p);
  }
}
