/**
 Calls that nothing interrupts, at any point of a clean run: the step relation then behaves like the
 queue it implements.
 */
module MpscCalls {
  import opened Words
  import opened MpscProtocol
  import opened MpscInvariant
  import opened MpscWrap
  import opened MpscAccepted
  import opened MpscFifo

  /** One whole call of Push that is accepted, and one that is turned away. */
  function PushCall(p: nat, data: seq<byte>): seq<Step> {
    [FetchAdd(p, data), LoadReadPos(p), CompareExchange(p, false), CopyIn(p), Publish(p)]
  }

  function RejectedCall(p: nat, data: seq<byte>): seq<Step> {
    [FetchAdd(p, data), LoadReadPos(p), FetchSub(p)]
  }

  lemma QuietCounters(c: Config, s: State, v: View)
    requires IdealConfig(c) && Settled(c.(wraps := true), s, v)
    ensures s.writePos == |s.line| == v.kept && s.readPos == |s.popped| <= |s.line|
    ensures |s.line| < s.readPos + c.capacity ==> s.seqs[Slot(c, |s.line|)] == |s.line|
  {
    assert NoFailingWindow(c, s, v.doomed);
    NothingDoomed(c, s, v);
    assert v.holder == map[] by {
      assert forall k :: k in v.holder ==> HolderOk(c, s, v, k);
    }
    if |s.line| < s.readPos + c.capacity {
      assert SlotOk(c, s, v, |s.line|);
    }
  }

  /** The state after an accepted push that nothing interrupts. */
  function PushedState(c: Config, s: State, p: nat, data: seq<byte>): State
    requires WellFormed(c, s) && p < c.producers
  {
    var k, x := |s.line|, Item(p, s.serials[p], data);
    s.(writePos := k + 1, seqs := s.seqs[Slot(c, k) := k + 1], buffer := s.buffer[Slot(c, k) := x],
       serials := s.serials[p := s.serials[p] + 1], line := s.line + [Claim(x, k)], accepted := s.accepted + {x})
  }

  lemma PushFirstSteps(c: Config, s: State, p: nat, data: seq<byte>, x: Claim) returns (s1: State, s2: State)
    requires !c.wraps && WellFormed(c, s) && p < c.producers && s.producers[p].Idle?
    requires x == Claim(Item(p, s.serials[p], data), s.writePos)
    requires s.readPos <= s.writePos < s.readPos + c.capacity
    ensures WellFormed(c, s1) && Leads(c, s, FetchAdd(p, data), s1)
    ensures WellFormed(c, s2) && Leads(c, s1, LoadReadPos(p), s2)
    ensures s2 == s.(writePos := s.writePos + 1, producers := s.producers[p := Claiming(x)],
                     serials := s.serials[p := s.serials[p] + 1], line := s.line + [x], accepted := s.accepted + {x.item})
  {
    s1 := s.(writePos := s.writePos + 1, producers := s.producers[p := Reserved(x)],
             serials := s.serials[p := s.serials[p] + 1], line := s.line + [x]);
    s2 := s1.(producers := s1.producers[p := Claiming(x)], accepted := s1.accepted + {x.item});
    assert s1.producers[p := Claiming(x)] == s.producers[p := Claiming(x)];
  }

  lemma PushLastSteps(c: Config, s2: State, p: nat, x: Claim) returns (s3: State, s4: State, s5: State)
    requires !c.wraps && WellFormed(c, s2) && p < c.producers && s2.producers[p] == Claiming(x)
    requires s2.seqs[Slot(c, x.ticket)] == x.ticket
    ensures WellFormed(c, s3) && Leads(c, s2, CompareExchange(p, false), s3)
    ensures WellFormed(c, s4) && Leads(c, s3, CopyIn(p), s4)
    ensures WellFormed(c, s5) && Leads(c, s4, Publish(p), s5)
    ensures s5 == s2.(seqs := s2.seqs[Slot(c, x.ticket) := x.ticket + 1],
                      buffer := s2.buffer[Slot(c, x.ticket) := x.item], producers := s2.producers[p := Idle])
  {
    var i := Slot(c, x.ticket);
    s3 := s2.(seqs := s2.seqs[i := x.ticket + c.capacity], producers := s2.producers[p := Copying(x)]);
    s4 := s3.(buffer := s3.buffer[i := x.item], producers := s3.producers[p := Publishing(x)]);
    s5 := s4.(seqs := s4.seqs[i := x.ticket + 1], producers := s4.producers[p := Idle]);
    assert s4.seqs[i := x.ticket + 1] == s2.seqs[i := x.ticket + 1];
    assert s4.producers[p := Idle] == s2.producers[p := Idle];
  }

  lemma IdealPush(c: Config, s: State, p: nat, data: seq<byte>)
    requires !c.wraps && WellFormed(c, s) && p < c.producers && s.producers[p].Idle?
    requires s.writePos == |s.line| && s.readPos <= s.writePos < s.readPos + c.capacity
    requires s.seqs[Slot(c, s.writePos)] == s.writePos
    ensures Exec(c, s, PushCall(p, data)) == PushedState(c, s, p, data)
  {
    var x := Claim(Item(p, s.serials[p], data), s.writePos);
    var s1, s2 := PushFirstSteps(c, s, p, data, x);
    var s3, s4, s5 := PushLastSteps(c, s2, p, x);
    ExecFive(c, [s, s1, s2, s3, s4, s5], FetchAdd(p, data), LoadReadPos(p), CompareExchange(p, false), CopyIn(p), Publish(p));
    assert s2.producers[p := Idle] == s.producers;
  }

  /** A call whose only reservation comes first, with no window open. */
  lemma CallIsClean(c: Config, s: State, call: seq<Step>)
    requires WellFormed(c, s) && NoPush(c, s) && call != []
    requires forall i :: 1 <= i < |call| ==> !call[i].FetchAdd?
    ensures Clean(c, s, call) && Doomed(c, s, call) == {}
  {
    NoReservationIsSerialised(c, Next(c, s, call[0]), call[1..]);
    assert forall q :: 0 <= q < c.producers ==> s.producers[q].Idle?;
    SerialisedIsClean(c, s, call);
    NoPushNoDoom(c, s, call);
  }

  lemma {:induction false} NoReservationIsSerialised(c: Config, s: State, steps: seq<Step>)
    requires WellFormed(c, s) && forall i :: 0 <= i < |steps| ==> !steps[i].FetchAdd?
    ensures Serialised(c, s, steps)
    decreases |steps|
  {
    if steps != [] {
      NoReservationIsSerialised(c, Next(c, s, steps[0]), steps[1..]);
    }
  }

  lemma NoPushWraps(c: Config, s: State)
    requires WellFormed(c, s) && NoPush(c, s)
    ensures NoPush(c, Wrap(s))
  {
  }

  lemma {:induction false} AcceptedUnaware(line: seq<Claim>, accepted: set<Item>, x: Item)
    requires !InLine(line, x)
    ensures AcceptedIn(line, accepted + {x}) == AcceptedIn(line, accepted)
  {
    if line != [] {
      AcceptedUnaware(line[1..], accepted, x);
    }
  }

  lemma {:induction false} AcceptedThen(line: seq<Claim>, accepted: set<Item>, x: Claim)
    requires x.item in accepted
    ensures AcceptedIn(line + [x], accepted) == AcceptedIn(line, accepted) + [x.item]
  {
    if line == [] {
      assert line + [x] == [x] && [x][1..] == [];
    } else {
      var first := if line[0].item in accepted then [line[0].item] else [];
      assert (line + [x])[1..] == line[1..] + [x];
      AcceptedThen(line[1..], accepted, x);
      assert first + (AcceptedIn(line[1..], accepted) + [x.item]) == (first + AcceptedIn(line[1..], accepted)) + [x.item];
    }
  }

  lemma AcceptedMore(line: seq<Claim>, accepted: set<Item>, x: Claim)
    requires !InLine(line, x.item)
    ensures AcceptedIn(line + [x], accepted + {x.item}) == AcceptedIn(line, accepted) + [x.item]
  {
    AcceptedUnaware(line, accepted, x.item);
    AcceptedThen(line, accepted + {x.item}, x);
  }

  lemma NewItem(c: Config, s: State, p: nat, data: seq<byte>)
    requires WellFormed(c, s) && Order(c, s) && p < c.producers
    ensures !InLine(s.line, Item(p, s.serials[p], data))
  {
    var x := Item(p, s.serials[p], data);
    if InLine(s.line, x) {
      var i := FindInLine(s.line, x);
    }
  }

  /** In a settled state: a push is accepted and comes last if fewer than capacity elements wait. */
  lemma SettledPush(c: Config, s: State, v: View, p: nat, data: seq<byte>)
    requires WordConfig(c) && Settled(c, s, v) && p < c.producers && |s.line| < |s.popped| + c.capacity
    ensures var t := Exec(c, Wrap(s), PushCall(p, data));
      && AcceptedOrder(t) == AcceptedOrder(Wrap(s)) + [Item(p, s.serials[p], data)]
      && t.popped == s.popped && Quiescent(c, t)
  {
    QuietCounters(Ideal(c), s, v);
    IdealPush(Ideal(c), s, p, data);
    NoPushWraps(c, s);
    CallIsClean(c, Wrap(s), PushCall(p, data));
    var u := CleanRun(c, s, v, PushCall(p, data));
    var t := PushedState(Ideal(c), s, p, data);
    NoPushWraps(c, t);
    NewItem(Ideal(c), s, p, data);
    AcceptedMore(s.line, s.accepted, Claim(Item(p, s.serials[p], data), |s.line|));
    AcceptedWraps(s.line, s.accepted);
    AcceptedWraps(t.line, t.accepted);
  }

  lemma RejectSteps(c: Config, s: State, p: nat, data: seq<byte>, x: Claim) returns (s1: State, s2: State)
    requires !c.wraps && WellFormed(c, s) && p < c.producers && s.producers[p].Idle?
    requires x == Claim(Item(p, s.serials[p], data), s.writePos) && !InLine(s.line, x.item)
    requires s.readPos + c.capacity <= s.writePos
    ensures WellFormed(c, s1) && Leads(c, s, FetchAdd(p, data), s1)
    ensures WellFormed(c, s2) && Leads(c, s1, LoadReadPos(p), s2)
    ensures Leads(c, s2, FetchSub(p), s.(serials := s.serials[p := s.serials[p] + 1]))
  {
    s1 := s.(writePos := s.writePos + 1, producers := s.producers[p := Reserved(x)],
             serials := s.serials[p := s.serials[p] + 1], line := s.line + [x]);
    RemoveLast(s.line, x);
    s2 := s1.(producers := s1.producers[p := RollingBack(x)], line := s.line);
    assert s2.producers[p := Idle] == s.producers;
  }

  /** Otherwise it is turned away and leaves memory as it was. */
  lemma IdealReject(c: Config, s: State, p: nat, data: seq<byte>)
    requires !c.wraps && WellFormed(c, s) && Order(c, s) && p < c.producers && s.producers[p].Idle?
    requires s.readPos + c.capacity <= s.writePos
    ensures Exec(c, s, RejectedCall(p, data)) == s.(serials := s.serials[p := s.serials[p] + 1])
  {
    var x := Claim(Item(p, s.serials[p], data), s.writePos);
    NewItem(c, s, p, data);
    var s1, s2 := RejectSteps(c, s, p, data, x);
    var s3 := s.(serials := s.serials[p := s.serials[p] + 1]);
    ExecThree(c, s, s1, s2, s3, FetchAdd(p, data), LoadReadPos(p), FetchSub(p), []);
    assert [FetchAdd(p, data)] + ([LoadReadPos(p), FetchSub(p)] + []) == RejectedCall(p, data);
  }

  lemma {:induction false} RemoveLast(line: seq<Claim>, x: Claim)
    requires !InLine(line, x.item)
    ensures Remove(line + [x], x) == line
  {
    if line == [] {
      assert [x][1..] == [];
    } else {
      assert (line + [x])[1..] == line[1..] + [x];
      RemoveLast(line[1..], x);
      assert line == [line[0]] + line[1..];
    }
  }

  lemma SettledReject(c: Config, s: State, v: View, p: nat, data: seq<byte>)
    requires WordConfig(c) && Settled(c, s, v) && p < c.producers && |s.line| >= |s.popped| + c.capacity
    ensures Exec(c, Wrap(s), RejectedCall(p, data)) == Wrap(s).(serials := s.serials[p := s.serials[p] + 1])
  {
    QuietCounters(Ideal(c), s, v);
    IdealReject(Ideal(c), s, p, data);
    NoPushWraps(c, s);
    CallIsClean(c, Wrap(s), RejectedCall(p, data));
    var u := CleanRun(c, s, v, RejectedCall(p, data));
  }

  /** What a whole push does to a queue that nobody is inside. */
  ghost predicate PushesAtEnd(c: Config, s: State, p: nat, data: seq<byte>)
    requires WellFormed(c, s) && p < c.producers
  {
    if |AcceptedOrder(s)| < |s.popped| + c.capacity then
      var t := Exec(c, s, PushCall(p, data));
      AcceptedOrder(t) == AcceptedOrder(s) + [Item(p, s.serials[p], data)] && t.popped == s.popped && Quiescent(c, t)
    else
      Exec(c, s, RejectedCall(p, data)) == s.(serials := s.serials[p := s.serials[p] + 1])
  }

  lemma SettledCall(c: Config, s: State, v: View, p: nat, data: seq<byte>)
    requires WordConfig(c) && Settled(c, s, v) && p < c.producers
    ensures PushesAtEnd(c, Wrap(s), p, data)
  {
    SettledItems(c, s, v);
    if |s.line| < |s.popped| + c.capacity {
      SettledPush(c, s, v, p, data);
    } else {
      SettledReject(c, s, v, p, data);
    }
  }

  /**
   At any point of a clean run where nobody is inside: a push of any producer is accepted, and its
   element becomes the last one, if and only if fewer than capacity elements are waiting; otherwise it
   leaves the queue as it was.
   */
  lemma UncontendedPush(c: Config, s0: State, steps: seq<Step>, rest: seq<Step>, p: nat, data: seq<byte>)
    requires WordConfig(c) && IsInit(c, s0) && Clean(c, s0, steps + rest) && p < c.producers
    requires Quiescent(c, Exec(c, s0, steps))
    ensures PushesAtEnd(c, Exec(c, s0, steps), p, data)
  {
    var s, v := PrefixFromInit(c, s0, steps, rest);
    NoPushNoDoom(c, Wrap(s), rest);
    QuiescentUnwraps(c, s);
    SettledCall(c, s, v, p, data);
  }

  /** And a pop returns the element that has waited longest, or nothing when none waits. */
  lemma UncontendedPop(c: Config, s0: State, steps: seq<Step>, rest: seq<Step>)
    requires WordConfig(c) && IsInit(c, s0) && Clean(c, s0, steps + rest)
    requires Quiescent(c, Exec(c, s0, steps))
    ensures var s := Exec(c, s0, steps);
      var t, n := Exec(c, s, POP_CALL), |s.popped|;
      && n <= |AcceptedOrder(s)| && AcceptedOrder(t) == AcceptedOrder(s) && Quiescent(c, t)
      && t.popped == s.popped + if n < |AcceptedOrder(s)| then [AcceptedOrder(s)[n]] else []
  {
    var s, v := PrefixFromInit(c, s0, steps, rest);
    NoPushNoDoom(c, Wrap(s), rest);
    QuiescentUnwraps(c, s);
    SettledPop(c, s, v);
  }

  lemma SettledPop(c: Config, s: State, v: View)
    requires WordConfig(c) && Settled(c, s, v)
    ensures var w := Wrap(s);
      var t, n := Exec(c, w, POP_CALL), |w.popped|;
      && n <= |AcceptedOrder(w)| && AcceptedOrder(t) == AcceptedOrder(w) && Quiescent(c, t)
      && t.popped == w.popped + if n < |AcceptedOrder(w)| then [AcceptedOrder(w)[n]] else []
  {
    SettledItems(c, s, v);
    QuietCounters(Ideal(c), s, v);
    PopCallRuns(Ideal(c), s);
    PopsAreClean(c, Wrap(s), POP_CALL);
    var u := CleanRun(c, s, v, POP_CALL);
    var t := PopOnce(Ideal(c), s);
    var x := OnePop(c, s, v);
    SettledItems(c, t, x);
    NoPushWraps(c, t);
    AcceptedWraps(s.line, s.accepted);
    AcceptedWraps(t.line, t.accepted);
    PrefixGrows(s.popped, t.popped, AcceptedOrder(s));
  }

  lemma PrefixGrows<T>(a: seq<T>, b: seq<T>, all: seq<T>)
    requires a <= all && b <= all && |a| <= |b| <= |a| + 1 && (|b| == |a| ==> |a| == |all|)
    ensures b == a + if |a| < |all| then [all[|a|]] else []
  {
  }
}
