/**
 Capacity 1, which Init accepts: there the marker of a claimed slot is also the marker of a ready one,
 so the consumer takes an element before it has been copied in.
 */
module MpscSingleSlot {
  import opened Words
  import opened MpscProtocol
  import opened MpscAccepted
  import opened MpscFifo
  import opened MpscCalls

  /** A push up to and including the claim of its slot, then a whole pop. */
  function EarlyPop(data: seq<byte>): seq<Step> {
    [FetchAdd(0, data)] + ([LoadReadPos(0), CompareExchange(0, false)] + POP_CALL)
  }

  lemma EarlyPopIsClean(c: Config, s0: State, data: seq<byte>)
    requires IsInit(c, s0)
    ensures Clean(c, s0, EarlyPop(data))
  {
    var rest := [LoadReadPos(0), CompareExchange(0, false)] + POP_CALL;
    assert EarlyPop(data)[1..] == rest;
    NoReservationIsSerialised(c, Next(c, s0, FetchAdd(0, data)), rest);
    assert forall q :: 0 <= q < c.producers ==> s0.producers[q] == Idle;
    SerialisedIsClean(c, s0, EarlyPop(data));
  }

  lemma AcceptedOne(x: Claim)
    ensures AcceptedIn([x], {x.item}) == [x.item]
  {
    assert [x][1..] == [];
  }

  /** After the claim: the one slot carries the marker 1, claimed and ready at once. */
  lemma ClaimStates(c: Config, s0: State, data: seq<byte>) returns (s1: State, s2: State, s: State)
    requires c.capacity == 1 && c.wraps && c.producers > 0 && IsInit(c, s0)
    ensures WellFormed(c, s1) && WellFormed(c, s2) && WellFormed(c, s)
    ensures Leads(c, s0, FetchAdd(0, data), s1) && Leads(c, s1, LoadReadPos(0), s2)
    ensures Leads(c, s2, CompareExchange(0, false), s)
    ensures s.consumer.Ready? && s.readPos == 0 && s.seqs == [1] && s.buffer == s0.buffer && s.popped == []
    ensures s.line == [Claim(Item(0, 0, data), 0)] && s.accepted == {Item(0, 0, data)}
  {
    var x := Claim(Item(0, 0, data), 0);
    s1 := s0.(writePos := 1, producers := s0.producers[0 := Reserved(x)], serials := s0.serials[0 := 1], line := [x]);
    s2 := s1.(producers := s1.producers[0 := Claiming(x)], accepted := {x.item});
    s := s2.(seqs := [1], producers := s2.producers[0 := Copying(x)]);
    assert Slot(c, 0) == 0;
    assert s2.seqs[0 := 1] == [1];
  }

  /** The pop returns whatever lay in the buffer before the push. */
  lemma SingleSlotPopsEarly(c: Config, s0: State, data: seq<byte>)
    requires c.capacity == 1 && c.wraps && c.producers > 0 && IsInit(c, s0)
    ensures Clean(c, s0, EarlyPop(data))
    ensures var s := Exec(c, s0, EarlyPop(data));
      s.popped == [s0.buffer[0]] && AcceptedOrder(s) == [Item(0, 0, data)]
  {
    EarlyPopIsClean(c, s0, data);
    var s1, s2, s := ClaimStates(c, s0, data);
    ExecThree(c, s0, s1, s2, s, FetchAdd(0, data), LoadReadPos(0), CompareExchange(0, false), POP_CALL);
    PopCallRuns(c, s);
    AcceptedOne(Claim(Item(0, 0, data), 0));
    assert Slot(c, 0) == 0;
  }

  /** First in, first out, at the end of every clean run. */
  ghost predicate DeliversInOrder(c: Config) {
    forall s0, steps :: IsInit(c, s0) && Clean(c, s0, steps) ==>
      Exec(c, s0, steps).popped <= AcceptedOrder(Exec(c, s0, steps))
  }

  /** Of the capacities that Init accepts, exactly those of at least 2 deliver in order. */
  lemma InOrderIffTwoSlots(c: Config)
    requires c.Accepted() && c.wraps && c.producers > 0 && c.capacity + c.producers < WORD
    ensures DeliversInOrder(c) <==> c.capacity >= 2
  {
    if c.capacity >= 2 {
      forall s0, steps | IsInit(c, s0) && Clean(c, s0, steps)
        ensures Exec(c, s0, steps).popped <= AcceptedOrder(Exec(c, s0, steps))
      {
        assert steps + [] == steps;
        Fifo(c, s0, steps, []);
      }
    } else {
      var s0 := InitState(c, Item(0, 0, [1]));
      SingleSlotPopsEarly(c, s0, []);
      var s := Exec(c, s0, EarlyPop([]));
      assert s.popped[0] != AcceptedOrder(s)[0];
      assert !(s.popped <= AcceptedOrder(s));
    }
  }
}
