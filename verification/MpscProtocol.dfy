/**
 The lock-free ring queue as a step relation: one step per atomic operation (and one per element
 copy) of `SilogMpscQueuePush` and `SilogMpscQueuePop`, for any number of producers and one consumer.
 A run is any sequence of step labels; a label whose thread is not at that operation leaves the
 state alone, so every interleaving of every program is some sequence of labels.
 */
module MpscProtocol {
  import opened Words

  /** `wraps` selects 32-bit counters (the program) or unbounded ones (the ideal queue it refines). */
  datatype Config = Config(capacity: nat, producers: nat, wraps: bool) {
    /** What `SilogMpscQueueInit` accepts. */
    predicate Accepted() {
      PowerOfTwo(capacity) && capacity < WORD
    }
  }

  /** One pushed element, identified by the pushing producer and the number of its push. */
  datatype Item = Item(producer: nat, serial: nat, data: seq<byte>)

  /** The ticket a push drew from `writePos` for its item. */
  datatype Claim = Claim(item: Item, ticket: nat)

  datatype Producer =
    | Idle
    | Reserved(claim: Claim)      // ticket drawn, readPos not yet loaded
    | RollingBack(claim: Claim)   // found the queue full, about to give the position back
    | Claiming(claim: Claim)      // at the compare-exchange loop
    | Copying(claim: Claim)       // slot claimed, copying the element in
    | Publishing(claim: Claim)    // element copied, about to mark the slot ready

  datatype Consumer =
    | Ready
    | AtSlot(pos: nat)                    // readPos loaded
    | Draining(pos: nat)                  // slot found ready, copying the element out
    | Releasing(pos: nat, item: Item)     // about to hand the slot back
    | Advancing(pos: nat, item: Item)     // about to store readPos

  /** Shared memory, the threads, and the history of the run (the last four fields). */
  datatype State = State(
    writePos: nat,
    readPos: nat,
    seqs: seq<nat>,
    buffer: seq<Item>,
    producers: seq<Producer>,
    consumer: Consumer,
    serials: seq<nat>,       // pushes begun so far, per producer
    line: seq<Claim>,        // reservations in fetch-add order, without those turned away
    accepted: set<Item>,     // pushes that passed the full test
    popped: seq<Item>)       // what Pop has returned, in order

  datatype Step =
    | FetchAdd(p: nat, data: seq<byte>)
    | LoadReadPos(p: nat)
    | FetchSub(p: nat)
    | CompareExchange(p: nat, spurious: bool)
    | CopyIn(p: nat)
    | Publish(p: nat)
    | PopLoadReadPos
    | PopLoadSeq
    | PopCopyOut
    | PopReleaseSlot
    | PopAdvance

  function Norm(c: Config, x: nat): nat {
    if c.wraps then x % WORD else x
  }

  function Decrement(c: Config, x: nat): nat {
    if x > 0 then x - 1 else if c.wraps then WORD - 1 else 0
  }

  function Slot(c: Config, t: nat): nat
    requires c.capacity > 0
  {
    And(t, c.capacity - 1)
  }

  predicate WellFormed(c: Config, s: State) {
    && c.capacity > 0
    && |s.seqs| == |s.buffer| == c.capacity
    && |s.producers| == |s.serials| == c.producers
  }

  ghost predicate IsInit(c: Config, s: State) {
    && WellFormed(c, s)
    && s.writePos == s.readPos == 0
    && (forall i :: 0 <= i < c.capacity ==> s.seqs[i] == i)
    && (forall p :: 0 <= p < c.producers ==> s.producers[p] == Idle && s.serials[p] == 0)
    && s.consumer == Ready
    && s.line == [] && s.accepted == {} && s.popped == []
  }

  /** What Init leaves when the fresh buffer holds `junk`. */
  function InitState(c: Config, junk: Item): (s: State)
    requires c.capacity > 0
    ensures IsInit(c, s) && forall i :: 0 <= i < c.capacity ==> s.buffer[i] == junk
  {
    State(0, 0, seq(c.capacity, i => i), seq(c.capacity, _ => junk), seq(c.producers, _ => Idle), Ready,
          seq(c.producers, _ => 0), [], {}, [])
  }

  /** The full test of a push that has drawn its ticket. */
  predicate IsFull(c: Config, s: State, p: nat)
    requires p < |s.producers| && s.producers[p].Reserved?
  {
    Minus(s.producers[p].claim.ticket, s.readPos) >= c.capacity
  }

  function Remove(line: seq<Claim>, x: Claim): seq<Claim> {
    if line == [] then []
    else if line[0] == x then line[1..]
    else [line[0]] + Remove(line[1..], x)
  }

  function Next(c: Config, s: State, step: Step): (s': State)
    requires WellFormed(c, s)
    ensures WellFormed(c, s')
  {
    match step
    case FetchAdd(p, data) =>
      if p < c.producers && s.producers[p].Idle? then
        var claim := Claim(Item(p, s.serials[p], data), s.writePos);
        s.(writePos := Norm(c, s.writePos + 1),
           producers := s.producers[p := Reserved(claim)],
           serials := s.serials[p := s.serials[p] + 1],
           line := s.line + [claim])
      else s
    case LoadReadPos(p) =>
      if p < c.producers && s.producers[p].Reserved? then
        var claim := s.producers[p].claim;
        if IsFull(c, s, p) then
          s.(producers := s.producers[p := RollingBack(claim)], line := Remove(s.line, claim))
        else
          s.(producers := s.producers[p := Claiming(claim)], accepted := s.accepted + {claim.item})
      else s
    case FetchSub(p) =>
      if p < c.producers && s.producers[p].RollingBack? then
        s.(writePos := Decrement(c, s.writePos), producers := s.producers[p := Idle])
      else s
    case CompareExchange(p, spurious) =>
      if p < c.producers && s.producers[p].Claiming? then
        var claim := s.producers[p].claim;
        var i := Slot(c, claim.ticket);
        var desired := Norm(c, claim.ticket + c.capacity);
        if s.seqs[i] == claim.ticket then
          if spurious then s
          else s.(seqs := s.seqs[i := desired], producers := s.producers[p := Copying(claim)])
        else if s.seqs[i] == desired then
          s.(producers := s.producers[p := Copying(claim)])
        else s
      else s
    case CopyIn(p) =>
      if p < c.producers && s.producers[p].Copying? then
        var claim := s.producers[p].claim;
        s.(buffer := s.buffer[Slot(c, claim.ticket) := claim.item],
           producers := s.producers[p := Publishing(claim)])
      else s
    case Publish(p) =>
      if p < c.producers && s.producers[p].Publishing? then
        var claim := s.producers[p].claim;
        s.(seqs := s.seqs[Slot(c, claim.ticket) := Norm(c, claim.ticket + 1)],
           producers := s.producers[p := Idle])
      else s
    case PopLoadReadPos =>
      if s.consumer.Ready? then s.(consumer := AtSlot(s.readPos)) else s
    case PopLoadSeq =>
      if s.consumer.AtSlot? then
        var pos := s.consumer.pos;
        if s.seqs[Slot(c, pos)] == Norm(c, pos + 1) then s.(consumer := Draining(pos))
        else s.(consumer := Ready)
      else s
    case PopCopyOut =>
      if s.consumer.Draining? then
        s.(consumer := Releasing(s.consumer.pos, s.buffer[Slot(c, s.consumer.pos)]))
      else s
    case PopReleaseSlot =>
      if s.consumer.Releasing? then
        var pos := s.consumer.pos;
        s.(seqs := s.seqs[Slot(c, pos) := Norm(c, pos + c.capacity)],
           consumer := Advancing(pos, s.consumer.item))
      else s
    case PopAdvance =>
      if s.consumer.Advancing? then
        s.(readPos := Norm(c, s.consumer.pos + 1),
           consumer := Ready,
           popped := s.popped + [s.consumer.item])
      else s
  }

  function Exec(c: Config, s: State, steps: seq<Step>): (s': State)
    requires WellFormed(c, s)
    ensures WellFormed(c, s')
    decreases |steps|
  {
    if steps == [] then s else Exec(c, Next(c, s, steps[0]), steps[1..])
  }

  /** Running one sequence of steps after another. */
  lemma {:induction false} ExecAppend(c: Config, s: State, a: seq<Step>, b: seq<Step>)
    requires WellFormed(c, s)
    ensures Exec(c, s, a + b) == Exec(c, Exec(c, s, a), b)
    decreases |a|
  {
    if a == [] {
      assert a + b == b;
    } else {
      assert (a + b)[1..] == a[1..] + b;
      ExecAppend(c, Next(c, s, a[0]), a[1..], b);
    }
  }

  lemma ExecCons(c: Config, s: State, a: Step, rest: seq<Step>)
    requires WellFormed(c, s)
    ensures Exec(c, s, [a] + rest) == Exec(c, Next(c, s, a), rest)
  {
    assert ([a] + rest)[1..] == rest;
  }

  ghost predicate Leads(c: Config, s: State, a: Step, s': State)
    requires WellFormed(c, s)
  {
    s' == Next(c, s, a)
  }

  /** A call of five steps that nothing interrupts. */
  lemma ExecFive(c: Config, s: seq<State>, a: Step, b: Step, d: Step, e: Step, f: Step)
    requires |s| == 6 && forall i :: 0 <= i < 6 ==> WellFormed(c, s[i])
    requires Leads(c, s[0], a, s[1]) && Leads(c, s[1], b, s[2]) && Leads(c, s[2], d, s[3])
    requires Leads(c, s[3], e, s[4]) && Leads(c, s[4], f, s[5])
    ensures Exec(c, s[0], [a, b, d, e, f]) == s[5]
  {
    ExecCons(c, s[0], a, [b, d, e, f]);
    ExecCons(c, s[1], b, [d, e, f]);
    ExecCons(c, s[2], d, [e, f]);
    ExecCons(c, s[3], e, [f]);
    ExecCons(c, s[4], f, []);
    assert [a] + [b, d, e, f] == [a, b, d, e, f];
    assert [b] + [d, e, f] == [b, d, e, f];
    assert [d] + [e, f] == [d, e, f];
    assert [e] + [f] == [e, f];
    assert [f] + [] == [f];
  }

  lemma ExecThree(c: Config, s0: State, s1: State, s2: State, s: State, x: Step, y: Step, z: Step, rest: seq<Step>)
    requires WellFormed(c, s0) && WellFormed(c, s1) && WellFormed(c, s2) && WellFormed(c, s)
    requires Leads(c, s0, x, s1) && Leads(c, s1, y, s2) && Leads(c, s2, z, s)
    ensures Exec(c, s0, [x] + ([y, z] + rest)) == Exec(c, s, rest)
  {
    ExecCons(c, s0, x, [y, z] + rest);
    assert [y, z] + rest == [y] + ([z] + rest);
    ExecCons(c, s1, y, [z] + rest);
    ExecCons(c, s2, z, rest);
  }

  /** The push that producer p has under way will be turned away in the rest of the run. */
  predicate TurnedAway(c: Config, s: State, rest: seq<Step>, p: nat)
    requires WellFormed(c, s)
    decreases |rest|
  {
    && p < c.producers && s.producers[p].Reserved? && rest != []
    && if rest[0] == LoadReadPos(p) then IsFull(c, s, p) else TurnedAway(c, Next(c, s, rest[0]), rest[1..], p)
  }

  /** Producers whose push has drawn a ticket, is still to be turned away, and has not given it back. */
  function Doomed(c: Config, s: State, rest: seq<Step>): set<nat>
    requires WellFormed(c, s)
  {
    set p | 0 <= p < c.producers && TurnedAway(c, s, rest, p)
  }

  predicate InFailingWindow(s: State, doomed: set<nat>, p: nat)
    requires p < |s.producers|
  {
    s.producers[p].RollingBack? || (s.producers[p].Reserved? && p in doomed)
  }

  predicate NoFailingWindow(c: Config, s: State, doomed: set<nat>)
    requires WellFormed(c, s)
  {
    forall p :: 0 <= p < c.producers ==> !InFailingWindow(s, doomed, p)
  }

  /** The step is a fetch-add that really takes place. */
  predicate Reserves(c: Config, s: State, step: Step)
    requires WellFormed(c, s)
  {
    step.FetchAdd? && step.p < c.producers && s.producers[step.p].Idle?
  }

  /**
   No push that is not turned away draws its ticket between the fetch-add and the fetch-sub of a push
   that is. Pushes that are turned away may overlap each other freely, and so may accepted ones.
   */
  predicate Clean(c: Config, s: State, steps: seq<Step>)
    requires WellFormed(c, s)
    decreases |steps|
  {
    steps == [] ||
    (var s' := Next(c, s, steps[0]);
     && (Reserves(c, s, steps[0]) && !TurnedAway(c, s', steps[1..], steps[0].p) ==>
           NoFailingWindow(c, s, Doomed(c, s, steps)))
     && Clean(c, s', steps[1..]))
  }

  /** The stronger discipline of one producer, or of pushes made under a mutex: one window at a time. */
  predicate Serialised(c: Config, s: State, steps: seq<Step>)
    requires WellFormed(c, s)
    decreases |steps|
  {
    steps == [] ||
    (&& (Reserves(c, s, steps[0]) ==>
           forall q :: 0 <= q < c.producers ==> !s.producers[q].Reserved? && !s.producers[q].RollingBack?)
     && Serialised(c, Next(c, s, steps[0]), steps[1..]))
  }

  /** No push of the run ever finds the queue full. */
  predicate NeverFull(c: Config, s: State, steps: seq<Step>)
    requires WellFormed(c, s)
    decreases |steps|
  {
    steps == [] ||
    (&& (steps[0].LoadReadPos? && steps[0].p < c.producers && s.producers[steps[0].p].Reserved? ==>
           !IsFull(c, s, steps[0].p))
     && NeverFull(c, Next(c, s, steps[0]), steps[1..]))
  }

  lemma {:induction false} SerialisedIsClean(c: Config, s: State, steps: seq<Step>)
    requires WellFormed(c, s) && Serialised(c, s, steps)
    ensures Clean(c, s, steps)
    decreases |steps|
  {
    if steps != [] {
      SerialisedIsClean(c, Next(c, s, steps[0]), steps[1..]);
    }
  }

  /** With a single producer every run is serialised. */
  lemma {:induction false} OneProducerIsSerialised(c: Config, s: State, steps: seq<Step>)
    requires WellFormed(c, s) && c.producers == 1
    ensures Serialised(c, s, steps)
    decreases |steps|
  {
    if steps != [] {
      OneProducerIsSerialised(c, Next(c, s, steps[0]), steps[1..]);
    }
  }

  lemma {:induction false} NeverFullTurnsNoneAway(c: Config, s: State, steps: seq<Step>, p: nat)
    requires WellFormed(c, s) && NeverFull(c, s, steps)
    ensures !TurnedAway(c, s, steps, p)
    decreases |steps|
  {
    if steps != [] {
      NeverFullTurnsNoneAway(c, Next(c, s, steps[0]), steps[1..], p);
    }
  }

  lemma {:induction false} NeverFullIsClean(c: Config, s: State, steps: seq<Step>)
    requires WellFormed(c, s) && NeverFull(c, s, steps)
    requires forall p :: 0 <= p < c.producers ==> !s.producers[p].RollingBack?
    ensures Clean(c, s, steps)
    decreases |steps|
  {
    if steps != [] {
      forall p | 0 <= p < c.producers
        ensures !TurnedAway(c, s, steps, p)
      {
        NeverFullTurnsNoneAway(c, s, steps, p);
      }
      NeverFullIsClean(c, Next(c, s, steps[0]), steps[1..]);
    }
  }
}
