/**
 What every step of a clean run keeps, on the queue with unbounded counters.
 */
module MpscInvariant {
  import opened Words
  import opened MpscProtocol

  /**
   The ghost bookkeeping of a run: how many reservations are not turned away, which producers hold
   one that will be, and which producer holds each position that is neither ready nor popped.
   */
  datatype View = View(kept: nat, doomed: set<nat>, holder: map<nat, nat>)

  ghost predicate IdealConfig(c: Config) {
    c.Accepted() && c.capacity >= 2 && !c.wraps
  }

  ghost function FailingWindows(c: Config, s: State, doomed: set<nat>): set<nat>
    requires WellFormed(c, s)
  {
    set p | 0 <= p < c.producers && InFailingWindow(s, doomed, p)
  }

  /** First position whose slot the consumer has not handed back yet. */
  ghost function Released(s: State): nat {
    if s.consumer.Advancing? then s.readPos + 1 else s.readPos
  }

  ghost predicate InFlight(x: Producer) {
    x.Claiming? || x.Copying? || x.Publishing?
  }

  ghost predicate Counters(c: Config, s: State, v: View)
    requires WellFormed(c, s)
  {
    && s.readPos == |s.popped|
    && Released(s) <= v.kept <= |s.line|
    && s.writePos == v.kept + |FailingWindows(c, s, v.doomed)|
    && (forall i :: 0 <= i < v.kept ==> s.line[i].ticket == i)
    && (forall i :: 0 <= i < |s.popped| ==> s.popped[i] == s.line[i].item && s.line[i].item in s.accepted)
    && (forall p :: p in v.doomed ==> p < c.producers && s.producers[p].Reserved?)
  }

  /** Everything in the line past the kept reservations belongs to a doomed push. */
  ghost predicate Tail(c: Config, s: State, v: View)
    requires WellFormed(c, s)
  {
    forall i :: v.kept <= i < |s.line| ==>
      var p := s.line[i].item.producer; p in v.doomed && p < c.producers && s.producers[p] == Reserved(s.line[i])
  }

  /** Items are fresh, belong to their producer, and line up in each producer's own order. */
  ghost predicate Order(c: Config, s: State)
    requires WellFormed(c, s)
  {
    && (forall i :: 0 <= i < |s.line| ==>
          s.line[i].item.producer < c.producers && s.line[i].item.serial < s.serials[s.line[i].item.producer])
    && (forall i, j :: 0 <= i < j < |s.line| && s.line[i].item.producer == s.line[j].item.producer ==>
          s.line[i].item.serial < s.line[j].item.serial)
    && (forall x :: x in s.accepted ==> x.producer < c.producers && x.serial < s.serials[x.producer])
  }

  ghost predicate ProducerOk(c: Config, s: State, v: View, p: nat)
    requires WellFormed(c, s) && p < c.producers && v.kept <= |s.line|
  {
    var x := s.producers[p];
    x.Idle? ||
    (var t := x.claim.ticket;
     && x.claim.item.producer == p && x.claim.item.serial + 1 == s.serials[p]
     && (x.Reserved? ==> x.claim.item !in s.accepted && t <= s.readPos + c.capacity + c.producers)
     && (x.Reserved? && p in v.doomed ==> t >= v.kept && x.claim in s.line)
     && ((x.Reserved? && p !in v.doomed) || InFlight(x) ==>
           Released(s) <= t < v.kept && s.line[t] == x.claim && t in v.holder && v.holder[t] == p)
     && (InFlight(x) ==> t < s.readPos + c.capacity && x.claim.item in s.accepted)
     && (x.Claiming? ==> s.seqs[Slot(c, t)] == t)
     && (x.Copying? || x.Publishing? ==> s.seqs[Slot(c, t)] == t + c.capacity)
     && (x.Publishing? ==> s.buffer[Slot(c, t)] == x.claim.item))
  }

  ghost predicate HolderOk(c: Config, s: State, v: View, k: nat)
    requires WellFormed(c, s) && k in v.holder
  {
    var p := v.holder[k];
    && p < c.producers
    && ((s.producers[p].Reserved? && p !in v.doomed) || InFlight(s.producers[p]))
    && s.producers[p].claim.ticket == k
  }

  /** The sequence number of a position's slot says who owns it. */
  ghost predicate SlotOk(c: Config, s: State, v: View, k: nat)
    requires WellFormed(c, s) && v.kept <= |s.line|
  {
    var n := s.seqs[Slot(c, k)];
    && (n == k || n == k + 1 || n == k + c.capacity)
    && (n == k + 1 ==>
          && k < v.kept && k < s.readPos + c.capacity && k !in v.holder
          && s.buffer[Slot(c, k)] == s.line[k].item && s.line[k].item in s.accepted)
    && (n != k + 1 && k < v.kept ==> k in v.holder)
    && (n == k + c.capacity ==>
          && k in v.holder && v.holder[k] < c.producers
          && (s.producers[v.holder[k]].Copying? || s.producers[v.holder[k]].Publishing?))
  }

  ghost predicate ConsumerOk(c: Config, s: State, v: View)
    requires WellFormed(c, s) && v.kept <= |s.line|
  {
    var x := s.consumer;
    && (!x.Ready? ==> x.pos == s.readPos)
    && (x.Draining? || x.Releasing? ==> s.seqs[Slot(c, x.pos)] == x.pos + 1)
    && (x.Releasing? || x.Advancing? ==>
          x.pos < v.kept && x.item == s.line[x.pos].item && x.item in s.accepted)
  }

  ghost predicate Producers(c: Config, s: State, v: View) {
    && WellFormed(c, s) && v.kept <= |s.line|
    && forall p :: 0 <= p < c.producers ==> ProducerOk(c, s, v, p)
  }

  ghost predicate Holders(c: Config, s: State, v: View) {
    && WellFormed(c, s)
    && (forall k {:trigger HolderOk(c, s, v, k)} :: k in v.holder ==> HolderOk(c, s, v, k))
    && (forall k :: Released(s) + c.capacity <= k < v.kept ==> k in v.holder)
  }

  ghost predicate Slots(c: Config, s: State, v: View) {
    && WellFormed(c, s) && v.kept <= |s.line|
    && forall k :: Released(s) <= k < Released(s) + c.capacity ==> SlotOk(c, s, v, k)
  }

  ghost predicate Inv(c: Config, s: State, v: View) {
    && WellFormed(c, s)
    && Counters(c, s, v)
    && Tail(c, s, v)
    && Order(c, s)
    && ConsumerOk(c, s, v)
    && Producers(c, s, v)
    && Holders(c, s, v)
    && Slots(c, s, v)
  }

  lemma SlotsDiffer(c: Config, a: nat, b: nat)
    requires IdealConfig(c)
    requires a < b < a + c.capacity
    ensures Slot(c, a) != Slot(c, b)
  {
    if Slot(c, a) == Slot(c, b) {
      MaskInjective(a, b, c.capacity);
    }
  }

  /** Slots of one lap are pairwise different. */
  lemma LapSlots(c: Config, lo: nat)
    requires IdealConfig(c)
    ensures forall a, b :: lo <= a < lo + c.capacity && lo <= b < lo + c.capacity && a != b ==>
      Slot(c, a) != Slot(c, b)
  {
    forall a, b | lo <= a < lo + c.capacity && lo <= b < lo + c.capacity && a != b
      ensures Slot(c, a) != Slot(c, b)
    {
      if a < b {
        SlotsDiffer(c, a, b);
      } else {
        SlotsDiffer(c, b, a);
      }
    }
  }

  lemma InitInv(c: Config, s: State)
    requires IdealConfig(c) && IsInit(c, s)
    ensures Inv(c, s, View(0, {}, map[]))
  {
    assert FailingWindows(c, s, {}) == {};
    forall k | 0 <= k < c.capacity
      ensures SlotOk(c, s, View(0, {}, map[]), k)
    {
      MaskSmall(k, c.capacity);
    }
  }

  lemma {:induction false} Below(n: nat, s: set<nat>)
    requires forall p :: p in s ==> p < n
    ensures |s| <= n
  {
    if n > 0 {
      Below(n - 1, s - {n - 1});
      if n - 1 in s {
        assert s == (s - {n - 1}) + {n - 1};
      } else {
        assert s == s - {n - 1};
      }
    } else {
      assert s == {};
    }
  }

  /** Positions lo to hi - 1 have pairwise different holders, so there are at least that many. */
  lemma {:induction false} Pigeonhole(holder: map<nat, nat>, ticket: nat -> nat, lo: nat, hi: nat, holders: set<nat>)
    requires lo <= hi
    requires forall k :: lo <= k < hi ==> k in holder && holder[k] in holders && ticket(holder[k]) == k
    ensures hi - lo <= |holders|
    decreases hi
  {
    if lo < hi {
      Pigeonhole(holder, ticket, lo, hi - 1, holders - {holder[hi - 1]});
    }
  }

  ghost function Waiting(c: Config, s: State, v: View): set<nat>
    requires WellFormed(c, s)
  {
    set q | 0 <= q < c.producers && s.producers[q].Reserved? && q !in v.doomed
  }

  /** Positions past the ring are all held by producers that have not passed the full test. */
  lemma WaitingBound(c: Config, s: State, v: View)
    requires Producers(c, s, v) && Holders(c, s, v)
    ensures v.kept <= Released(s) + c.capacity + |Waiting(c, s, v)|
  {
    var ticket := (q: nat) => if q < |s.producers| && !s.producers[q].Idle? then s.producers[q].claim.ticket else 0;
    var lo := Released(s) + c.capacity;
    if lo < v.kept {
      forall k | lo <= k < v.kept
        ensures k in v.holder && v.holder[k] in Waiting(c, s, v) && ticket(v.holder[k]) == k
      {
        assert HolderOk(c, s, v, k) && ProducerOk(c, s, v, v.holder[k]);
      }
      Pigeonhole(v.holder, ticket, lo, v.kept, Waiting(c, s, v));
    }
  }

  /** Outstanding reservations exceed the capacity by at most one per producer. */
  lemma TicketBound(c: Config, s: State, v: View, p: nat)
    requires Producers(c, s, v) && Holders(c, s, v) && Counters(c, s, v)
    requires p < c.producers && s.producers[p].Idle?
    ensures s.writePos <= s.readPos + c.capacity + c.producers
  {
    WaitingBound(c, s, v);
    var waiting, failing := Waiting(c, s, v), FailingWindows(c, s, v.doomed);
    assert waiting !! failing && p !in waiting && p !in failing;
    assert |waiting + failing + {p}| == |waiting| + |failing| + 1;
    Below(c.producers, waiting + failing + {p});
  }

  /** A fresh item at the end of the line keeps the order. */
  lemma AppendOrder(c: Config, s: State, s': State, p: nat, claim: Claim)
    requires WellFormed(c, s) && WellFormed(c, s') && Order(c, s) && p < c.producers
    requires claim.item.producer == p && claim.item.serial == s.serials[p]
    requires s'.line == s.line + [claim] && s'.serials == s.serials[p := s.serials[p] + 1]
    requires s'.accepted == s.accepted
    ensures Order(c, s')
  {
  }

  lemma RemoveOrder(c: Config, s: State, s': State, m: nat)
    requires WellFormed(c, s) && WellFormed(c, s') && Order(c, s) && m < |s.line|
    requires s'.line == s.line[..m] + s.line[m + 1..]
    requires s'.serials == s.serials && s'.accepted == s.accepted
    ensures Order(c, s')
  {
  }

  lemma {:induction false} RemoveAt(line: seq<Claim>, x: Claim) returns (m: nat)
    requires x in line
    ensures m < |line| && line[m] == x
    ensures Remove(line, x) == line[..m] + line[m + 1..]
  {
    if line[0] == x {
      m := 0;
    } else {
      m := RemoveAt(line[1..], x);
      m := m + 1;
    }
  }

  /** The step changes only producer p, the line and the accepted set. */
  ghost predicate OnlyProducer(c: Config, s: State, v: View, s': State, v': View, p: nat) {
    && WellFormed(c, s) && WellFormed(c, s') && p < c.producers
    && s'.seqs == s.seqs && s'.buffer == s.buffer && s'.readPos == s.readPos && s'.consumer == s.consumer
    && (forall q :: 0 <= q < c.producers && q != p ==>
          s'.producers[q] == s.producers[q] && s'.serials[q] == s.serials[q] && (q in v.doomed <==> q in v'.doomed))
    && s.accepted <= s'.accepted && (forall x :: x in s'.accepted - s.accepted ==> x.producer == p)
    && v.kept <= v'.kept <= |s'.line| && v.kept <= |s.line|
    && (forall i :: 0 <= i < v.kept ==> s'.line[i] == s.line[i])
    && (forall q :: q in v.doomed && q != p && q < c.producers && s.producers[q].Reserved? ==>
          s.producers[q].claim in s'.line && v.kept == v'.kept)
    && ((v'.kept == v.kept && v'.holder == v.holder)
        || (v'.kept == v.kept + 1 && v.kept !in v.holder && v'.holder == v.holder[v.kept := p]))
    && !s.producers[p].Copying? && !s.producers[p].Publishing?
  }

  lemma QuietStep(c: Config, s: State, v: View, s': State, v': View, p: nat)
    requires IdealConfig(c) && OnlyProducer(c, s, v, s', v', p)
    requires Producers(c, s, v) && Holders(c, s, v) && Slots(c, s, v)
    requires ProducerOk(c, s', v', p)
    requires forall k :: k in v'.holder && v'.holder[k] == p ==> HolderOk(c, s', v', k)
    ensures Producers(c, s', v') && Holders(c, s', v') && Slots(c, s', v')
  {
    forall q | 0 <= q < c.producers && q != p
      ensures ProducerOk(c, s', v', q)
    {
      assert ProducerOk(c, s, v, q);
    }
    forall k | k in v'.holder && v'.holder[k] != p
      ensures HolderOk(c, s', v', k)
    {
      assert HolderOk(c, s, v, k);
    }
    forall k | Released(s) <= k < Released(s) + c.capacity
      ensures SlotOk(c, s', v', k)
    {
      assert SlotOk(c, s, v, k);
    }
  }

  /** A push that will be accepted draws the next ticket when no failing window is open. */
  lemma FetchAddKept(c: Config, s: State, v: View, p: nat, data: seq<byte>)
    requires IdealConfig(c) && Inv(c, s, v)
    requires p < c.producers && s.producers[p].Idle?
    requires NoFailingWindow(c, s, v.doomed)
    ensures Inv(c, Next(c, s, FetchAdd(p, data)), View(v.kept + 1, v.doomed, v.holder[v.kept := p]))
  {
    var s', v' := Next(c, s, FetchAdd(p, data)), View(v.kept + 1, v.doomed, v.holder[v.kept := p]);
    NothingDoomed(c, s, v);
    KeptCounters(c, s, v, p, data);
    TicketBound(c, s, v, p);
    NoOtherTicket(c, s, v, p);
    AppendOrder(c, s, s', p, s'.producers[p].claim);
    QuietStep(c, s, v, s', v', p);
  }

  lemma TailIsDoomed(c: Config, s: State, v: View)
    requires WellFormed(c, s) && Tail(c, s, v)
    ensures v.kept < |s.line| ==> v.doomed != {}
  {
    if v.kept < |s.line| {
      assert s.line[v.kept].item.producer in v.doomed;
    }
  }

  lemma DoomedAreFailing(c: Config, s: State, v: View)
    requires WellFormed(c, s) && Counters(c, s, v)
    ensures v.doomed <= FailingWindows(c, s, v.doomed)
  {
  }

  lemma NothingDoomed(c: Config, s: State, v: View)
    requires WellFormed(c, s) && Counters(c, s, v) && Tail(c, s, v) && NoFailingWindow(c, s, v.doomed)
    ensures v.doomed == {} && v.kept == |s.line| == s.writePos
    ensures FailingWindows(c, s, v.doomed) == {}
  {
    TailIsDoomed(c, s, v);
    DoomedAreFailing(c, s, v);
    assert FailingWindows(c, s, v.doomed) == {};
  }

  lemma KeptCounters(c: Config, s: State, v: View, p: nat, data: seq<byte>)
    requires !c.wraps && WellFormed(c, s) && Counters(c, s, v)
    requires p < c.producers && s.producers[p].Idle?
    requires v.doomed == {} == FailingWindows(c, s, v.doomed) && v.kept == |s.line|
    ensures Counters(c, Next(c, s, FetchAdd(p, data)), View(v.kept + 1, v.doomed, v.holder[v.kept := p]))
  {
    var s' := Next(c, s, FetchAdd(p, data));
    assert FailingWindows(c, s', v.doomed) == FailingWindows(c, s, v.doomed);
  }

  lemma NoOtherTicket(c: Config, s: State, v: View, p: nat)
    requires Inv(c, s, v) && p < c.producers && s.producers[p].Idle?
    ensures forall k :: k in v.holder ==> v.holder[k] != p && k < v.kept
  {
    forall k | k in v.holder
      ensures v.holder[k] != p && k < v.kept
    {
      assert HolderOk(c, s, v, k) && ProducerOk(c, s, v, v.holder[k]);
    }
  }

  lemma FetchAddDoomed(c: Config, s: State, v: View, p: nat, data: seq<byte>)
    requires IdealConfig(c) && Inv(c, s, v)
    requires p < c.producers && s.producers[p].Idle?
    ensures Inv(c, Next(c, s, FetchAdd(p, data)), v.(doomed := v.doomed + {p}))
  {
    var s', v' := Next(c, s, FetchAdd(p, data)), v.(doomed := v.doomed + {p});
    DoomedCounters(c, s, v, p, data);
    TicketBound(c, s, v, p);
    NoOtherTicket(c, s, v, p);
    FetchAddLine(c, s, v, p, data);
    DoomedInLine(c, s, v, s'.line);
    QuietStep(c, s, v, s', v', p);
  }

  lemma DoomedCounters(c: Config, s: State, v: View, p: nat, data: seq<byte>)
    requires !c.wraps && WellFormed(c, s) && Counters(c, s, v)
    requires p < c.producers && s.producers[p].Idle?
    ensures Counters(c, Next(c, s, FetchAdd(p, data)), v.(doomed := v.doomed + {p}))
  {
    var s' := Next(c, s, FetchAdd(p, data));
    assert FailingWindows(c, s', v.doomed + {p}) == FailingWindows(c, s, v.doomed) + {p};
  }

  lemma FetchAddLine(c: Config, s: State, v: View, p: nat, data: seq<byte>)
    requires WellFormed(c, s) && Order(c, s) && Tail(c, s, v)
    requires p < c.producers && s.producers[p].Idle?
    ensures Order(c, Next(c, s, FetchAdd(p, data)))
    ensures Tail(c, Next(c, s, FetchAdd(p, data)), v.(doomed := v.doomed + {p}))
  {
    var s' := Next(c, s, FetchAdd(p, data));
    AppendOrder(c, s, s', p, s'.producers[p].claim);
    AppendTail(c, s, v, s', v.(doomed := v.doomed + {p}), p);
  }

  lemma AppendTail(c: Config, s: State, v: View, s': State, v': View, p: nat)
    requires WellFormed(c, s) && WellFormed(c, s') && Tail(c, s, v) && v' == v.(doomed := v.doomed + {p})
    requires p < c.producers && s.producers[p].Idle? && s'.producers[p].Reserved?
    requires s'.producers[p].claim.item.producer == p
    requires s'.producers == s.producers[p := s'.producers[p]]
    requires s'.line == s.line + [s'.producers[p].claim]
    ensures Tail(c, s', v')
  {
  }

  lemma DoomedInLine(c: Config, s: State, v: View, line: seq<Claim>)
    requires Producers(c, s, v)
    requires forall q :: q in v.doomed ==> q < c.producers && s.producers[q].Reserved?
    requires s.line <= line
    ensures forall q :: q in v.doomed ==> s.producers[q].claim in line
  {
    forall q | q in v.doomed
      ensures s.producers[q].claim in line
    {
      assert ProducerOk(c, s, v, q);
    }
  }

  lemma LoadAccept(c: Config, s: State, v: View, p: nat)
    requires IdealConfig(c) && Inv(c, s, v)
    requires p < c.producers && s.producers[p].Reserved? && p !in v.doomed && !IsFull(c, s, p)
    ensures Inv(c, Next(c, s, LoadReadPos(p)), v)
  {
    var s' := Next(c, s, LoadReadPos(p));
    assert ProducerOk(c, s, v, p);
    AcceptCounters(c, s, v, p);
    assert SlotOk(c, s, v, s.producers[p].claim.ticket);
    DoomedInLine(c, s, v, s.line);
    assert forall k :: k in v.holder && v.holder[k] == p ==> HolderOk(c, s, v, k);
    QuietStep(c, s, v, s', v, p);
  }

  lemma AcceptCounters(c: Config, s: State, v: View, p: nat)
    requires WellFormed(c, s) && Counters(c, s, v) && Tail(c, s, v) && Order(c, s)
    requires p < c.producers && s.producers[p].Reserved? && p !in v.doomed && !IsFull(c, s, p)
    requires s.producers[p].claim.item.producer == p && s.producers[p].claim.item.serial < s.serials[p]
    ensures Counters(c, Next(c, s, LoadReadPos(p)), v) && Tail(c, Next(c, s, LoadReadPos(p)), v)
    ensures Order(c, Next(c, s, LoadReadPos(p)))
  {
    var s' := Next(c, s, LoadReadPos(p));
    assert FailingWindows(c, s', v.doomed) == FailingWindows(c, s, v.doomed);
  }

  lemma LoadReject(c: Config, s: State, v: View, p: nat)
    requires IdealConfig(c) && Inv(c, s, v)
    requires p < c.producers && s.producers[p].Reserved? && p in v.doomed && IsFull(c, s, p)
    ensures Inv(c, Next(c, s, LoadReadPos(p)), v.(doomed := v.doomed - {p}))
  {
    var s', v' := Next(c, s, LoadReadPos(p)), v.(doomed := v.doomed - {p});
    RejectLine(c, s, v, s', v', p);
    RejectCounters(c, s, v, s', v', p);
    RejectRest(c, s, v, s', v', p);
  }

  lemma RejectRest(c: Config, s: State, v: View, s': State, v': View, p: nat)
    requires IdealConfig(c) && Inv(c, s, v) && p < c.producers && s.producers[p].Reserved?
    requires p in v.doomed && v' == v.(doomed := v.doomed - {p})
    requires s' == s.(producers := s.producers[p := RollingBack(s.producers[p].claim)], line := s'.line)
    requires Counters(c, s', v') && Tail(c, s', v') && Order(c, s')
    requires forall i :: 0 <= i < v.kept ==> s'.line[i] == s.line[i]
    requires forall q :: q in v'.doomed ==> s.producers[q].claim in s'.line
    ensures Inv(c, s', v')
  {
    assert ProducerOk(c, s, v, p);
    assert forall k :: k in v.holder && v.holder[k] == p ==> HolderOk(c, s, v, k);
    QuietStep(c, s, v, s', v', p);
  }

  lemma RejectCounters(c: Config, s: State, v: View, s': State, v': View, p: nat)
    requires WellFormed(c, s) && Counters(c, s, v) && p in v.doomed && v' == v.(doomed := v.doomed - {p})
    requires s' == s.(producers := s.producers[p := RollingBack(s.producers[p].claim)], line := s'.line)
    requires v.kept <= |s'.line| && forall i :: 0 <= i < v.kept ==> s'.line[i] == s.line[i]
    ensures Counters(c, s', v')
  {
    assert FailingWindows(c, s', v'.doomed) == FailingWindows(c, s, v.doomed);
  }

  lemma RejectLine(c: Config, s: State, v: View, s': State, v': View, p: nat)
    requires Inv(c, s, v) && p in v.doomed && v' == v.(doomed := v.doomed - {p})
    requires s' == s.(producers := s.producers[p := RollingBack(s.producers[p].claim)],
                      line := Remove(s.line, s.producers[p].claim))
    ensures v.kept <= |s'.line| && Order(c, s') && Tail(c, s', v')
    ensures forall i :: 0 <= i < v.kept ==> s'.line[i] == s.line[i]
    ensures forall q :: q in v'.doomed ==> s.producers[q].claim in s'.line
  {
    assert ProducerOk(c, s, v, p);
    var m := RemoveAt(s.line, s.producers[p].claim);
    assert m >= v.kept;
    RemoveOrder(c, s, s', m);
    RemoveTail(c, s, v, s', v', p, m);
    forall q | q in v'.doomed
      ensures s.producers[q].claim in s'.line
    {
      assert ProducerOk(c, s, v, q) && s.producers[q].claim != s.line[m];
      StillThere(s.line, m, s.producers[q].claim);
    }
  }

  lemma StillThere(line: seq<Claim>, m: nat, x: Claim)
    requires m < |line| && x in line && x != line[m]
    ensures x in line[..m] + line[m + 1..]
  {
    var i :| 0 <= i < |line| && line[i] == x;
    assert (line[..m] + line[m + 1..])[if i < m then i else i - 1] == x;
  }

  lemma RemoveTail(c: Config, s: State, v: View, s': State, v': View, p: nat, m: nat)
    requires WellFormed(c, s) && WellFormed(c, s') && Tail(c, s, v) && Order(c, s)
    requires p < c.producers && v.kept <= m < |s.line| && s.line[m].item.producer == p
    requires s'.line == s.line[..m] + s.line[m + 1..]
    requires forall q :: 0 <= q < c.producers && q != p ==> s'.producers[q] == s.producers[q]
    requires v' == v.(doomed := v.doomed - {p})
    ensures Tail(c, s', v')
  {
    forall i | v.kept <= i < |s'.line|
      ensures var q := s'.line[i].item.producer;
        q in v'.doomed && q < c.producers && s'.producers[q] == Reserved(s'.line[i])
    {
      var j := if i < m then i else i + 1;
      assert s'.line[i] == s.line[j];
      assert s.line[j].item.producer != p;
    }
  }

  lemma RollbackCounters(c: Config, s: State, v: View, p: nat)
    requires !c.wraps && WellFormed(c, s) && Counters(c, s, v) && p < c.producers && s.producers[p].RollingBack?
    ensures Counters(c, Next(c, s, FetchSub(p)), v)
  {
    var s' := Next(c, s, FetchSub(p));
    assert p in FailingWindows(c, s, v.doomed);
    assert FailingWindows(c, s', v.doomed) == FailingWindows(c, s, v.doomed) - {p};
  }

  lemma FetchSubInv(c: Config, s: State, v: View, p: nat)
    requires IdealConfig(c) && Inv(c, s, v)
    requires p < c.producers && s.producers[p].RollingBack?
    ensures Inv(c, Next(c, s, FetchSub(p)), v)
  {
    var s' := Next(c, s, FetchSub(p));
    RollbackCounters(c, s, v, p);
    DoomedInLine(c, s, v, s.line);
    assert forall k :: k in v.holder && v.holder[k] == p ==> HolderOk(c, s, v, k);
    QuietStep(c, s, v, s', v, p);
  }

  /** The step changes producer p, which owns the slot of its ticket, and that slot. */
  ghost predicate OnlySlot(c: Config, s: State, v: View, s': State, v': View, p: nat) {
    && WellFormed(c, s) && WellFormed(c, s') && p < c.producers && InFlight(s.producers[p])
    && s' == s.(seqs := s'.seqs, buffer := s'.buffer, producers := s'.producers)
    && (var i := Slot(c, s.producers[p].claim.ticket);
        && (forall j :: 0 <= j < c.capacity && j != i ==> s'.seqs[j] == s.seqs[j] && s'.buffer[j] == s.buffer[j])
        && (forall q :: 0 <= q < c.producers && q != p ==> s'.producers[q] == s.producers[q]))
    && (InFlight(s'.producers[p]) || s'.producers[p].Idle?)
    && v' == v.(holder := if s'.producers[p].Idle? then v.holder - {s.producers[p].claim.ticket} else v.holder)
  }

  lemma SlotStepProducers(c: Config, s: State, v: View, s': State, v': View, p: nat)
    requires IdealConfig(c) && OnlySlot(c, s, v, s', v', p)
    requires Producers(c, s, v) && Holders(c, s, v)
    requires ProducerOk(c, s', v', p)
    requires s'.producers[p].Idle? || s'.producers[p].claim == s.producers[p].claim
    ensures Producers(c, s', v') && Holders(c, s', v')
  {
    LapSlots(c, Released(s));
    assert ProducerOk(c, s, v, p);
    forall q | 0 <= q < c.producers && q != p
      ensures ProducerOk(c, s', v', q)
    {
      assert ProducerOk(c, s, v, q);
    }
    forall k | k in v'.holder
      ensures HolderOk(c, s', v', k)
    {
      assert HolderOk(c, s, v, k);
    }
  }

  lemma SlotStep(c: Config, s: State, v: View, s': State, v': View, p: nat)
    requires IdealConfig(c) && OnlySlot(c, s, v, s', v', p)
    requires Slots(c, s, v) && Holders(c, s, v) && ConsumerOk(c, s, v) && ProducerOk(c, s, v, p)
    requires s.readPos <= v.kept
    requires SlotOk(c, s', v', s.producers[p].claim.ticket)
    ensures Slots(c, s', v') && ConsumerOk(c, s', v')
  {
    var t := s.producers[p].claim.ticket;
    LapSlots(c, Released(s));
    forall k | Released(s) <= k < Released(s) + c.capacity
      ensures SlotOk(c, s', v', k)
    {
      if k != t {
        assert SlotOk(c, s, v, k);
        assert k in v.holder ==> HolderOk(c, s, v, k);
      }
    }
    assert SlotOk(c, s, v, Released(s));
  }

  lemma SlotCounters(c: Config, s: State, v: View, s': State, v': View, p: nat)
    requires OnlySlot(c, s, v, s', v', p) && Counters(c, s, v) && Tail(c, s, v) && Order(c, s)
    ensures Counters(c, s', v') && Tail(c, s', v') && Order(c, s')
  {
    assert FailingWindows(c, s', v'.doomed) == FailingWindows(c, s, v.doomed);
  }

  /** The claiming compare-exchange finds the ticket in the slot and takes it. */
  lemma CompareExchangeInv(c: Config, s: State, v: View, p: nat)
    requires IdealConfig(c) && Inv(c, s, v)
    requires p < c.producers && s.producers[p].Claiming?
    ensures Inv(c, Next(c, s, CompareExchange(p, false)), v)
    ensures Next(c, s, CompareExchange(p, true)) == s
  {
    var s' := Next(c, s, CompareExchange(p, false));
    assert ProducerOk(c, s, v, p) && SlotOk(c, s, v, s.producers[p].claim.ticket);
    SlotCounters(c, s, v, s', v, p);
    SlotStepProducers(c, s, v, s', v, p);
    SlotStep(c, s, v, s', v, p);
  }

  lemma CopyInInv(c: Config, s: State, v: View, p: nat)
    requires IdealConfig(c) && Inv(c, s, v)
    requires p < c.producers && s.producers[p].Copying?
    ensures Inv(c, Next(c, s, CopyIn(p)), v)
  {
    var s' := Next(c, s, CopyIn(p));
    assert ProducerOk(c, s, v, p) && SlotOk(c, s, v, s.producers[p].claim.ticket);
    SlotCounters(c, s, v, s', v, p);
    SlotStepProducers(c, s, v, s', v, p);
    SlotStep(c, s, v, s', v, p);
  }

  lemma PublishInv(c: Config, s: State, v: View, p: nat)
    requires IdealConfig(c) && Inv(c, s, v)
    requires p < c.producers && s.producers[p].Publishing?
    ensures Inv(c, Next(c, s, Publish(p)), v.(holder := v.holder - {s.producers[p].claim.ticket}))
  {
    var s', v' := Next(c, s, Publish(p)), v.(holder := v.holder - {s.producers[p].claim.ticket});
    assert ProducerOk(c, s, v, p) && SlotOk(c, s, v, s.producers[p].claim.ticket);
    SlotCounters(c, s, v, s', v', p);
    SlotStepProducers(c, s, v, s', v', p);
    SlotStep(c, s, v, s', v', p);
  }

  /** A consumer that only looks around changes nothing for the producers. */
  lemma SameMemory(c: Config, s: State, v: View, s': State)
    requires Producers(c, s, v) && Holders(c, s, v) && Slots(c, s, v)
    requires s' == s.(consumer := s'.consumer, readPos := s'.readPos, popped := s'.popped)
    requires Released(s') == Released(s) && s.readPos <= s'.readPos
    ensures Producers(c, s', v) && Holders(c, s', v) && Slots(c, s', v)
  {
    forall q | 0 <= q < c.producers
      ensures ProducerOk(c, s', v, q)
    {
      assert ProducerOk(c, s, v, q);
    }
    forall k | k in v.holder
      ensures HolderOk(c, s', v, k)
    {
      assert HolderOk(c, s, v, k);
    }
    forall k | Released(s) <= k < Released(s) + c.capacity
      ensures SlotOk(c, s', v, k)
    {
      assert SlotOk(c, s, v, k);
    }
  }

  /** The consumer's loads and its copy. */
  /** The consumer moves on without touching memory. */
  lemma ConsumerMoves(c: Config, s: State, v: View, s': State)
    requires Inv(c, s, v) && s' == s.(consumer := s'.consumer)
    requires Released(s') == Released(s) && ConsumerOk(c, s', v)
    ensures Inv(c, s', v)
  {
    assert FailingWindows(c, s', v.doomed) == FailingWindows(c, s, v.doomed);
    SameMemory(c, s, v, s');
  }

  lemma ConsumerLocal(c: Config, s: State, v: View, step: Step)
    requires IdealConfig(c) && Inv(c, s, v)
    requires step.PopLoadReadPos? || step.PopLoadSeq? || step.PopCopyOut?
    ensures Inv(c, Next(c, s, step), v)
  {
    assert !s.consumer.Advancing? ==> SlotOk(c, s, v, s.readPos);
    ConsumerMoves(c, s, v, Next(c, s, step));
  }

  lemma ReleaseProducers(c: Config, s: State, v: View)
    requires IdealConfig(c) && Producers(c, s, v) && Holders(c, s, v)
    requires s.consumer.Releasing? && s.consumer.pos == s.readPos && s.readPos !in v.holder
    ensures Producers(c, Next(c, s, PopReleaseSlot), v) && Holders(c, Next(c, s, PopReleaseSlot), v)
  {
    var s' := Next(c, s, PopReleaseSlot);
    LapSlots(c, s.readPos);
    forall q | 0 <= q < c.producers
      ensures ProducerOk(c, s', v, q)
    {
      assert ProducerOk(c, s, v, q);
    }
    forall k | k in v.holder
      ensures HolderOk(c, s', v, k)
    {
      assert HolderOk(c, s, v, k);
    }
  }

  lemma ReleaseSlots(c: Config, s: State, v: View)
    requires IdealConfig(c) && Slots(c, s, v) && Holders(c, s, v)
    requires s.consumer.Releasing? && s.consumer.pos == s.readPos < v.kept
    ensures Slots(c, Next(c, s, PopReleaseSlot), v)
  {
    var s', r := Next(c, s, PopReleaseSlot), s.readPos;
    LapSlots(c, r);
    MaskPeriodic(r, c.capacity);
    forall k | r + 1 <= k < r + 1 + c.capacity
      ensures SlotOk(c, s', v, k)
    {
      if k < r + c.capacity {
        assert SlotOk(c, s, v, k);
      }
    }
  }

  lemma ReleaseInv(c: Config, s: State, v: View)
    requires IdealConfig(c) && Inv(c, s, v) && s.consumer.Releasing?
    ensures Inv(c, Next(c, s, PopReleaseSlot), v)
  {
    var s' := Next(c, s, PopReleaseSlot);
    assert FailingWindows(c, s', v.doomed) == FailingWindows(c, s, v.doomed);
    assert SlotOk(c, s, v, s.readPos);
    ReleaseProducers(c, s, v);
    ReleaseSlots(c, s, v);
  }

  lemma AdvanceInv(c: Config, s: State, v: View)
    requires IdealConfig(c) && Inv(c, s, v) && s.consumer.Advancing?
    ensures Inv(c, Next(c, s, PopAdvance), v)
  {
    var s' := Next(c, s, PopAdvance);
    assert FailingWindows(c, s', v.doomed) == FailingWindows(c, s, v.doomed);
    SameMemory(c, s, v, s');
  }
}
