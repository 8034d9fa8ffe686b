/**
 Exactly when the rollback is harmless, whatever the capacity and the consumer do, with 32-bit or
 unbounded counters: the reservations in line hold the tickets 0, 1, 2, ... in order if and only if the
 run is clean. The proof keeps beside the line the true tickets, not cut to 32 bits.
 */
module MpscTickets {
  import opened Words
  import opened MpscProtocol
  import opened MpscInvariant

  ghost function Rolling(c: Config, s: State): set<nat>
    requires WellFormed(c, s)
  {
    set p | 0 <= p < c.producers && s.producers[p].RollingBack?
  }

  /** The value of writePos, not cut to 32 bits. */
  ghost function TrueWritePos(c: Config, s: State): nat
    requires WellFormed(c, s)
  {
    |s.line| + |Rolling(c, s)|
  }

  ghost predicate Count(c: Config, s: State)
    requires WellFormed(c, s)
  {
    s.writePos == Norm(c, TrueWritePos(c, s))
  }

  /** `t` holds the true tickets of the line. */
  ghost predicate Tickets(c: Config, line: seq<Claim>, t: seq<nat>) {
    |t| == |line| && forall i :: 0 <= i < |line| ==> line[i].ticket == Norm(c, t[i])
  }

  ghost predicate Places(t: seq<nat>) {
    forall i :: 0 <= i < |t| ==> t[i] >= i
  }

  ghost predicate Own(c: Config, s: State)
    requires WellFormed(c, s)
  {
    forall p :: 0 <= p < c.producers && !s.producers[p].Idle? ==>
      s.producers[p].claim.item.producer == p && s.producers[p].claim.item.serial + 1 == s.serials[p]
  }

  ghost predicate Pending(c: Config, s: State)
    requires WellFormed(c, s)
  {
    forall p :: 0 <= p < c.producers && s.producers[p].Reserved? ==> s.producers[p].claim in s.line
  }

  /** What every run keeps, clean or not: a ticket is never below its place in line. */
  ghost predicate Ledger(c: Config, s: State, t: seq<nat>) {
    && WellFormed(c, s)
    && Order(c, s) && Count(c, s) && Tickets(c, s.line, t) && Places(t) && Own(c, s) && Pending(c, s)
  }

  /** Entry i of the line belongs to a pending push that will be turned away. */
  ghost predicate DoomedAt(c: Config, s: State, rest: seq<Step>, i: nat)
    requires WellFormed(c, s) && i < |s.line|
  {
    var p := s.line[i].item.producer;
    p < c.producers && s.producers[p] == Reserved(s.line[i]) && TurnedAway(c, s, rest, p)
  }

  ghost function DoomedPlaces(c: Config, s: State, rest: seq<Step>): set<nat>
    requires WellFormed(c, s)
  {
    set i | 0 <= i < |s.line| && DoomedAt(c, s, rest, i)
  }

  /** An entry that stays in line has, or will have, a ticket above its place. */
  ghost predicate Misplaced(t: seq<nat>, doomed: set<nat>, j: nat)
    requires j < |t|
  {
    j !in doomed && (t[j] > j || exists i :: i in doomed && i < j)
  }

  ghost predicate Bad(t: seq<nat>, doomed: set<nat>) {
    exists j :: 0 <= j < |t| && Misplaced(t, doomed, j)
  }

  lemma InitLedger(c: Config, s: State)
    requires IsInit(c, s)
    ensures Ledger(c, s, [])
  {
    assert Rolling(c, s) == {};
  }

  /** The true tickets after a step. */
  ghost function After(c: Config, s: State, t: seq<nat>, step: Step): seq<nat>
    requires Ledger(c, s, t)
  {
    if Reserves(c, s, step) then t + [TrueWritePos(c, s)]
    else if step.LoadReadPos? && step.p < c.producers && s.producers[step.p].Reserved? && IsFull(c, s, step.p) then
      var m := PlaceOf(s.line, s.producers[step.p].claim);
      t[..m] + t[m + 1..]
    else t
  }

  ghost function PlaceOf(line: seq<Claim>, x: Claim): (m: nat)
    requires x in line
    ensures m < |line| && line[m] == x && Remove(line, x) == line[..m] + line[m + 1..]
  {
    if line[0] == x then 0
    else
      var m := PlaceOf(line[1..], x);
      assert [line[0]] + line[1..][..m] == line[..m + 1] && line[1..][m + 1..] == line[m + 2..];
      m + 1
  }

  lemma WrapInc(c: Config, x: nat)
    ensures Norm(c, Norm(c, x) + 1) == Norm(c, x + 1)
    ensures Decrement(c, Norm(c, x + 1)) == Norm(c, x)
  {
  }

  lemma ReserveBooks(c: Config, s: State, step: Step)
    requires WellFormed(c, s) && Count(c, s) && Own(c, s) && Pending(c, s) && Reserves(c, s, step)
    ensures var s' := Next(c, s, step);
      Count(c, s') && Own(c, s') && Pending(c, s') && TrueWritePos(c, s') == TrueWritePos(c, s) + 1
  {
    var s' := Next(c, s, step);
    assert Rolling(c, s') == Rolling(c, s);
    WrapInc(c, TrueWritePos(c, s));
    assert s'.line[|s.line|] == s'.producers[step.p].claim;
  }

  lemma ReserveLedger(c: Config, s: State, t: seq<nat>, step: Step)
    requires Ledger(c, s, t) && Reserves(c, s, step)
    ensures Ledger(c, Next(c, s, step), After(c, s, t, step))
  {
    var s' := Next(c, s, step);
    var claim := s'.producers[step.p].claim;
    AppendOrder(c, s, s', step.p, claim);
    AppendTickets(c, s.line, t, claim, TrueWritePos(c, s));
    ReserveBooks(c, s, step);
  }

  lemma AppendTickets(c: Config, line: seq<Claim>, t: seq<nat>, claim: Claim, x: nat)
    requires Tickets(c, line, t) && Places(t) && claim.ticket == Norm(c, x) && x >= |line|
    ensures Tickets(c, line + [claim], t + [x]) && Places(t + [x])
  {
  }

  lemma RemoveTickets(c: Config, line: seq<Claim>, t: seq<nat>, m: nat)
    requires m < |line| && Tickets(c, line, t) && Places(t)
    ensures Tickets(c, line[..m] + line[m + 1..], t[..m] + t[m + 1..]) && Places(t[..m] + t[m + 1..])
  {
    var line', t' := line[..m] + line[m + 1..], t[..m] + t[m + 1..];
    forall i | 0 <= i < |line'|
      ensures line'[i].ticket == Norm(c, t'[i]) && t'[i] >= i
    {
      assert line'[i] == line[Before(i, m)] && t'[i] == t[Before(i, m)];
    }
  }

  lemma RejectBooks(c: Config, s: State, s': State, p: nat)
    requires WellFormed(c, s) && WellFormed(c, s') && Count(c, s) && Own(c, s)
    requires p < c.producers && s.producers[p].Reserved?
    requires s'.producers == s.producers[p := RollingBack(s.producers[p].claim)] && s'.serials == s.serials
    requires s'.writePos == s.writePos && |s'.line| == |s.line| - 1
    ensures Count(c, s') && Own(c, s')
  {
    assert p !in Rolling(c, s) && Rolling(c, s') == Rolling(c, s) + {p};
    assert TrueWritePos(c, s') == TrueWritePos(c, s);
  }

  lemma RejectPending(c: Config, s: State, s': State, p: nat, m: nat)
    requires WellFormed(c, s) && WellFormed(c, s') && p < c.producers && m < |s.line|
    requires s'.producers == s.producers[p := s'.producers[p]] && !s'.producers[p].Reserved?
    requires s.line[m].item.producer == p && s'.line == s.line[..m] + s.line[m + 1..]
    requires Own(c, s) && Pending(c, s)
    ensures Pending(c, s')
  {
    forall q | 0 <= q < c.producers && s'.producers[q].Reserved?
      ensures s'.producers[q].claim in s'.line
    {
      StillThere(s.line, m, s.producers[q].claim);
    }
  }

  lemma RejectEntry(c: Config, s: State, s': State, t: seq<nat>, p: nat, m: nat)
    requires Ledger(c, s, t) && WellFormed(c, s') && p < c.producers && m < |s.line|
    requires s.producers[p] == Reserved(s.line[m])
    requires s'.producers == s.producers[p := RollingBack(s.line[m])] && s'.line == s.line[..m] + s.line[m + 1..]
    requires s'.writePos == s.writePos && s'.serials == s.serials && s'.accepted == s.accepted
    ensures Ledger(c, s', t[..m] + t[m + 1..])
  {
    RemoveOrder(c, s, s', m);
    RemoveTickets(c, s.line, t, m);
    RejectBooks(c, s, s', p);
    RejectPending(c, s, s', p, m);
  }

  lemma RejectLedger(c: Config, s: State, t: seq<nat>, p: nat)
    requires Ledger(c, s, t) && p < c.producers && s.producers[p].Reserved? && IsFull(c, s, p)
    ensures Ledger(c, Next(c, s, LoadReadPos(p)), After(c, s, t, LoadReadPos(p)))
  {
    RejectEntry(c, s, Next(c, s, LoadReadPos(p)), t, p, PlaceOf(s.line, s.producers[p].claim));
  }

  lemma AcceptBooks(c: Config, s: State, p: nat)
    requires WellFormed(c, s) && Count(c, s) && Own(c, s) && Pending(c, s)
    requires p < c.producers && s.producers[p].Reserved? && !IsFull(c, s, p)
    ensures var s' := Next(c, s, LoadReadPos(p));
      Count(c, s') && Own(c, s') && Pending(c, s')
  {
    assert Rolling(c, Next(c, s, LoadReadPos(p))) == Rolling(c, s);
  }

  lemma AcceptOrder(c: Config, s: State, s': State, x: Item)
    requires WellFormed(c, s) && WellFormed(c, s') && Order(c, s)
    requires s'.line == s.line && s'.serials == s.serials && s'.accepted == s.accepted + {x}
    requires x.producer < c.producers && x.serial < s.serials[x.producer]
    ensures Order(c, s')
  {
  }

  lemma AcceptLedger(c: Config, s: State, t: seq<nat>, p: nat)
    requires Ledger(c, s, t) && p < c.producers && s.producers[p].Reserved? && !IsFull(c, s, p)
    ensures Ledger(c, Next(c, s, LoadReadPos(p)), t)
  {
    var s' := Next(c, s, LoadReadPos(p));
    AcceptBooks(c, s, p);
    AcceptOrder(c, s, s', s.producers[p].claim.item);
  }

  /** Steps other than a push's first two leave the line and the pending pushes alone. */
  lemma OtherFrame(c: Config, s: State, step: Step)
    requires WellFormed(c, s) && !Reserves(c, s, step) && !step.LoadReadPos?
    ensures var s' := Next(c, s, step);
      && s'.line == s.line && s'.serials == s.serials && s'.accepted == s.accepted
      && (forall p :: 0 <= p < c.producers && (s.producers[p].Reserved? || s'.producers[p].Reserved?) ==>
            s'.producers[p] == s.producers[p])
      && (forall p :: 0 <= p < c.producers && !s'.producers[p].Idle? ==>
            !s.producers[p].Idle? && s'.producers[p].claim == s.producers[p].claim)
  {
  }

  lemma RollbackCount(c: Config, s: State, p: nat)
    requires WellFormed(c, s) && p < c.producers && s.producers[p].RollingBack? && Count(c, s)
    ensures Count(c, Next(c, s, FetchSub(p)))
  {
    var s' := Next(c, s, FetchSub(p));
    assert p in Rolling(c, s) && Rolling(c, s') == Rolling(c, s) - {p};
    assert TrueWritePos(c, s) == TrueWritePos(c, s') + 1;
    WrapInc(c, TrueWritePos(c, s'));
  }

  lemma OtherCount(c: Config, s: State, step: Step)
    requires WellFormed(c, s) && !Reserves(c, s, step) && !step.LoadReadPos? && Count(c, s)
    ensures Count(c, Next(c, s, step))
  {
    if step.FetchSub? && step.p < c.producers && s.producers[step.p].RollingBack? {
      RollbackCount(c, s, step.p);
    } else {
      assert Rolling(c, Next(c, s, step)) == Rolling(c, s);
    }
  }

  lemma OtherLedger(c: Config, s: State, t: seq<nat>, step: Step)
    requires Ledger(c, s, t) && !Reserves(c, s, step) && !step.LoadReadPos?
    ensures Ledger(c, Next(c, s, step), t)
  {
    OtherFrame(c, s, step);
    OtherCount(c, s, step);
  }

  lemma LedgerStep(c: Config, s: State, t: seq<nat>, step: Step)
    requires Ledger(c, s, t)
    ensures Ledger(c, Next(c, s, step), After(c, s, t, step))
  {
    if Reserves(c, s, step) {
      ReserveLedger(c, s, t, step);
    } else if step.LoadReadPos? {
      if step.p < c.producers && s.producers[step.p].Reserved? {
        if IsFull(c, s, step.p) {
          RejectLedger(c, s, t, step.p);
        } else {
          AcceptLedger(c, s, t, step.p);
        }
      }
    } else {
      OtherLedger(c, s, t, step);
    }
  }

  // ---------- Misplaced entries ----------

  /** Steps that neither reserve nor load leave every entry's fate as it was. */
  lemma FatesUnchanged(c: Config, s: State, steps: seq<Step>)
    requires WellFormed(c, s) && steps != [] && !Reserves(c, s, steps[0]) && !steps[0].LoadReadPos?
    ensures DoomedPlaces(c, s, steps) == DoomedPlaces(c, Next(c, s, steps[0]), steps[1..])
  {
    var s', rest := Next(c, s, steps[0]), steps[1..];
    OtherFrame(c, s, steps[0]);
    forall i | 0 <= i < |s.line|
      ensures DoomedAt(c, s, steps, i) == DoomedAt(c, s', rest, i)
    {
    }
  }

  /** Accepting a push dooms or saves nobody. */
  lemma FatesAfterAccept(c: Config, s: State, steps: seq<Step>)
    requires WellFormed(c, s) && steps != [] && steps[0].LoadReadPos?
    requires steps[0].p < c.producers && s.producers[steps[0].p].Reserved? ==> !IsFull(c, s, steps[0].p)
    ensures DoomedPlaces(c, s, steps) == DoomedPlaces(c, Next(c, s, steps[0]), steps[1..])
  {
    var s', rest := Next(c, s, steps[0]), steps[1..];
    forall i | 0 <= i < |s.line|
      ensures DoomedAt(c, s, steps, i) == DoomedAt(c, s', rest, i)
    {
    }
  }

  /** Where entry i of the shorter line stood before entry m was removed. */
  function Before(i: nat, m: nat): nat {
    if i < m then i else i + 1
  }

  lemma RejectFates(c: Config, s: State, steps: seq<Step>, p: nat, m: nat)
    requires WellFormed(c, s) && Order(c, s) && steps != [] && steps[0] == LoadReadPos(p)
    requires p < c.producers && s.producers[p].Reserved? && IsFull(c, s, p)
    requires m < |s.line| && s.line[m] == s.producers[p].claim && s.line[m].item.producer == p
    requires Next(c, s, steps[0]).line == s.line[..m] + s.line[m + 1..]
    ensures m in DoomedPlaces(c, s, steps)
    ensures forall i :: i in DoomedPlaces(c, Next(c, s, steps[0]), steps[1..]) <==>
      0 <= i < |s.line| - 1 && Before(i, m) in DoomedPlaces(c, s, steps)
  {
    var s' := Next(c, s, steps[0]);
    forall i | 0 <= i < |s'.line|
      ensures s'.line[i] == s.line[Before(i, m)]
      ensures DoomedAt(c, s', steps[1..], i) == DoomedAt(c, s, steps, Before(i, m))
    {
      assert s.line[Before(i, m)] != s.line[m];
    }
  }

  /** Turning a push away drops every later entry by one place, and dooms or saves nobody else. */
  lemma BadAfterReject(c: Config, s: State, t: seq<nat>, steps: seq<Step>, p: nat)
    requires Ledger(c, s, t) && steps != [] && steps[0] == LoadReadPos(p)
    requires p < c.producers && s.producers[p].Reserved? && IsFull(c, s, p)
    ensures Bad(t, DoomedPlaces(c, s, steps)) <==>
      Bad(After(c, s, t, steps[0]), DoomedPlaces(c, Next(c, s, steps[0]), steps[1..]))
  {
    var s', rest := Next(c, s, steps[0]), steps[1..];
    var m := PlaceOf(s.line, s.producers[p].claim);
    RejectFates(c, s, steps, p, m);
    ShiftPlaces(t, t[..m] + t[m + 1..], DoomedPlaces(c, s, steps), DoomedPlaces(c, s', rest), m);
  }

  lemma ShiftPlaces(t: seq<nat>, t': seq<nat>, doomed: set<nat>, doomed': set<nat>, m: nat)
    requires m < |t| && t' == t[..m] + t[m + 1..] && m in doomed && Places(t)
    requires forall i :: i in doomed' <==> 0 <= i < |t'| && Before(i, m) in doomed
    ensures Bad(t, doomed) <==> Bad(t', doomed')
  {
    assert forall i :: 0 <= i < |t'| ==> t'[i] == t[Before(i, m)];
    if j :| 0 <= j < |t| && Misplaced(t, doomed, j) {
      var j' := if j < m then j else j - 1;
      assert Before(j', m) == j;
      if j < m && !(t[j] > j) {
        var i :| i in doomed && i < j;
        assert Before(i, m) == i;
        assert i in doomed';
      }
      assert Misplaced(t', doomed', j');
    }
    if j' :| 0 <= j' < |t'| && Misplaced(t', doomed', j') {
      var j := Before(j', m);
      if j' < m && !(t'[j'] > j') {
        var i :| i in doomed' && i < j';
        assert Before(i, m) == i;
      }
      assert Misplaced(t, doomed, j);
    }
  }

  lemma ReserveFates(c: Config, s: State, steps: seq<Step>)
    requires WellFormed(c, s) && Order(c, s) && steps != [] && Reserves(c, s, steps[0])
    ensures var s', n := Next(c, s, steps[0]), |s.line|;
      && |s'.line| == n + 1
      && (n in DoomedPlaces(c, s', steps[1..]) <==> TurnedAway(c, s', steps[1..], steps[0].p))
      && forall i :: 0 <= i < n ==> (i in DoomedPlaces(c, s, steps) <==> i in DoomedPlaces(c, s', steps[1..]))
  {
    var s', n := Next(c, s, steps[0]), |s.line|;
    forall i | 0 <= i < n
      ensures s'.line[i] == s.line[i] && DoomedAt(c, s, steps, i) == DoomedAt(c, s', steps[1..], i)
    {
      assert s.line[i] != s'.line[n];
    }
  }

  lemma LongerPlaces(t: seq<nat>, last: nat, doomed: set<nat>, doomed': set<nat>)
    requires forall i :: i in doomed ==> i < |t|
    requires forall i :: 0 <= i < |t| ==> (i in doomed <==> i in doomed')
    ensures Bad(t + [last], doomed') <==> Bad(t, doomed) || (|t| !in doomed' && (last > |t| || doomed != {}))
  {
    var n, t' := |t|, t + [last];
    forall j | 0 <= j < n
      ensures Misplaced(t, doomed, j) == Misplaced(t', doomed', j)
    {
      if i :| i in doomed && i < j {
        assert i in doomed';
      }
    }
    if doomed != {} {
      var i :| i in doomed;
      assert i in doomed' && i < n;
    }
    assert Misplaced(t', doomed', n) <==> n !in doomed' && (last > n || doomed != {});
  }

  /** A reservation puts a misplaced entry in line exactly when it is accepted inside a failing window. */
  lemma BadAfterReserve(c: Config, s: State, t: seq<nat>, steps: seq<Step>)
    requires Ledger(c, s, t) && steps != [] && Reserves(c, s, steps[0])
    ensures Bad(After(c, s, t, steps[0]), DoomedPlaces(c, Next(c, s, steps[0]), steps[1..])) <==>
      Bad(t, DoomedPlaces(c, s, steps))
      || (!TurnedAway(c, Next(c, s, steps[0]), steps[1..], steps[0].p) &&
          !NoFailingWindow(c, s, Doomed(c, s, steps)))
  {
    var s', rest := Next(c, s, steps[0]), steps[1..];
    ReserveFates(c, s, steps);
    LongerPlaces(t, TrueWritePos(c, s), DoomedPlaces(c, s, steps), DoomedPlaces(c, s', rest));
    WindowsInLine(c, s, steps);
  }

  /** A failing window is open exactly when a push is rolling back or a doomed entry is in line. */
  lemma WindowsInLine(c: Config, s: State, steps: seq<Step>)
    requires WellFormed(c, s) && Own(c, s) && Pending(c, s)
    ensures !NoFailingWindow(c, s, Doomed(c, s, steps)) <==>
      TrueWritePos(c, s) > |s.line| || DoomedPlaces(c, s, steps) != {}
  {
    var d := Doomed(c, s, steps);
    if q :| 0 <= q < c.producers && InFailingWindow(s, d, q) {
      if s.producers[q].RollingBack? {
        assert q in Rolling(c, s);
      } else {
        var i :| 0 <= i < |s.line| && s.line[i] == s.producers[q].claim;
        assert DoomedAt(c, s, steps, i);
        assert i in DoomedPlaces(c, s, steps);
      }
    }
    if TrueWritePos(c, s) > |s.line| {
      assert Rolling(c, s) != {};
      var q :| q in Rolling(c, s);
      assert InFailingWindow(s, d, q);
    }
    if i :| i in DoomedPlaces(c, s, steps) {
      assert InFailingWindow(s, d, s.line[i].item.producer);
    }
  }

  lemma BadStep(c: Config, s: State, t: seq<nat>, steps: seq<Step>)
    requires Ledger(c, s, t) && steps != []
    ensures Bad(After(c, s, t, steps[0]), DoomedPlaces(c, Next(c, s, steps[0]), steps[1..])) <==>
      Bad(t, DoomedPlaces(c, s, steps))
      || (Reserves(c, s, steps[0]) && !TurnedAway(c, Next(c, s, steps[0]), steps[1..], steps[0].p) &&
          !NoFailingWindow(c, s, Doomed(c, s, steps)))
  {
    var step := steps[0];
    if Reserves(c, s, step) {
      BadAfterReserve(c, s, t, steps);
    } else if step.LoadReadPos? {
      if step.p < c.producers && s.producers[step.p].Reserved? && IsFull(c, s, step.p) {
        BadAfterReject(c, s, t, steps, step.p);
      } else {
        FatesAfterAccept(c, s, steps);
      }
    } else {
      FatesUnchanged(c, s, steps);
    }
  }

  // ---------- How far a ticket can be from its place ----------

  /** Producer p has a push pending before place j. */
  ghost predicate WaitsBefore(s: State, p: nat, j: nat)
    requires p < |s.producers|
  {
    s.producers[p].Reserved? && exists i :: 0 <= i < j && i < |s.line| && s.line[i] == s.producers[p].claim
  }

  ghost function Waiters(c: Config, s: State, j: nat): set<nat>
    requires WellFormed(c, s)
  {
    set p | 0 <= p < c.producers && WaitsBefore(s, p, j)
  }

  /** A ticket runs ahead of its place by fewer than there are producers. */
  ghost predicate Drift(c: Config, s: State, t: seq<nat>) {
    && WellFormed(c, s) && |t| == |s.line|
    && forall j :: 0 <= j < |t| ==> DriftAt(c, s, t, j)
  }

  ghost predicate DriftAt(c: Config, s: State, t: seq<nat>, j: nat)
    requires WellFormed(c, s) && j < |t|
  {
    t[j] + |Waiters(c, s, j)| < j + c.producers
  }

  lemma {:induction false} Subset(a: set<nat>, b: set<nat>)
    requires a <= b
    ensures |a| <= |b|
  {
    if a != {} {
      var x :| x in a;
      Subset(a - {x}, b - {x});
    }
  }

  lemma Smaller(a: set<nat>, b: set<nat>, p: nat)
    requires a <= b && p in b && p !in a
    ensures |a| < |b|
  {
    Subset(a, b - {p});
  }

  lemma FewProducers(c: Config, s: State, p: nat, j: nat)
    requires WellFormed(c, s) && p < c.producers && s.producers[p].Idle?
    ensures |Rolling(c, s)| + |Waiters(c, s, j)| < c.producers
  {
    var both := Rolling(c, s) + Waiters(c, s, j);
    assert |both| == |Rolling(c, s)| + |Waiters(c, s, j)| by {
      assert Rolling(c, s) * Waiters(c, s, j) == {};
    }
    Below(c.producers, both + {p});
  }

  lemma ReserveWaiters(c: Config, s: State, s': State, p: nat, x: Claim, j: nat)
    requires WellFormed(c, s) && WellFormed(c, s') && p < c.producers && j <= |s.line| && x !in s.line
    requires s'.producers == s.producers[p := Reserved(x)] && s'.line == s.line + [x]
    ensures |Waiters(c, s', j)| <= |Waiters(c, s, j)|
  {
    forall q | q in Waiters(c, s', j)
      ensures q in Waiters(c, s, j)
    {
      var i :| 0 <= i < j && i < |s'.line| && s'.line[i] == s'.producers[q].claim;
      assert s.line[i] == s'.line[i] && s.line[i] in s.line;
      assert WaitsBefore(s, q, j);
    }
    Subset(Waiters(c, s', j), Waiters(c, s, j));
  }

  lemma NotInLine(c: Config, s: State, x: Claim)
    requires WellFormed(c, s) && Order(c, s) && x.item.producer < c.producers
    requires x.item.serial == s.serials[x.item.producer]
    ensures x !in s.line
  {
  }

  lemma ReserveDrift(c: Config, s: State, t: seq<nat>, step: Step)
    requires Ledger(c, s, t) && Drift(c, s, t) && Reserves(c, s, step)
    ensures Drift(c, Next(c, s, step), After(c, s, t, step))
  {
    var s', n := Next(c, s, step), |s.line|;
    var x := s'.producers[step.p].claim;
    NotInLine(c, s, x);
    FewProducers(c, s, step.p, n);
    AppendDrift(c, s, s', t, step.p, x);
  }

  lemma AppendDrift(c: Config, s: State, s': State, t: seq<nat>, p: nat, x: Claim)
    requires Drift(c, s, t) && WellFormed(c, s') && p < c.producers && x !in s.line
    requires s'.producers == s.producers[p := Reserved(x)] && s'.line == s.line + [x]
    requires |Rolling(c, s)| + |Waiters(c, s, |s.line|)| < c.producers
    ensures Drift(c, s', t + [TrueWritePos(c, s)])
  {
    var t' := t + [TrueWritePos(c, s)];
    forall j | 0 <= j < |t'|
      ensures DriftAt(c, s', t', j)
    {
      ReserveWaiters(c, s, s', p, x, j);
      assert j < |t| ==> DriftAt(c, s, t, j);
    }
  }

  lemma RejectWaiters(c: Config, s: State, s': State, p: nat, m: nat, j': nat)
    requires WellFormed(c, s) && WellFormed(c, s') && p < c.producers && m < |s.line| && j' < |s.line| - 1
    requires s.producers[p] == Reserved(s.line[m]) && s'.line == s.line[..m] + s.line[m + 1..]
    requires s'.producers == s.producers[p := RollingBack(s.line[m])]
    ensures |Waiters(c, s', j')| + Before(j', m) - j' <= |Waiters(c, s, Before(j', m))|
  {
    var j := Before(j', m);
    forall q | q in Waiters(c, s', j')
      ensures q in Waiters(c, s, j)
    {
      var i :| 0 <= i < j' && i < |s'.line| && s'.line[i] == s'.producers[q].claim;
      assert s.line[Before(i, m)] == s.producers[q].claim;
      assert WaitsBefore(s, q, j);
    }
    if j' < m {
      Subset(Waiters(c, s', j'), Waiters(c, s, j));
    } else {
      assert WaitsBefore(s, p, j);
      Smaller(Waiters(c, s', j'), Waiters(c, s, j), p);
    }
  }

  lemma RemoveDrift(c: Config, s: State, s': State, t: seq<nat>, p: nat, m: nat)
    requires Drift(c, s, t) && WellFormed(c, s') && p < c.producers && m < |s.line|
    requires s.producers[p] == Reserved(s.line[m]) && s'.line == s.line[..m] + s.line[m + 1..]
    requires s'.producers == s.producers[p := RollingBack(s.line[m])]
    ensures Drift(c, s', t[..m] + t[m + 1..])
  {
    var t' := t[..m] + t[m + 1..];
    forall j | 0 <= j < |t'|
      ensures DriftAt(c, s', t', j)
    {
      RejectWaiters(c, s, s', p, m, j);
      assert DriftAt(c, s, t, Before(j, m)) && t'[j] == t[Before(j, m)];
    }
  }

  lemma RejectDrift(c: Config, s: State, t: seq<nat>, p: nat)
    requires Ledger(c, s, t) && Drift(c, s, t) && p < c.producers && s.producers[p].Reserved? && IsFull(c, s, p)
    ensures Drift(c, Next(c, s, LoadReadPos(p)), After(c, s, t, LoadReadPos(p)))
  {
    RemoveDrift(c, s, Next(c, s, LoadReadPos(p)), t, p, PlaceOf(s.line, s.producers[p].claim));
  }

  /** Where the line stays and no push becomes pending, the bound stays. */
  lemma SameLineDrift(c: Config, s: State, s': State, t: seq<nat>)
    requires Drift(c, s, t) && WellFormed(c, s') && s'.line == s.line
    requires forall p :: 0 <= p < c.producers && s'.producers[p].Reserved? ==> s'.producers[p] == s.producers[p]
    ensures Drift(c, s', t)
  {
    forall j | 0 <= j < |t|
      ensures DriftAt(c, s', t, j)
    {
      forall q | q in Waiters(c, s', j)
        ensures q in Waiters(c, s, j)
      {
        assert WaitsBefore(s, q, j);
      }
      Subset(Waiters(c, s', j), Waiters(c, s, j));
      assert DriftAt(c, s, t, j);
    }
  }

  lemma DriftStep(c: Config, s: State, t: seq<nat>, step: Step)
    requires Ledger(c, s, t) && Drift(c, s, t)
    ensures Drift(c, Next(c, s, step), After(c, s, t, step))
  {
    if Reserves(c, s, step) {
      ReserveDrift(c, s, t, step);
    } else if step.LoadReadPos? && step.p < c.producers && s.producers[step.p].Reserved? && IsFull(c, s, step.p) {
      RejectDrift(c, s, t, step.p);
    } else {
      if !step.LoadReadPos? {
        OtherFrame(c, s, step);
      }
      SameLineDrift(c, s, Next(c, s, step), t);
    }
  }

  // ---------- Whole runs ----------

  /** A run ends with a misplaced entry exactly when it was not clean, or began with one. */
  lemma {:induction false} BadIffDirty(c: Config, s: State, t: seq<nat>, steps: seq<Step>) returns (t': seq<nat>)
    requires Ledger(c, s, t) && Drift(c, s, t)
    ensures Ledger(c, Exec(c, s, steps), t') && Drift(c, Exec(c, s, steps), t')
    ensures Bad(t', DoomedPlaces(c, Exec(c, s, steps), [])) <==>
      Bad(t, DoomedPlaces(c, s, steps)) || !Clean(c, s, steps)
    decreases |steps|
  {
    if steps == [] {
      t' := t;
    } else {
      LedgerStep(c, s, t, steps[0]);
      DriftStep(c, s, t, steps[0]);
      BadStep(c, s, t, steps);
      t' := BadIffDirty(c, Next(c, s, steps[0]), After(c, s, t, steps[0]), steps[1..]);
    }
  }

  /** Every reservation in line holds its own number as its ticket. */
  ghost predicate InPlace(c: Config, line: seq<Claim>) {
    forall i :: 0 <= i < |line| ==> line[i].ticket == Norm(c, i)
  }

  lemma NormNear(c: Config, x: nat, i: nat)
    requires i <= x && (c.wraps ==> x < i + WORD)
    ensures Norm(c, x) == Norm(c, i) <==> x == i
  {
  }

  /** Nothing is doomed once the run is over, so misplaced means a ticket above its place. */
  lemma InPlaceIffNotBad(c: Config, s: State, t: seq<nat>)
    requires Ledger(c, s, t) && Drift(c, s, t) && (c.wraps ==> c.producers < WORD)
    ensures InPlace(c, s.line) <==> !Bad(t, DoomedPlaces(c, s, []))
  {
    assert DoomedPlaces(c, s, []) == {};
    forall j | 0 <= j < |t|
      ensures s.line[j].ticket == Norm(c, j) <==> !Misplaced(t, {}, j)
    {
      assert DriftAt(c, s, t, j);
      NormNear(c, t[j], j);
    }
  }

  /**
   For every run from the initial state, with the program's 32-bit counters or unbounded ones: the
   reservations not turned away hold the tickets 0, 1, 2, ... in order if and only if none of them drew
   its ticket inside the window of a push that was turned away.
   */
  lemma TicketsInPlaceIffClean(c: Config, s0: State, steps: seq<Step>)
    requires IsInit(c, s0) && (c.wraps ==> c.producers < WORD)
    ensures InPlace(c, Exec(c, s0, steps).line) <==> Clean(c, s0, steps)
  {
    InitLedger(c, s0);
    var t := BadIffDirty(c, s0, [], steps);
    InPlaceIffNotBad(c, Exec(c, s0, steps), t);
  }

  /** Each of the tickets 0 to |line| - 1 was drawn by exactly one push in line. */
  ghost predicate TicketsExact(line: seq<Claim>) {
    && (forall i :: 0 <= i < |line| ==> line[i].ticket < |line|)
    && (forall i, j :: 0 <= i < j < |line| ==> line[i].ticket != line[j].ticket)
  }

  lemma {:induction false} ExactMeansInPlace(line: seq<Claim>)
    requires TicketsExact(line) && forall i :: 0 <= i < |line| ==> line[i].ticket >= i
    ensures forall i :: 0 <= i < |line| ==> line[i].ticket == i
  {
    if line != [] {
      var n := |line| - 1;
      assert line[n].ticket == n;
      ExactMeansInPlace(line[..n]);
    }
  }

  lemma NotBelowPlace(c: Config, s0: State, steps: seq<Step>)
    requires !c.wraps && IsInit(c, s0)
    ensures var line := Exec(c, s0, steps).line;
      forall i :: 0 <= i < |line| ==> line[i].ticket >= i
  {
    InitLedger(c, s0);
    var t := BadIffDirty(c, s0, [], steps);
  }

  lemma ExactIffInPlace(c: Config, line: seq<Claim>)
    requires !c.wraps && forall i :: 0 <= i < |line| ==> line[i].ticket >= i
    ensures TicketsExact(line) <==> InPlace(c, line)
  {
    if TicketsExact(line) {
      ExactMeansInPlace(line);
    }
  }

  /** With unbounded counters, being in place and each ticket being drawn exactly once are the same. */
  lemma TicketsExactIffClean(c: Config, s0: State, steps: seq<Step>)
    requires !c.wraps && IsInit(c, s0)
    ensures TicketsExact(Exec(c, s0, steps).line) <==> Clean(c, s0, steps)
  {
    TicketsInPlaceIffClean(c, s0, steps);
    NotBelowPlace(c, s0, steps);
    ExactIffInPlace(c, Exec(c, s0, steps).line);
  }
}
