/**
 The table of connected clients: accepting threads and one broadcaster, which drops the lock around
 each send. The class holds the critical sections as the code runs them; the state machine
 interleaves them.
 */
module RemoteClients {
  import opened ErrorCodes

  datatype Slot = Slot(fd: int, active: bool)

  const FREE := Slot(-1, false)

  datatype Table = Table(slots: seq<Slot>, count: nat)

  /** The first inactive slot, or -1. */
  function FreeFrom(slots: seq<Slot>, i: nat): (r: int)
    requires i <= |slots|
    ensures r == -1 || (i <= r < |slots| && !slots[r].active)
    ensures forall j :: i <= j < |slots| && (r == -1 || j < r) ==> slots[j].active
    decreases |slots| - i
  {
    if i == |slots| then -1 else if !slots[i].active then i else FreeFrom(slots, i + 1)
  }

  /** The first slot from i on that a broadcast sends to, or the number of slots. */
  function NextClient(slots: seq<Slot>, i: nat): (r: nat)
    requires i <= |slots|
    ensures i <= r <= |slots| && (r < |slots| ==> slots[r].active && slots[r].fd >= 0)
    ensures forall j :: i <= j < r ==> !slots[j].active || slots[j].fd < 0
    decreases |slots| - i
  {
    if i == |slots| || (slots[i].active && slots[i].fd >= 0) then i else NextClient(slots, i + 1)
  }

  function Closed(t: Table, i: nat): Table {
    if i >= |t.slots| then t
    else Table(t.slots[i := FREE], if t.slots[i].active && t.count > 0 then t.count - 1 else t.count)
  }

  datatype Verdict = Full | NoSlot | Unusable | Admitted(slot: nat)

  /** The critical section of Accept; `nonblock` is the outcome of making the socket non-blocking. */
  function Admit(t: Table, fd: int, nonblock: bool): (r: (Table, Verdict)) {
    if t.count >= |t.slots| then (t, Full)
    else
      var i := FreeFrom(t.slots, 0);
      if i < 0 then (t, NoSlot)
      else if !nonblock then (t, Unusable)
      else (Table(t.slots[i := Slot(fd, true)], t.count + 1), Admitted(i))
  }

  // ---------- The code ----------

  class Server {
    var clients: array<Slot>
    var clientCount: nat

    ghost function View(): Table
      reads this, clients
    {
      Table(clients[..], clientCount)
    }

    constructor (maxClients: nat)
      ensures View() == Table(seq(maxClients, _ => FREE), 0) && fresh(clients)
    {
      clients := new Slot[maxClients](_ => FREE);
      clientCount := 0;
    }

    method FindFreeSlot() returns (slot: int)
      ensures slot == FreeFrom(clients[..], 0)
    {
      for i := 0 to clients.Length
        invariant FreeFrom(clients[..], i) == FreeFrom(clients[..], 0)
      {
        if !clients[i].active {
          return i;
        }
      }
      return -1;
    }

    /** `closed` is the descriptor passed to close, or -1 when there is none to close. */
    method CloseClientInternal(i: nat) returns (closed: int)
      modifies this`clientCount, clients
      ensures View() == Closed(old(View()), i)
      ensures closed == if i < clients.Length && old(clients[i].active) && old(clients[i].fd) >= 0 then old(clients[i].fd) else -1
    {
      closed := -1;
      if i >= clients.Length {
        return;
      }
      if clients[i].active && clients[i].fd >= 0 {
        closed := clients[i].fd;
      }
      if clients[i].active {
        clients[i] := Slot(clients[i].fd, false);
        if clientCount > 0 {
          clientCount := clientCount - 1;
        }
      }
      clients[i] := Slot(-1, clients[i].active);
    }

    method AdmitClient(fd: int, nonblock: bool) returns (rc: Code, verdict: Verdict)
      modifies this`clientCount, clients
      ensures (View(), verdict) == Admit(old(View()), fd, nonblock)
      ensures rc == if verdict.Admitted? then Ok else NetFileError
    {
      if clientCount >= clients.Length {
        return NetFileError, Full;
      }
      var slot := FindFreeSlot();
      if slot < 0 {
        return NetFileError, NoSlot;
      }
      if !nonblock {
        return NetFileError, Unusable;
      }
      clients[slot] := Slot(fd, true);
      clientCount := clientCount + 1;
      return Ok, Admitted(slot);
    }

    /** The loop of Broadcast up to the next send: where to send and to which descriptor. */
    method ScanFrom(start: nat) returns (i: nat, fd: int)
      requires start <= clients.Length
      ensures i == NextClient(clients[..], start)
      ensures fd == if i < clients.Length then clients[i].fd else -1
    {
      i := start;
      while i < clients.Length
        invariant start <= i <= clients.Length
        invariant NextClient(clients[..], i) == NextClient(clients[..], start)
      {
        if clients[i].active && clients[i].fd >= 0 {
          return i, clients[i].fd;
        }
        i := i + 1;
      }
      fd := -1;
    }
  }

  // ---------- Interleaving ----------

  datatype Acceptor =
    | Idle
    | Holding(fd: int)     // accept returned, waiting for the lock
    | Rejecting(fd: int)   // about to close a connection it could not store

  datatype Caster =
    | Resting
    | Sending(i: nat, fd: int)   // the lock is dropped

  /** What must never happen. */
  datatype Fault =
    | NoFreeSlot       // the table was not full but no slot was free
    | ClosedTwice      // close of a descriptor that was not open
    | WrongClient      // the slot closed after a failed send held another descriptor
    | SentToClosed     // send on a descriptor that was not open

  /** `open` holds the descriptors accepted and not yet closed. */
  datatype State = State(table: Table, open: set<int>, acceptors: seq<Acceptor>, caster: Caster, faults: set<Fault>)

  datatype Event =
    | AcceptCall(a: nat, fd: int)
    | AdmitSection(a: nat, nonblock: bool)
    | CloseRejected(a: nat)
    | StartBroadcast
    | SendDone(rc: Code)

  function Blame(bad: bool, f: Fault): set<Fault> {
    if bad then {f} else {}
  }

  /** Run the broadcast loop from slot i to the next send, or to its end. */
  function Scan(s: State, i: nat): State
    requires i <= |s.table.slots|
  {
    var j := NextClient(s.table.slots, i);
    s.(caster := if j < |s.table.slots| then Sending(j, s.table.slots[j].fd) else Resting)
  }

  function CloseFd(s: State, fd: int): State {
    s.(open := s.open - {fd}, faults := s.faults + Blame(fd !in s.open, ClosedTwice))
  }

  /** Close the client in slot i because sending to `fd` failed. */
  function CloseClient(s: State, i: nat, fd: int): State
    requires i < |s.table.slots|
  {
    var slot := s.table.slots[i];
    var t := if slot.active && slot.fd >= 0 then CloseFd(s, slot.fd) else s;
    t.(table := Closed(s.table, i), faults := t.faults + Blame(!slot.active || slot.fd != fd, WrongClient))
  }

  /** A send that would have blocked is skipped; any other failure closes the client. */
  function AfterSend(s: State, rc: Code): (t: State)
    requires s.caster.Sending? && s.caster.i < |s.table.slots|
    ensures |t.table.slots| == |s.table.slots|
  {
    var t := s.(faults := s.faults + Blame(s.caster.fd !in s.open, SentToClosed));
    if rc == Ok || rc == NetTimeout then t else CloseClient(t, s.caster.i, s.caster.fd)
  }

  /** Accept returns a descriptor that is not in use; events that are not enabled change nothing. */
  function Happen(s: State, e: Event): State {
    match e
    case AcceptCall(a, fd) =>
      if a < |s.acceptors| && s.acceptors[a].Idle? && fd >= 0 && fd !in s.open then
        s.(open := s.open + {fd}, acceptors := s.acceptors[a := Holding(fd)])
      else s
    case AdmitSection(a, nonblock) =>
      if a < |s.acceptors| && s.acceptors[a].Holding? then
        var fd := s.acceptors[a].fd;
        var (t, verdict) := Admit(s.table, fd, nonblock);
        s.(table := t,
           acceptors := s.acceptors[a := if verdict.Admitted? then Idle else Rejecting(fd)],
           faults := s.faults + Blame(verdict.NoSlot?, NoFreeSlot))
      else s
    case CloseRejected(a) =>
      if a < |s.acceptors| && s.acceptors[a].Rejecting? then
        CloseFd(s, s.acceptors[a].fd).(acceptors := s.acceptors[a := Idle])
      else s
    case StartBroadcast =>
      if s.caster.Resting? && s.table.count > 0 then Scan(s, 0) else s
    case SendDone(rc) =>
      if s.caster.Sending? && s.caster.i < |s.table.slots| then
        Scan(AfterSend(s, rc), s.caster.i + 1)
      else s
  }

  function Unfold(s: State, events: seq<Event>): State
    decreases |events|
  {
    if events == [] then s else Unfold(Happen(s, events[0]), events[1..])
  }

  ghost predicate IsInit(s: State) {
    && (forall i :: 0 <= i < |s.table.slots| ==> s.table.slots[i] == FREE) && s.table.count == 0
    && s.open == {} && s.faults == {} && s.caster == Resting
    && (forall a :: 0 <= a < |s.acceptors| ==> s.acceptors[a] == Idle)
  }

  // ---------- Counting ----------

  function Active(slots: seq<Slot>): (n: nat)
    ensures n <= |slots|
  {
    if slots == [] then 0
    else Active(slots[..|slots| - 1]) + if slots[|slots| - 1].active then 1 else 0
  }

  lemma {:induction false} ActiveUpdate(slots: seq<Slot>, i: nat, x: Slot)
    requires i < |slots|
    ensures Active(slots[i := x]) == Active(slots) + (if x.active then 1 else 0) - (if slots[i].active then 1 else 0)
    decreases |slots|
  {
    var n := |slots| - 1;
    if i < n {
      ActiveUpdate(slots[..n], i, x);
      assert slots[i := x][..n] == slots[..n][i := x];
    } else {
      assert slots[i := x][..n] == slots[..n];
    }
  }

  lemma {:induction false} AllActive(slots: seq<Slot>)
    requires forall i :: 0 <= i < |slots| ==> slots[i].active
    ensures Active(slots) == |slots|
  {
    if slots != [] {
      AllActive(slots[..|slots| - 1]);
    }
  }

  lemma {:induction false} NoneActive(slots: seq<Slot>)
    requires forall i :: 0 <= i < |slots| ==> !slots[i].active
    ensures Active(slots) == 0
  {
    if slots != [] {
      NoneActive(slots[..|slots| - 1]);
    }
  }

  /** The pigeonhole: below the limit, a slot is free. */
  lemma SomeSlotFree(t: Table)
    requires t.count == Active(t.slots) < |t.slots|
    ensures FreeFrom(t.slots, 0) >= 0
  {
    if FreeFrom(t.slots, 0) == -1 {
      AllActive(t.slots);
    }
  }

  // ---------- What every event keeps ----------

  ghost predicate SlotOk(s: State, i: nat)
    requires i < |s.table.slots|
  {
    var slot := s.table.slots[i];
    if slot.active then slot.fd >= 0 && slot.fd in s.open else slot == FREE
  }

  ghost predicate Slots(s: State) {
    && (forall i :: 0 <= i < |s.table.slots| ==> SlotOk(s, i))
    && (forall i, j :: 0 <= i < j < |s.table.slots| && s.table.slots[i].active && s.table.slots[j].active ==>
          s.table.slots[i].fd != s.table.slots[j].fd)
  }

  ghost predicate AcceptorOk(s: State, a: nat)
    requires a < |s.acceptors|
  {
    !s.acceptors[a].Idle? ==>
      && s.acceptors[a].fd >= 0 && s.acceptors[a].fd in s.open
      && (forall i :: 0 <= i < |s.table.slots| && s.table.slots[i].active ==> s.table.slots[i].fd != s.acceptors[a].fd)
  }

  ghost predicate Acceptors(s: State) {
    && (forall a :: 0 <= a < |s.acceptors| ==> AcceptorOk(s, a))
    && (forall a, b :: 0 <= a < b < |s.acceptors| && !s.acceptors[a].Idle? && !s.acceptors[b].Idle? ==>
          s.acceptors[a].fd != s.acceptors[b].fd)
  }

  ghost predicate CasterOk(s: State) {
    s.caster.Sending? ==>
      s.caster.i < |s.table.slots| && s.table.slots[s.caster.i] == Slot(s.caster.fd, true)
  }

  predicate InTable(s: State, fd: int) {
    exists i :: 0 <= i < |s.table.slots| && s.table.slots[i] == Slot(fd, true)
  }

  predicate WithAcceptor(s: State, fd: int) {
    exists a :: 0 <= a < |s.acceptors| && !s.acceptors[a].Idle? && s.acceptors[a].fd == fd
  }

  /** No descriptor is leaked: each is in the table or in an acceptor's hands. */
  ghost predicate NoLeak(s: State) {
    forall fd :: fd in s.open ==> InTable(s, fd) || WithAcceptor(s, fd)
  }

  ghost predicate Inv(s: State) {
    && s.table.count == Active(s.table.slots)
    && Slots(s) && Acceptors(s) && CasterOk(s) && NoLeak(s) && s.faults == {}
  }

  lemma InitInv(s: State)
    requires IsInit(s)
    ensures Inv(s)
  {
    NoneActive(s.table.slots);
  }

  lemma AcceptKeeps(s: State, a: nat, fd: int)
    requires Inv(s) && a < |s.acceptors| && s.acceptors[a].Idle? && fd >= 0 && fd !in s.open
    ensures Inv(Happen(s, AcceptCall(a, fd)))
  {
    var t := Happen(s, AcceptCall(a, fd));
    forall i | 0 <= i < |t.table.slots|
      ensures SlotOk(t, i) && t.table.slots[i].fd != fd
    {
      assert SlotOk(s, i);
    }
    forall b | 0 <= b < |t.acceptors|
      ensures AcceptorOk(t, b) && (b != a && !t.acceptors[b].Idle? ==> t.acceptors[b].fd != fd)
    {
      assert AcceptorOk(s, b);
    }
    forall x | x in t.open
      ensures InTable(t, x) || WithAcceptor(t, x)
    {
      if x == fd {
        assert t.acceptors[a].fd == x;
      } else if !InTable(s, x) {
        var b :| 0 <= b < |s.acceptors| && !s.acceptors[b].Idle? && s.acceptors[b].fd == x;
        assert t.acceptors[b].fd == x;
      }
    }
  }

  /** An acceptor that gives up its connection for closing still holds it. */
  lemma RejectKeeps(s: State, a: nat)
    requires Inv(s) && a < |s.acceptors| && s.acceptors[a].Holding?
    ensures Inv(s.(acceptors := s.acceptors[a := Rejecting(s.acceptors[a].fd)]))
  {
    var t := s.(acceptors := s.acceptors[a := Rejecting(s.acceptors[a].fd)]);
    forall i | 0 <= i < |t.table.slots|
      ensures SlotOk(t, i)
    {
      assert SlotOk(s, i);
    }
    forall b | 0 <= b < |t.acceptors|
      ensures AcceptorOk(t, b)
    {
      assert AcceptorOk(s, b);
    }
    forall x | x in t.open
      ensures InTable(t, x) || WithAcceptor(t, x)
    {
      if !InTable(s, x) {
        var b :| 0 <= b < |s.acceptors| && !s.acceptors[b].Idle? && s.acceptors[b].fd == x;
        assert t.acceptors[b].fd == x;
      }
    }
  }

  lemma StoreKeeps(s: State, a: nat, k: nat)
    requires Inv(s) && a < |s.acceptors| && s.acceptors[a].Holding?
    requires k < |s.table.slots| && !s.table.slots[k].active
    ensures Inv(s.(table := Table(s.table.slots[k := Slot(s.acceptors[a].fd, true)], s.table.count + 1),
                   acceptors := s.acceptors[a := Idle]))
  {
    var fd := s.acceptors[a].fd;
    var t := s.(table := Table(s.table.slots[k := Slot(fd, true)], s.table.count + 1),
                acceptors := s.acceptors[a := Idle]);
    ActiveUpdate(s.table.slots, k, Slot(fd, true));
    assert AcceptorOk(s, a);
    forall i | 0 <= i < |t.table.slots|
      ensures SlotOk(t, i)
    {
      assert SlotOk(s, i);
    }
    forall b | 0 <= b < |t.acceptors|
      ensures AcceptorOk(t, b)
    {
      assert AcceptorOk(s, b);
    }
    forall x | x in t.open
      ensures InTable(t, x) || WithAcceptor(t, x)
    {
      StoreNoLeak(s, t, a, k, x);
    }
  }

  lemma StoreNoLeak(s: State, t: State, a: nat, k: nat, x: int)
    requires NoLeak(s) && x in s.open && a < |s.acceptors| && s.acceptors[a].Holding?
    requires k < |s.table.slots| && !s.table.slots[k].active
    requires t.table.slots == s.table.slots[k := Slot(s.acceptors[a].fd, true)] && t.acceptors == s.acceptors[a := Idle]
    ensures InTable(t, x) || WithAcceptor(t, x)
  {
    if InTable(s, x) {
      var i :| 0 <= i < |s.table.slots| && s.table.slots[i] == Slot(x, true);
      assert t.table.slots[i] == Slot(x, true);
    } else {
      var b :| 0 <= b < |s.acceptors| && !s.acceptors[b].Idle? && s.acceptors[b].fd == x;
      if b == a {
        assert t.table.slots[k] == Slot(x, true);
      } else {
        assert t.acceptors[b].fd == x;
      }
    }
  }

  lemma AdmitKeeps(s: State, a: nat, nonblock: bool)
    requires Inv(s) && a < |s.acceptors| && s.acceptors[a].Holding?
    ensures Inv(Happen(s, AdmitSection(a, nonblock)))
    ensures !Admit(s.table, s.acceptors[a].fd, nonblock).1.NoSlot?
  {
    var (table, verdict) := Admit(s.table, s.acceptors[a].fd, nonblock);
    if s.table.count < |s.table.slots| {
      SomeSlotFree(s.table);
    }
    assert s.faults + {} == s.faults;
    if verdict.Admitted? {
      StoreKeeps(s, a, verdict.slot);
    } else {
      RejectKeeps(s, a);
    }
  }

  lemma CloseRejectedKeeps(s: State, a: nat)
    requires Inv(s) && a < |s.acceptors| && s.acceptors[a].Rejecting?
    ensures Inv(Happen(s, CloseRejected(a)))
  {
    var t, fd := Happen(s, CloseRejected(a)), s.acceptors[a].fd;
    assert AcceptorOk(s, a);
    forall i | 0 <= i < |t.table.slots|
      ensures SlotOk(t, i)
    {
      assert SlotOk(s, i);
    }
    forall b | 0 <= b < |t.acceptors|
      ensures AcceptorOk(t, b)
    {
      assert AcceptorOk(s, b);
    }
    forall x | x in t.open
      ensures InTable(t, x) || WithAcceptor(t, x)
    {
      if !InTable(s, x) {
        var b :| 0 <= b < |s.acceptors| && !s.acceptors[b].Idle? && s.acceptors[b].fd == x;
        assert t.acceptors[b].fd == x;
      }
    }
  }

  lemma ScanKeeps(s: State, i: nat)
    requires Inv(s.(caster := Resting)) && i <= |s.table.slots|
    ensures Inv(Scan(s, i))
  {
    var r, t := s.(caster := Resting), Scan(s, i);
    forall k | 0 <= k < |t.table.slots|
      ensures SlotOk(t, k)
    {
      assert SlotOk(r, k);
    }
    forall b | 0 <= b < |t.acceptors|
      ensures AcceptorOk(t, b)
    {
      assert AcceptorOk(r, b);
    }
    forall x | x in t.open
      ensures InTable(t, x) || WithAcceptor(t, x)
    {
      assert InTable(r, x) || WithAcceptor(r, x);
    }
  }

  lemma CloseClientKeeps(s: State, i: nat, fd: int)
    requires Inv(s) && s.caster == Sending(i, fd)
    ensures CloseClient(s, i, fd).faults == {} && fd in s.open
    ensures Inv(CloseClient(s, i, fd).(caster := Resting))
  {
    var t := CloseClient(s, i, fd).(caster := Resting);
    assert SlotOk(s, i);
    assert t.open == s.open - {fd} && t.table == Closed(s.table, i);
    assert s.table.count > 0 by {
      if s.table.count == 0 {
        ActiveUpdate(s.table.slots, i, FREE);
      }
    }
    ActiveUpdate(s.table.slots, i, FREE);
    forall k | 0 <= k < |t.table.slots|
      ensures SlotOk(t, k)
    {
      assert SlotOk(s, k);
      assert k != i && s.table.slots[k].active ==> s.table.slots[k].fd != fd;
    }
    forall b | 0 <= b < |t.acceptors|
      ensures AcceptorOk(t, b)
    {
      assert AcceptorOk(s, b);
    }
    forall x | x in t.open
      ensures InTable(t, x) || WithAcceptor(t, x)
    {
      if InTable(s, x) {
        var k :| 0 <= k < |s.table.slots| && s.table.slots[k] == Slot(x, true);
        assert t.table.slots[k] == Slot(x, true);
      } else {
        var b :| 0 <= b < |s.acceptors| && !s.acceptors[b].Idle? && s.acceptors[b].fd == x;
        assert t.acceptors[b].fd == x;
      }
    }
  }

  lemma RestKeeps(s: State)
    requires Inv(s)
    ensures Inv(s.(caster := Resting))
  {
    var t := s.(caster := Resting);
    forall k | 0 <= k < |t.table.slots|
      ensures SlotOk(t, k)
    {
      assert SlotOk(s, k);
    }
    forall b | 0 <= b < |t.acceptors|
      ensures AcceptorOk(t, b)
    {
      assert AcceptorOk(s, b);
    }
    forall x | x in t.open
      ensures InTable(t, x) || WithAcceptor(t, x)
    {
      assert InTable(s, x) || WithAcceptor(s, x);
    }
  }

  lemma AfterSendKeeps(s: State, rc: Code)
    requires Inv(s) && s.caster.Sending?
    ensures Inv(AfterSend(s, rc).(caster := Resting))
  {
    assert SlotOk(s, s.caster.i);
    assert s.(faults := s.faults + {}) == s;
    if rc == Ok || rc == NetTimeout {
      RestKeeps(s);
    } else {
      CloseClientKeeps(s, s.caster.i, s.caster.fd);
    }
  }

  lemma SendDoneKeeps(s: State, rc: Code)
    requires Inv(s) && s.caster.Sending?
    ensures Inv(Happen(s, SendDone(rc)))
  {
    var t, i := AfterSend(s, rc), s.caster.i + 1;
    AfterSendKeeps(s, rc);
    ScanKeeps(t, i);
    assert Happen(s, SendDone(rc)) == Scan(t, i);
  }

  lemma HappenKeeps(s: State, e: Event)
    requires Inv(s)
    ensures Inv(Happen(s, e))
  {
    match e
    case AcceptCall(a, fd) =>
      if a < |s.acceptors| && s.acceptors[a].Idle? && fd >= 0 && fd !in s.open {
        AcceptKeeps(s, a, fd);
      }
    case AdmitSection(a, nonblock) =>
      if a < |s.acceptors| && s.acceptors[a].Holding? {
        AdmitKeeps(s, a, nonblock);
      }
    case CloseRejected(a) =>
      if a < |s.acceptors| && s.acceptors[a].Rejecting? {
        CloseRejectedKeeps(s, a);
      }
    case StartBroadcast =>
      if s.caster.Resting? && s.table.count > 0 {
        RestKeeps(s);
        ScanKeeps(s, 0);
      }
    case SendDone(rc) =>
      if s.caster.Sending? {
        SendDoneKeeps(s, rc);
      }
  }

  lemma {:induction false} UnfoldKeeps(s: State, events: seq<Event>)
    requires Inv(s)
    ensures Inv(Unfold(s, events))
    decreases |events|
  {
    if events != [] {
      HappenKeeps(s, events[0]);
      UnfoldKeeps(Happen(s, events[0]), events[1..]);
    }
  }

  /**
   Under every interleaving: the count is the number of active slots, active slots hold different
   open descriptors, the descriptor being sent to is still in its slot, none of the faults occurs,
   and every open descriptor is accounted for.
   */
  lemma TableStaysConsistent(s: State, events: seq<Event>)
    requires IsInit(s)
    ensures var t := Unfold(s, events);
      && t.faults == {}
      && t.table.count == Active(t.table.slots) <= |t.table.slots|
      && Slots(t) && CasterOk(t) && NoLeak(t)
  {
    InitInv(s);
    UnfoldKeeps(s, events);
  }

  // ---------- What each event does ----------

  /** A new connection is held by the thread that accepted it. */
  lemma AcceptEffect(s: State, a: nat, fd: int)
    requires a < |s.acceptors| && s.acceptors[a].Idle? && fd >= 0 && fd !in s.open
    ensures Happen(s, AcceptCall(a, fd)) == s.(open := s.open + {fd}, acceptors := s.acceptors[a := Holding(fd)])
  {
  }

  /**
   It is stored in the first free slot if and only if there is room and the socket could be made
   non-blocking; otherwise the table stays and the thread closes the connection.
   */
  lemma AdmitEffect(s: State, a: nat, nonblock: bool)
    requires Inv(s) && a < |s.acceptors| && s.acceptors[a].Holding?
    ensures var t, fd := Happen(s, AdmitSection(a, nonblock)), s.acceptors[a].fd;
      if Active(s.table.slots) < |s.table.slots| && nonblock then
        && t.acceptors == s.acceptors[a := Idle] && t.open == s.open && InTable(t, fd)
        && exists k :: FirstFree(s.table.slots, k) && t.table == Table(s.table.slots[k := Slot(fd, true)], s.table.count + 1)
      else
        t == s.(acceptors := s.acceptors[a := Rejecting(fd)])
  {
    var t, fd := Happen(s, AdmitSection(a, nonblock)), s.acceptors[a].fd;
    AdmitKeeps(s, a, nonblock);
    assert s.faults + {} == s.faults;
    if s.table.count < |s.table.slots| {
      SomeSlotFree(s.table);
      var k := FreeFrom(s.table.slots, 0);
      assert FirstFree(s.table.slots, k);
      if nonblock {
        assert t.table.slots[k] == Slot(fd, true);
      }
    }
  }

  predicate FirstFree(slots: seq<Slot>, k: int) {
    0 <= k < |slots| && !slots[k].active && forall j :: 0 <= j < k ==> slots[j].active
  }

  lemma CloseRejectedEffect(s: State, a: nat)
    requires Inv(s) && a < |s.acceptors| && s.acceptors[a].Rejecting?
    ensures var fd := s.acceptors[a].fd;
      && fd in s.open
      && Happen(s, CloseRejected(a)) == s.(open := s.open - {fd}, acceptors := s.acceptors[a := Idle])
  {
    assert AcceptorOk(s, a);
    assert s.faults + {} == s.faults;
  }

  /** A send that fails outright frees the slot and closes its descriptor; any other leaves the table. */
  lemma SendDoneEffect(s: State, rc: Code)
    requires Inv(s) && s.caster.Sending?
    ensures var t, i, fd := Happen(s, SendDone(rc)), s.caster.i, s.caster.fd;
      && t.acceptors == s.acceptors && fd in s.open && i < |s.table.slots|
      && (if rc == Ok || rc == NetTimeout then t.table == s.table && t.open == s.open
          else
            && t.table.slots == s.table.slots[i := FREE] && t.table.count + 1 == s.table.count
            && t.open == s.open - {fd})
  {
    var i := s.caster.i;
    assert SlotOk(s, i);
    ActiveUpdate(s.table.slots, i, FREE);
  }

  // ---------- A whole broadcast ----------

  /** The sends completed in a run: slot and descriptor. */
  function Sends(s: State, events: seq<Event>): seq<(nat, int)>
    decreases |events|
  {
    if events == [] then [] else SentBy(s, events[0]) + Sends(Happen(s, events[0]), events[1..])
  }

  function SentBy(s: State, e: Event): seq<(nat, int)> {
    if e.SendDone? && s.caster.Sending? then [(s.caster.i, s.caster.fd)] else []
  }

  ghost predicate Ascending(sent: seq<(nat, int)>) {
    forall j, k :: 0 <= j < k < |sent| ==> sent[j].0 < sent[k].0
  }

  function Frontier(s: State): nat {
    if s.caster.Sending? then s.caster.i else |s.table.slots|
  }

  /** Clients of the start below the frontier were sent to, those above are still there. */
  ghost predicate Covered(start: seq<Slot>, s: State, sent: seq<(nat, int)>) {
    && |s.table.slots| == |start| && Ascending(sent)
    && (forall k :: 0 <= k < |sent| ==> sent[k].0 < Frontier(s))
    && (forall i :: 0 <= i < |start| && start[i].active ==>
          if i < Frontier(s) then (i, start[i].fd) in sent else s.table.slots[i] == start[i])
  }

  lemma CoverScan(start: seq<Slot>, s: State, i: nat, sent: seq<(nat, int)>)
    requires Slots(s) && i <= |s.table.slots| == |start| && Ascending(sent)
    requires forall k :: 0 <= k < |sent| ==> sent[k].0 < i
    requires forall j :: 0 <= j < |start| && start[j].active ==>
      if j < i then (j, start[j].fd) in sent else s.table.slots[j] == start[j]
    ensures Covered(start, Scan(s, i), sent)
  {
    var next := NextClient(s.table.slots, i);
    forall j | 0 <= j < |start| && start[j].active
      ensures if j < next then (j, start[j].fd) in sent else s.table.slots[j] == start[j]
    {
      assert SlotOk(s, j);
    }
  }

  lemma AfterSendSlots(s: State, rc: Code)
    requires Inv(s) && s.caster.Sending?
    ensures var t, i := AfterSend(s, rc), s.caster.i;
      && Slots(t) && forall j :: 0 <= j < |s.table.slots| && j != i ==> t.table.slots[j] == s.table.slots[j]
  {
    AfterSendKeeps(s, rc);
    var t := AfterSend(s, rc);
    var r := t.(caster := Resting);
    forall k | 0 <= k < |t.table.slots|
      ensures SlotOk(t, k)
    {
      assert SlotOk(r, k);
    }
  }

  lemma CoverSend(start: seq<Slot>, s: State, sent: seq<(nat, int)>, rc: Code)
    requires Inv(s) && Covered(start, s, sent) && s.caster.Sending?
    ensures Covered(start, Happen(s, SendDone(rc)), sent + [(s.caster.i, s.caster.fd)])
  {
    var i, fd := s.caster.i, s.caster.fd;
    var t, more := AfterSend(s, rc), sent + [(i, fd)];
    AfterSendSlots(s, rc);
    forall j | 0 <= j < |start| && start[j].active
      ensures if j < i + 1 then (j, start[j].fd) in more else t.table.slots[j] == start[j]
    {
      if j < i {
        assert (j, start[j].fd) in sent;
      } else if j == i {
        assert more[|sent|] == (j, start[j].fd);
      }
    }
    CoverScan(start, t, i + 1, more);
    assert Happen(s, SendDone(rc)) == Scan(t, i + 1);
  }

  /** Other events only fill slots that were free. */
  lemma CoverOther(start: seq<Slot>, s: State, sent: seq<(nat, int)>, e: Event)
    requires Inv(s) && Covered(start, s, sent) && !e.StartBroadcast? && !(e.SendDone? && s.caster.Sending?)
    ensures Covered(start, Happen(s, e), sent)
  {
    var t := Happen(s, e);
    assert t.caster == s.caster && |t.table.slots| == |s.table.slots|;
    assert forall i :: 0 <= i < |s.table.slots| && s.table.slots[i].active ==> t.table.slots[i] == s.table.slots[i];
  }

  lemma CoverStep(start: seq<Slot>, s: State, sent: seq<(nat, int)>, e: Event)
    requires Inv(s) && Covered(start, s, sent) && !e.StartBroadcast?
    ensures Covered(start, Happen(s, e), sent + SentBy(s, e))
  {
    if e.SendDone? && s.caster.Sending? {
      CoverSend(start, s, sent, e.rc);
    } else {
      CoverOther(start, s, sent, e);
      assert sent + [] == sent;
    }
  }

  lemma Assoc<T>(a: seq<T>, b: seq<T>, c: seq<T>)
    ensures (a + b) + c == a + (b + c)
  {
  }

  lemma {:induction false} CoverRun(start: seq<Slot>, s: State, sent: seq<(nat, int)>, events: seq<Event>)
    requires Inv(s) && Covered(start, s, sent) && forall i :: 0 <= i < |events| ==> !events[i].StartBroadcast?
    ensures Covered(start, Unfold(s, events), sent + Sends(s, events))
    decreases |events|
  {
    if events == [] {
      assert sent + [] == sent;
    } else {
      var t, rest := Happen(s, events[0]), events[1..];
      HappenKeeps(s, events[0]);
      CoverStep(start, s, sent, events[0]);
      CoverRun(start, t, sent + SentBy(s, events[0]), rest);
      Assoc(sent, SentBy(s, events[0]), Sends(t, rest));
    }
  }

  lemma {:induction false} ActiveCounts(slots: seq<Slot>, i: nat)
    requires i < |slots| && slots[i].active
    ensures Active(slots) > 0
  {
    if i < |slots| - 1 {
      ActiveCounts(slots[..|slots| - 1], i);
    }
  }

  lemma CoverStart(s: State)
    requires Inv(s) && s.caster.Resting?
    ensures Covered(s.table.slots, Happen(s, StartBroadcast), [])
  {
    if s.table.count > 0 {
      CoverScan(s.table.slots, s, 0, []);
    } else {
      forall i | 0 <= i < |s.table.slots|
        ensures !s.table.slots[i].active
      {
        if s.table.slots[i].active {
          ActiveCounts(s.table.slots, i);
        }
      }
    }
  }

  /**
   A broadcast, from its start until it rests again, whatever threads accept meanwhile: every client
   connected at the start is sent to exactly once, in slot order, at the descriptor it had.
   */
  lemma BroadcastReachesAll(s: State, events: seq<Event>)
    requires Inv(s) && s.caster.Resting?
    requires forall i :: 0 <= i < |events| ==> !events[i].StartBroadcast?
    requires Unfold(Happen(s, StartBroadcast), events).caster.Resting?
    ensures var sent := Sends(Happen(s, StartBroadcast), events);
      && Ascending(sent)
      && forall i :: 0 <= i < |s.table.slots| && s.table.slots[i].active ==> (i, s.table.slots[i].fd) in sent
  {
    var t := Happen(s, StartBroadcast);
    CoverStart(s);
    HappenKeeps(s, StartBroadcast);
    CoverRun(s.table.slots, t, [], events);
    assert [] + Sends(t, events) == Sends(t, events);
  }

  /** It does rest again: every completed send moves the frontier on. */
  lemma {:induction false} BroadcastEnds(s: State, events: seq<Event>)
    requires Inv(s) && forall i :: 0 <= i < |events| ==> events[i].SendDone?
    requires Frontier(s) + |events| >= |s.table.slots|
    ensures Unfold(s, events).caster.Resting?
    decreases |events|
  {
    if events != [] {
      HappenKeeps(s, events[0]);
      BroadcastEnds(Happen(s, events[0]), events[1..]);
    }
  }
}
