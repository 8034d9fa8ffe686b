/**
 The accepted items in ticket order, and why none is missing from that list: over every run, clean or
 not, an accepted item stays in line, and only the push that is turned away leaves it.
 */
module MpscAccepted {
  import opened Words
  import opened MpscProtocol

  /** The accepted items in ticket order: the reservations that passed the full test. */
  function AcceptedIn(line: seq<Claim>, accepted: set<Item>): seq<Item> {
    if line == [] then []
    else (if line[0].item in accepted then [line[0].item] else []) + AcceptedIn(line[1..], accepted)
  }

  function AcceptedOrder(s: State): seq<Item> {
    AcceptedIn(s.line, s.accepted)
  }

  /** The list names every accepted item and nothing else. */
  ghost predicate AllListed(s: State) {
    forall x :: x in s.accepted <==> x in AcceptedOrder(s)
  }

  predicate InLine(line: seq<Claim>, x: Item) {
    line != [] && (line[0].item == x || InLine(line[1..], x))
  }

  lemma {:induction false} InLineAppend(line: seq<Claim>, y: Claim, x: Item)
    ensures InLine(line + [y], x) <==> InLine(line, x) || y.item == x
  {
    if line == [] {
      assert line + [y] == [y] && [y][1..] == [];
    } else {
      assert (line + [y])[1..] == line[1..] + [y];
      InLineAppend(line[1..], y, x);
    }
  }

  lemma {:induction false} InLineRemove(line: seq<Claim>, y: Claim, x: Item)
    requires InLine(line, x) && x != y.item
    ensures InLine(Remove(line, y), x)
  {
    if line[0] != y {
      var rest := Remove(line[1..], y);
      assert ([line[0]] + rest)[1..] == rest;
      if line[0].item != x {
        InLineRemove(line[1..], y, x);
      }
    }
  }

  lemma {:induction false} AcceptedListed(line: seq<Claim>, accepted: set<Item>, x: Item)
    ensures x in AcceptedIn(line, accepted) <==> x in accepted && InLine(line, x)
  {
    if line != [] {
      AcceptedListed(line[1..], accepted, x);
      var rest := AcceptedIn(line[1..], accepted);
      assert x in [line[0].item] + rest <==> x == line[0].item || x in rest;
    }
  }

  /** The pending push of producer p is in line, is its latest, and has not been accepted. */
  ghost predicate PendingOk(c: Config, s: State, p: nat)
    requires WellFormed(c, s) && p < c.producers
  {
    s.producers[p].Reserved? ==>
      var x := s.producers[p].claim.item;
      x.producer == p && x.serial < s.serials[p] && x !in s.accepted && InLine(s.line, x)
  }

  ghost predicate Listed(c: Config, s: State) {
    && WellFormed(c, s)
    && (forall x :: x in s.accepted ==> InLine(s.line, x))
    && (forall x :: x in s.accepted ==> x.producer < c.producers && x.serial < s.serials[x.producer])
    && (forall p :: 0 <= p < c.producers ==> PendingOk(c, s, p))
  }

  lemma ReserveListed(c: Config, s: State, step: Step)
    requires Listed(c, s) && Reserves(c, s, step)
    ensures Listed(c, Next(c, s, step))
  {
    var s' := Next(c, s, step);
    var claim := s'.producers[step.p].claim;
    forall x | x in s'.accepted
      ensures InLine(s'.line, x)
    {
      InLineAppend(s.line, claim, x);
    }
    forall q | 0 <= q < c.producers
      ensures PendingOk(c, s', q)
    {
      assert PendingOk(c, s, q);
      if s'.producers[q].Reserved? {
        InLineAppend(s.line, claim, s'.producers[q].claim.item);
      }
    }
  }

  lemma LoadListed(c: Config, s: State, p: nat)
    requires Listed(c, s) && p < c.producers && s.producers[p].Reserved?
    ensures Listed(c, Next(c, s, LoadReadPos(p)))
  {
    var s', claim := Next(c, s, LoadReadPos(p)), s.producers[p].claim;
    assert PendingOk(c, s, p);
    if IsFull(c, s, p) {
      forall x | x in s'.accepted
        ensures InLine(s'.line, x)
      {
        InLineRemove(s.line, claim, x);
      }
      forall q | 0 <= q < c.producers
        ensures PendingOk(c, s', q)
      {
        assert PendingOk(c, s, q);
        if s'.producers[q].Reserved? {
          InLineRemove(s.line, claim, s.producers[q].claim.item);
        }
      }
    } else {
      forall q | 0 <= q < c.producers
        ensures PendingOk(c, s', q)
      {
        assert PendingOk(c, s, q);
      }
    }
  }

  lemma OtherFrame(c: Config, s: State, step: Step)
    requires WellFormed(c, s) && !step.FetchAdd? && !step.LoadReadPos?
    ensures var s' := Next(c, s, step);
      && s'.line == s.line && s'.accepted == s.accepted && s'.serials == s.serials
      && forall q :: 0 <= q < c.producers && s'.producers[q].Reserved? ==> s'.producers[q] == s.producers[q]
  {
  }

  lemma OtherListed(c: Config, s: State, s': State)
    requires Listed(c, s) && WellFormed(c, s')
    requires s'.line == s.line && s'.accepted == s.accepted && s'.serials == s.serials
    requires forall q :: 0 <= q < c.producers && s'.producers[q].Reserved? ==> s'.producers[q] == s.producers[q]
    ensures Listed(c, s')
  {
    forall q | 0 <= q < c.producers
      ensures PendingOk(c, s', q)
    {
      assert PendingOk(c, s, q);
    }
  }

  lemma ListedStep(c: Config, s: State, step: Step)
    requires Listed(c, s)
    ensures Listed(c, Next(c, s, step))
  {
    if step.FetchAdd? {
      if Reserves(c, s, step) {
        ReserveListed(c, s, step);
      }
    } else if step.LoadReadPos? {
      if step.p < c.producers && s.producers[step.p].Reserved? {
        LoadListed(c, s, step.p);
      }
    } else {
      OtherFrame(c, s, step);
      OtherListed(c, s, Next(c, s, step));
    }
  }

  lemma {:induction false} ListedRun(c: Config, s: State, steps: seq<Step>)
    requires Listed(c, s)
    ensures Listed(c, Exec(c, s, steps))
    decreases |steps|
  {
    if steps != [] {
      ListedStep(c, s, steps[0]);
      ListedRun(c, Next(c, s, steps[0]), steps[1..]);
    }
  }

  /** Over every run the list of accepted items is complete. */
  lemma AcceptedAreListed(c: Config, s0: State, steps: seq<Step>)
    requires IsInit(c, s0)
    ensures AllListed(Exec(c, s0, steps))
  {
    ListedRun(c, s0, steps);
    var s := Exec(c, s0, steps);
    forall x
      ensures x in s.accepted <==> x in AcceptedOrder(s)
    {
      AcceptedListed(s.line, s.accepted, x);
    }
  }

  // ---------- What the items carry ----------

  /** The data of producer p's pushes in a run, in order. */
  function PushesOf(c: Config, s: State, steps: seq<Step>, p: nat): seq<seq<byte>>
    requires WellFormed(c, s)
    decreases |steps|
  {
    if steps == [] then []
    else
      (if Reserves(c, s, steps[0]) && steps[0].p == p then [steps[0].data] else [])
      + PushesOf(c, Next(c, s, steps[0]), steps[1..], p)
  }

  /** The item is what its producer pushed, at the place its serial number says. */
  predicate Genuine(c: Config, s0: State, steps: seq<Step>, x: Item)
    requires WellFormed(c, s0)
  {
    var pushes := PushesOf(c, s0, steps, x.producer);
    x.serial < |pushes| && pushes[x.serial] == x.data
  }

  /** `before[p]` holds what producer p has pushed so far; items in line carry it. */
  ghost predicate Carries(c: Config, s: State, before: seq<seq<seq<byte>>>) {
    && WellFormed(c, s) && |before| == c.producers
    && (forall p :: 0 <= p < c.producers ==> s.serials[p] == |before[p]|)
    && (forall i :: 0 <= i < |s.line| ==> CarriedBy(before, s.line[i].item))
  }

  predicate CarriedBy(before: seq<seq<seq<byte>>>, x: Item) {
    x.producer < |before| && x.serial < |before[x.producer]| && before[x.producer][x.serial] == x.data
  }

  function Told(c: Config, s: State, before: seq<seq<seq<byte>>>, step: Step): (after: seq<seq<seq<byte>>>)
    requires WellFormed(c, s) && |before| == c.producers
    ensures |after| == |before|
  {
    if Reserves(c, s, step) then before[step.p := before[step.p] + [step.data]] else before
  }

  lemma {:induction false} RemoveWithin(line: seq<Claim>, x: Claim)
    ensures forall i :: 0 <= i < |Remove(line, x)| ==> Remove(line, x)[i] in line
  {
    if line != [] && line[0] != x {
      RemoveWithin(line[1..], x);
    }
  }

  lemma CarriesStep(c: Config, s: State, before: seq<seq<seq<byte>>>, step: Step)
    requires Carries(c, s, before)
    ensures Carries(c, Next(c, s, step), Told(c, s, before, step))
  {
    var s', after := Next(c, s, step), Told(c, s, before, step);
    if step.LoadReadPos? && step.p < c.producers && s.producers[step.p].Reserved? {
      RemoveWithin(s.line, s.producers[step.p].claim);
    }
    forall i | 0 <= i < |s'.line|
      ensures CarriedBy(after, s'.line[i].item)
    {
      if !(Reserves(c, s, step) && i == |s.line|) {
        assert s'.line[i] in s.line;
        var j :| 0 <= j < |s.line| && s.line[j] == s'.line[i];
        assert CarriedBy(before, s.line[j].item);
      }
    }
  }

  lemma {:induction false} CarriesRun(c: Config, s: State, before: seq<seq<seq<byte>>>, steps: seq<Step>)
    returns (after: seq<seq<seq<byte>>>)
    requires Carries(c, s, before)
    ensures Carries(c, Exec(c, s, steps), after)
    ensures forall p :: 0 <= p < c.producers ==> after[p] == before[p] + PushesOf(c, s, steps, p)
    decreases |steps|
  {
    if steps == [] {
      after := before;
    } else {
      CarriesStep(c, s, before, steps[0]);
      var told := Told(c, s, before, steps[0]);
      var rest := Next(c, s, steps[0]);
      after := CarriesRun(c, rest, told, steps[1..]);
      forall p | 0 <= p < c.producers
        ensures after[p] == before[p] + PushesOf(c, s, steps, p)
      {
        assert after[p] == told[p] + PushesOf(c, rest, steps[1..], p);
      }
    }
  }

  lemma {:induction false} FindInLine(line: seq<Claim>, x: Item) returns (i: nat)
    requires InLine(line, x)
    ensures i < |line| && line[i].item == x
  {
    if line[0].item == x {
      i := 0;
    } else {
      var j := FindInLine(line[1..], x);
      i := j + 1;
    }
  }

  /** Over every run, whatever stands in line is what its producer pushed. */
  lemma LineIsGenuine(c: Config, s0: State, steps: seq<Step>)
    requires IsInit(c, s0)
    ensures forall i :: 0 <= i < |Exec(c, s0, steps).line| ==> Genuine(c, s0, steps, Exec(c, s0, steps).line[i].item)
  {
    var none: seq<seq<seq<byte>>> := seq(c.producers, _ => []);
    var after := CarriesRun(c, s0, none, steps);
    var line := Exec(c, s0, steps).line;
    forall i | 0 <= i < |line|
      ensures Genuine(c, s0, steps, line[i].item)
    {
      assert CarriedBy(after, line[i].item);
      var p := line[i].item.producer;
      assert after[p] == none[p] + PushesOf(c, s0, steps, p) == PushesOf(c, s0, steps, p);
    }
  }

  /** And so is every accepted item: its data is that of its push. */
  lemma AcceptedAreGenuine(c: Config, s0: State, steps: seq<Step>)
    requires IsInit(c, s0)
    ensures forall x :: x in Exec(c, s0, steps).accepted ==> Genuine(c, s0, steps, x)
  {
    ListedRun(c, s0, steps);
    LineIsGenuine(c, s0, steps);
    var s := Exec(c, s0, steps);
    forall x | x in s.accepted
      ensures Genuine(c, s0, steps, x)
    {
      var i := FindInLine(s.line, x);
      assert Genuine(c, s0, steps, s.line[i].item);
    }
  }
}
