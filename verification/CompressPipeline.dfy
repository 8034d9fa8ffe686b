/**
 Asynchronous compression: writers submit tasks under the file manager's lock, one worker thread
 executes them, Deinit stops and joins it. The task queue is the lock-free ring, step by step.
 */
module CompressPipeline {
  import opened Words
  import opened Options
  import opened MpscProtocol
  import opened MpscAccepted
  import opened MpscFifo
  import MpscCalls
  import MpscWrap

  const COMPRESS_QUEUE_SIZE: nat := 64

  datatype Worker =
    | Checking                              // about to load the running flag
    | Popping(draining: bool)               // inside Pop
    | Compressing(task: Item, draining: bool)
    | Exited

  /** The caller of Deinit that finds the worker running, and stops it. */
  datatype Shutdown = NotCalled | Joining | Returned

  /**
   `early` counts the other callers of Deinit, which find the flag cleared and return at once;
   `trace` lists the queue's own steps so far.
   */
  datatype World = World(
    queue: State, lock: Option<nat>, initialized: bool, running: bool,
    worker: Worker, shutdown: Shutdown, early: nat, executed: seq<Item>, trace: seq<Step>)

  datatype Event =
    | Acquire(p: nat)          // a writer takes the lock; it leaves at once if not initialized
    | Submit(step: Step)       // the lock's holder runs a step of Push
    | Release(p: nat)
    | StopAndUnlock            // the critical section of a call of Deinit
    | LoadFlag
    | Take(step: Step)         // the worker runs a step of Pop
    | Compress
    | Join

  function TaskQueue(writers: nat): Config {
    Config(COMPRESS_QUEUE_SIZE, writers, true)
  }

  ghost predicate IsStart(c: Config, w: World) {
    && IsInit(c, w.queue) && w.lock == None && w.initialized && w.running
    && w.worker == Checking && w.shutdown == NotCalled && w.early == 0 && w.executed == [] && w.trace == []
  }

  predicate PopStep(step: Step) {
    step.PopLoadReadPos? || step.PopLoadSeq? || step.PopCopyOut? || step.PopReleaseSlot? || step.PopAdvance?
  }

  function QueueStep(c: Config, w: World, step: Step): World
    requires WellFormed(c, w.queue)
  {
    w.(queue := Next(c, w.queue, step), trace := w.trace + [step])
  }

  /** Where the worker goes once a step of Pop is done: Pop has returned when the consumer is ready again. */
  function AfterPop(before: State, after: State, draining: bool): Worker {
    if before.consumer.Ready? || !after.consumer.Ready? then Popping(draining)
    else if |after.popped| > |before.popped| then Compressing(after.popped[|after.popped| - 1], draining)
    else if draining then Exited
    else Checking
  }

  /** Events that are not enabled leave the world alone. */
  function Happen(c: Config, w: World, e: Event): (w': World)
    requires WellFormed(c, w.queue)
    ensures WellFormed(c, w'.queue)
  {
    match e
    case Acquire(p) =>
      if w.lock == None && w.initialized && p < c.producers then w.(lock := Some(p)) else w
    case Submit(step) =>
      if !PopStep(step) && w.lock == Some(step.p) then QueueStep(c, w, step) else w
    case Release(p) =>
      if w.lock == Some(p) && p < c.producers && w.queue.producers[p].Idle? then w.(lock := None) else w
    case StopAndUnlock =>
      if w.lock != None then w
      else if w.running then w.(initialized := false, running := false, shutdown := Joining)
      else w.(initialized := false, early := w.early + 1)
    case LoadFlag =>
      if w.worker == Checking then w.(worker := Popping(!w.running)) else w
    case Take(step) =>
      if w.worker.Popping? && PopStep(step) then
        QueueStep(c, w, step).(worker := AfterPop(w.queue, Next(c, w.queue, step), w.worker.draining))
      else w
    case Compress =>
      if w.worker.Compressing? then
        w.(executed := w.executed + [w.worker.task],
           worker := if w.worker.draining then Popping(true) else Checking)
      else w
    case Join =>
      if w.shutdown == Joining && w.worker == Exited then w.(shutdown := Returned) else w
  }

  function Unfold(c: Config, w: World, events: seq<Event>): (w': World)
    requires WellFormed(c, w.queue)
    ensures WellFormed(c, w'.queue)
    decreases |events|
  {
    if events == [] then w else Unfold(c, Happen(c, w, events[0]), events[1..])
  }

  // ---------- What every event keeps ----------

  ghost predicate LockOk(c: Config, w: World) {
    && WellFormed(c, w.queue)
    && (forall p :: 0 <= p < c.producers && w.lock != Some(p) ==> w.queue.producers[p].Idle?)
  }

  ghost predicate TraceOk(c: Config, q0: State, w: World) {
    && WellFormed(c, q0) && w.queue == Exec(c, q0, w.trace) && Serialised(c, q0, w.trace)
  }

  predicate FlagsOk(w: World) {
    && (w.running <==> w.shutdown == NotCalled)
    && (w.shutdown != NotCalled ==> !w.initialized && w.lock == None)
    && ((w.worker.Popping? || w.worker.Compressing?) && w.worker.draining ==> !w.running)
    && (w.worker == Exited ==> !w.running)
    && (w.shutdown == Returned ==> w.worker == Exited)
  }

  function InHand(worker: Worker): seq<Item> {
    if worker.Compressing? then [worker.task] else []
  }

  predicate WorkerOk(w: World) {
    && (!w.worker.Popping? ==> w.queue.consumer.Ready?)
    && w.queue.popped == w.executed + InHand(w.worker)
  }

  predicate ExitOk(w: World) {
    w.worker == Exited ==> w.queue.popped == AcceptedOrder(w.queue)
  }

  ghost predicate Inv(c: Config, q0: State, w: World) {
    LockOk(c, w) && TraceOk(c, q0, w) && FlagsOk(w) && WorkerOk(w) && ExitOk(w)
  }

  ghost predicate NoWindow(c: Config, s: State)
    requires WellFormed(c, s)
  {
    forall q :: 0 <= q < c.producers ==> !s.producers[q].Reserved? && !s.producers[q].RollingBack?
  }

  lemma SerialisedOne(c: Config, s: State, step: Step)
    requires WellFormed(c, s) && (Reserves(c, s, step) ==> NoWindow(c, s))
    ensures Serialised(c, s, [step]) && Exec(c, s, [step]) == Next(c, s, step)
  {
    assert [step][1..] == [];
  }

  lemma {:induction false} SerialisedThen(c: Config, s: State, steps: seq<Step>, step: Step)
    requires WellFormed(c, s) && Serialised(c, s, steps)
    requires Reserves(c, Exec(c, s, steps), step) ==> NoWindow(c, Exec(c, s, steps))
    ensures Serialised(c, s, steps + [step])
    ensures Exec(c, s, steps + [step]) == Next(c, Exec(c, s, steps), step)
    decreases |steps|
  {
    if steps == [] {
      SerialisedOne(c, s, step);
      assert steps + [step] == [step];
    } else {
      assert (steps + [step])[1..] == steps[1..] + [step];
      SerialisedThen(c, Next(c, s, steps[0]), steps[1..], step);
    }
  }

  /** Only the step's own producer moves. */
  lemma OthersStay(c: Config, s: State, step: Step, q: nat)
    requires WellFormed(c, s) && q < c.producers && (PopStep(step) || step.p != q)
    ensures Next(c, s, step).producers[q] == s.producers[q]
  {
  }

  /** A producer's step leaves the consumer's side alone, and the other way round. */
  lemma SidesApart(c: Config, s: State, step: Step)
    requires WellFormed(c, s)
    ensures var t := Next(c, s, step);
      if PopStep(step) then t.line == s.line && t.accepted == s.accepted && t.producers == s.producers
      else t.popped == s.popped && t.consumer == s.consumer
  {
  }

  lemma PopReturns(c: Config, s: State, step: Step)
    requires WellFormed(c, s) && PopStep(step)
    ensures var t := Next(c, s, step);
      && (t.popped == s.popped || (t.consumer.Ready? && !s.consumer.Ready? && |t.popped| == |s.popped| + 1 && s.popped <= t.popped))
      && (!s.consumer.Ready? && t.consumer.Ready? && t.popped == s.popped ==> s.consumer.AtSlot? && step == PopLoadSeq)
  {
  }

  lemma SubmitKeeps(c: Config, q0: State, w: World, step: Step)
    requires Inv(c, q0, w) && !PopStep(step) && w.lock == Some(step.p)
    ensures Inv(c, q0, Happen(c, w, Submit(step)))
  {
    var s, t := w.queue, Next(c, w.queue, step);
    SidesApart(c, s, step);
    forall q | 0 <= q < c.producers && w.lock != Some(q)
      ensures t.producers[q].Idle?
    {
      OthersStay(c, s, step, q);
    }
    if Reserves(c, s, step) {
      forall q | 0 <= q < c.producers
        ensures !s.producers[q].Reserved? && !s.producers[q].RollingBack?
      {
        assert q == step.p || w.lock != Some(q);
      }
    }
    SerialisedThen(c, q0, w.trace, step);
    assert w.running;
  }

  lemma TakeTrace(c: Config, q0: State, w: World, step: Step)
    requires LockOk(c, w) && TraceOk(c, q0, w) && PopStep(step)
    ensures LockOk(c, QueueStep(c, w, step)) && TraceOk(c, q0, QueueStep(c, w, step))
  {
    SidesApart(c, w.queue, step);
    SerialisedThen(c, q0, w.trace, step);
  }

  /** When the draining worker leaves, the queue is quiescent, so what it saw as empty is empty. */
  lemma LeavesDrained(c: Config, q0: State, w: World, step: Step)
    requires MpscWrap.WordConfig(c) && IsInit(c, q0) && Inv(c, q0, w)
    requires w.worker.Popping? && PopStep(step)
    requires AfterPop(w.queue, Next(c, w.queue, step), w.worker.draining) == Exited
    ensures Next(c, w.queue, step).popped == AcceptedOrder(Next(c, w.queue, step)) && AllListed(Next(c, w.queue, step))
  {
    SidesApart(c, w.queue, step);
    PopReturns(c, w.queue, step);
    SerialisedIsClean(c, q0, w.trace);
    assert NoPush(c, w.queue);
    assert w.trace + [] == w.trace;
    EmptyMeansDrained(c, q0, w.trace, []);
  }

  lemma TakeWorker(c: Config, w: World, step: Step)
    requires WellFormed(c, w.queue) && FlagsOk(w) && WorkerOk(w) && w.worker.Popping? && PopStep(step)
    ensures FlagsOk(Happen(c, w, Take(step))) && WorkerOk(Happen(c, w, Take(step)))
  {
    PopReturns(c, w.queue, step);
    var s, t := w.queue, Next(c, w.queue, step);
    if AfterPop(s, t, w.worker.draining).Compressing? {
      assert t.popped == s.popped + [t.popped[|t.popped| - 1]];
    }
  }

  lemma TakeExit(c: Config, q0: State, w: World, step: Step)
    requires MpscWrap.WordConfig(c) && IsInit(c, q0) && Inv(c, q0, w)
    requires w.worker.Popping? && PopStep(step)
    ensures ExitOk(Happen(c, w, Take(step)))
  {
    if AfterPop(w.queue, Next(c, w.queue, step), w.worker.draining) == Exited {
      LeavesDrained(c, q0, w, step);
    }
  }

  /** Where the worker stands does not matter to the lock and the trace. */
  lemma WorkerApart(c: Config, q0: State, w: World, worker: Worker)
    requires LockOk(c, w) && TraceOk(c, q0, w)
    ensures LockOk(c, w.(worker := worker)) && TraceOk(c, q0, w.(worker := worker))
  {
  }

  lemma TakeKeeps(c: Config, q0: State, w: World, step: Step)
    requires MpscWrap.WordConfig(c) && IsInit(c, q0) && Inv(c, q0, w)
    requires w.worker.Popping? && PopStep(step)
    ensures Inv(c, q0, Happen(c, w, Take(step)))
  {
    TakeTrace(c, q0, w, step);
    WorkerApart(c, q0, QueueStep(c, w, step), Happen(c, w, Take(step)).worker);
    TakeWorker(c, w, step);
    TakeExit(c, q0, w, step);
  }

  lemma HappenKeeps(c: Config, q0: State, w: World, e: Event)
    requires MpscWrap.WordConfig(c) && IsInit(c, q0) && Inv(c, q0, w)
    ensures Inv(c, q0, Happen(c, w, e))
  {
    match e
    case Submit(step) =>
      if !PopStep(step) && w.lock == Some(step.p) {
        SubmitKeeps(c, q0, w, step);
      }
    case Take(step) =>
      if w.worker.Popping? && PopStep(step) {
        TakeKeeps(c, q0, w, step);
      }
    case _ =>
  }

  lemma {:induction false} UnfoldKeeps(c: Config, q0: State, w: World, events: seq<Event>)
    requires MpscWrap.WordConfig(c) && IsInit(c, q0) && Inv(c, q0, w)
    ensures Inv(c, q0, Unfold(c, w, events))
    decreases |events|
  {
    if events != [] {
      HappenKeeps(c, q0, w, events[0]);
      UnfoldKeeps(c, q0, Happen(c, w, events[0]), events[1..]);
    }
  }

  /** The queue's step that an event takes, if it is enabled. */
  function StepOf(w: World, e: Event): seq<Step> {
    match e
    case Submit(step) => if !PopStep(step) && w.lock == Some(step.p) then [step] else []
    case Take(step) => if w.worker.Popping? && PopStep(step) then [step] else []
    case _ => []
  }

  function QueueSteps(c: Config, w: World, events: seq<Event>): seq<Step>
    requires WellFormed(c, w.queue)
    decreases |events|
  {
    if events == [] then [] else StepOf(w, events[0]) + QueueSteps(c, Happen(c, w, events[0]), events[1..])
  }

  /** The trace is what the events did to the queue. */
  lemma {:induction false} TraceIsEvents(c: Config, w: World, events: seq<Event>)
    requires WellFormed(c, w.queue)
    ensures Unfold(c, w, events).trace == w.trace + QueueSteps(c, w, events)
    decreases |events|
  {
    if events != [] {
      var w', rest := Happen(c, w, events[0]), events[1..];
      TraceIsEvents(c, w', rest);
      TraceStep(c, w, events[0]);
      Assoc(w.trace, StepOf(w, events[0]), QueueSteps(c, w', rest));
    }
  }

  lemma TraceStep(c: Config, w: World, e: Event)
    requires WellFormed(c, w.queue)
    ensures Happen(c, w, e).trace == w.trace + StepOf(w, e)
  {
  }

  lemma Assoc(a: seq<Step>, b: seq<Step>, d: seq<Step>)
    ensures (a + b) + d == a + (b + d)
  {
  }

  /**
   At every moment the executed tasks are a prefix of the accepted ones, in push order, no accepted task
   is missing from that list, and each is what its writer submitted; once the worker has left, the executed tasks are all of them, each
   executed once, and the Deinit that stopped the worker returns only then.
   */
  lemma EveryTaskExecuted(writers: nat, w: World, events: seq<Event>)
    requires COMPRESS_QUEUE_SIZE + writers < WORD && IsStart(TaskQueue(writers), w)
    ensures var t := Unfold(TaskQueue(writers), w, events);
      && t.executed <= AcceptedOrder(t.queue) && AllListed(t.queue)
      && (forall x :: x in t.queue.accepted ==>
            Genuine(TaskQueue(writers), w.queue, QueueSteps(TaskQueue(writers), w, events), x))
      && OwnOrder(AcceptedOrder(t.queue))
      && (t.worker == Exited ==> t.executed == AcceptedOrder(t.queue) && NoPush(TaskQueue(writers), t.queue))
      && (t.shutdown == Returned ==> t.worker == Exited)
  {
    var c := TaskQueue(writers);
    SizeAccepted();
    UnfoldKeeps(c, w.queue, w, events);
    QueueFacts(c, w.queue, Unfold(c, w, events));
    TraceIsEvents(c, w, events);
    assert w.trace + QueueSteps(c, w, events) == QueueSteps(c, w, events);
  }

  lemma QueueFacts(c: Config, q0: State, w: World)
    requires MpscWrap.WordConfig(c) && IsInit(c, q0) && Inv(c, q0, w)
    ensures w.executed <= AcceptedOrder(w.queue) && AllListed(w.queue) && OwnOrder(AcceptedOrder(w.queue))
    ensures forall x :: x in w.queue.accepted ==> Genuine(c, q0, w.trace, x)
    ensures w.worker == Exited ==> w.executed == AcceptedOrder(w.queue) && NoPush(c, w.queue)
  {
    SerialisedIsClean(c, q0, w.trace);
    assert w.trace + [] == w.trace;
    Fifo(c, q0, w.trace, []);
  }

  // ---------- Deinit can always return ----------

  /** How far the worker is from the end of its current round. */
  function PcRank(worker: Worker, consumer: Consumer): nat {
    match worker
    case Exited => 0
    case Checking => 5
    case Compressing(_, draining) => if draining then 5 else 6
    case Popping(draining) =>
      (if draining then 0 else 6) +
      match consumer
      case Ready => 4
      case AtSlot(_) => 3
      case Draining(_) => 2
      case Releasing(_, _) => 1
      case Advancing(_, _) => 0
  }

  /** What the worker does next. */
  function NextEvent(w: World): Event {
    match w.worker
    case Exited => Join
    case Checking => LoadFlag
    case Compressing(_, _) => Compress
    case Popping(_) =>
      match w.queue.consumer
      case Ready => Take(PopLoadReadPos)
      case AtSlot(_) => Take(PopLoadSeq)
      case Draining(_) => Take(PopCopyOut)
      case Releasing(_, _) => Take(PopReleaseSlot)
      case Advancing(_, _) => Take(PopAdvance)
  }

  function Waiting(w: World): int {
    |AcceptedOrder(w.queue)| - |w.queue.popped|
  }

  lemma NoneNegative(c: Config, q0: State, w: World)
    requires MpscWrap.WordConfig(c) && IsInit(c, q0) && Inv(c, q0, w)
    ensures Waiting(w) >= 0
  {
    SerialisedIsClean(c, q0, w.trace);
    assert w.trace + [] == w.trace;
    Fifo(c, q0, w.trace, []);
  }

  /** Each event brings the worker closer: it finishes a round, or takes one of the waiting tasks. */
  lemma WorkerAdvances(c: Config, w: World)
    requires WellFormed(c, w.queue) && FlagsOk(w) && WorkerOk(w) && w.shutdown == Joining && w.worker != Exited
    ensures var t := Happen(c, w, NextEvent(w));
      && t.shutdown == Joining && Waiting(t) <= Waiting(w)
      && (Waiting(t) == Waiting(w) ==> PcRank(t.worker, t.queue.consumer) < PcRank(w.worker, w.queue.consumer))
  {
    if w.worker.Popping? {
      PopAdvances(c, w);
    }
  }

  lemma PopAdvances(c: Config, w: World)
    requires WellFormed(c, w.queue) && w.worker.Popping?
    ensures var t := Happen(c, w, NextEvent(w));
      && t.shutdown == w.shutdown && Waiting(t) <= Waiting(w)
      && (Waiting(t) == Waiting(w) ==> PcRank(t.worker, t.queue.consumer) < PcRank(w.worker, w.queue.consumer))
  {
    SidesApart(c, w.queue, NextEvent(w).step);
  }

  lemma {:induction false} CanReturn(c: Config, q0: State, w: World) returns (more: seq<Event>)
    requires MpscWrap.WordConfig(c) && IsInit(c, q0) && Inv(c, q0, w) && w.shutdown == Joining
    ensures Unfold(c, w, more).shutdown == Returned
    decreases Waiting(w), PcRank(w.worker, w.queue.consumer)
  {
    var e := NextEvent(w);
    if w.worker == Exited {
      UnfoldOne(c, w, e);
      more := [e];
    } else {
      var t := Happen(c, w, e);
      WorkerAdvances(c, w);
      HappenKeeps(c, q0, w, e);
      NoneNegative(c, q0, w);
      NoneNegative(c, q0, t);
      var rest := CanReturn(c, q0, t);
      UnfoldCons(c, w, e, rest);
      more := [e] + rest;
    }
  }

  /** Whatever has happened since Deinit stopped the worker, some continuation lets it return. */
  lemma DeinitCanReturn(writers: nat, w: World, events: seq<Event>) returns (more: seq<Event>)
    requires COMPRESS_QUEUE_SIZE + writers < WORD && IsStart(TaskQueue(writers), w)
    requires Unfold(TaskQueue(writers), w, events).shutdown == Joining
    ensures Unfold(TaskQueue(writers), w, events + more).shutdown == Returned
  {
    var c := TaskQueue(writers);
    SizeAccepted();
    UnfoldKeeps(c, w.queue, w, events);
    more := CanReturn(c, w.queue, Unfold(c, w, events));
    UnfoldAppend(c, w, events, more);
  }

  // ---------- A second caller of Deinit ----------

  lemma {:induction false} UnfoldAppend(c: Config, w: World, a: seq<Event>, b: seq<Event>)
    requires WellFormed(c, w.queue)
    ensures Unfold(c, w, a + b) == Unfold(c, Unfold(c, w, a), b)
    decreases |a|
  {
    if a == [] {
      assert a + b == b;
    } else {
      assert (a + b)[1..] == a[1..] + b;
      UnfoldAppend(c, Happen(c, w, a[0]), a[1..], b);
    }
  }

  lemma UnfoldOne(c: Config, w: World, e: Event)
    requires WellFormed(c, w.queue)
    ensures Unfold(c, w, [e]) == Happen(c, w, e)
  {
    assert [e][1..] == [];
  }

  function Submits(steps: seq<Step>): seq<Event> {
    if steps == [] then [] else [Submit(steps[0])] + Submits(steps[1..])
  }

  lemma UnfoldCons(c: Config, w: World, e: Event, rest: seq<Event>)
    requires WellFormed(c, w.queue)
    ensures Unfold(c, w, [e] + rest) == Unfold(c, Happen(c, w, e), rest)
  {
    assert ([e] + rest)[1..] == rest;
  }

  function After(c: Config, w: World, steps: seq<Step>): World
    requires WellFormed(c, w.queue)
  {
    w.(queue := Exec(c, w.queue, steps), trace := w.trace + steps)
  }

  lemma AfterCons(c: Config, w: World, step: Step, rest: seq<Step>)
    requires WellFormed(c, w.queue)
    ensures After(c, QueueStep(c, w, step), rest) == After(c, w, [step] + rest)
  {
    ExecCons(c, w.queue, step, rest);
    assert (w.trace + [step]) + rest == w.trace + ([step] + rest);
  }

  /** The lock's holder runs steps of Push. */
  lemma {:induction false} SubmitsRun(c: Config, w: World, steps: seq<Step>, p: nat)
    requires WellFormed(c, w.queue) && w.lock == Some(p)
    requires forall i :: 0 <= i < |steps| ==> !PopStep(steps[i]) && steps[i].p == p
    ensures Unfold(c, w, Submits(steps)) == After(c, w, steps)
    decreases |steps|
  {
    if steps == [] {
      assert w.trace + [] == w.trace;
    } else {
      var step, rest := steps[0], steps[1..];
      UnfoldCons(c, w, Submit(step), Submits(rest));
      SubmitsRun(c, QueueStep(c, w, step), rest, p);
      AfterCons(c, w, step, rest);
      assert steps == [step] + rest;
    }
  }

  const PUSH: seq<Step> := MpscCalls.PushCall(0, [])

  /** A first push, with nobody in its way, is accepted and returns. */
  lemma FirstPush(c: Config, s: State)
    requires c.Accepted() && c.producers > 0 && IsInit(c, s)
    ensures var t := Exec(c, s, PUSH);
      t.producers[0].Idle? && t.line == [Claim(Item(0, 0, []), 0)] && t.accepted == {Item(0, 0, [])}
  {
    var x := Claim(Item(0, 0, []), 0);
    var s1 := s.(writePos := Norm(c, 1), producers := s.producers[0 := Reserved(x)], serials := s.serials[0 := 1], line := [x]);
    var s2 := s1.(producers := s1.producers[0 := Claiming(x)], accepted := {x.item});
    var s3 := s2.(seqs := s2.seqs[0 := Norm(c, c.capacity)], producers := s2.producers[0 := Copying(x)]);
    var s4 := s3.(buffer := s3.buffer[0 := x.item], producers := s3.producers[0 := Publishing(x)]);
    var s5 := s4.(seqs := s4.seqs[0 := Norm(c, 1)], producers := s4.producers[0 := Idle]);
    assert Slot(c, 0) == 0;
    ExecFive(c, [s, s1, s2, s3, s4, s5], FetchAdd(0, []), LoadReadPos(0), CompareExchange(0, false), CopyIn(0), Publish(0));
  }

  const LOCKED_PUSH: seq<Event> := [Acquire(0)] + (Submits(PUSH) + [Release(0)])

  lemma UnfoldAround(c: Config, w: World, a: Event, b: seq<Event>, d: Event)
    requires WellFormed(c, w.queue)
    ensures Unfold(c, w, [a] + (b + [d])) == Happen(c, Unfold(c, Happen(c, w, a), b), d)
  {
    UnfoldCons(c, w, a, b + [d]);
    UnfoldAppend(c, Happen(c, w, a), b, [d]);
    UnfoldOne(c, Unfold(c, Happen(c, w, a), b), d);
  }

  lemma LockedPush(c: Config, w: World)
    requires c.Accepted() && c.producers > 0 && IsStart(c, w)
    ensures Unfold(c, w, LOCKED_PUSH) == After(c, w, PUSH)
  {
    var w1 := Happen(c, w, Acquire(0));
    assert w1 == w.(lock := Some(0));
    UnfoldAround(c, w, Acquire(0), Submits(PUSH), Release(0));
    SubmitsRun(c, w1, PUSH, 0);
    FirstPush(c, w.queue);
    ReleaseAfter(c, w, w1);
  }

  lemma ReleaseAfter(c: Config, w: World, w1: World)
    requires WellFormed(c, w.queue) && c.producers > 0 && w.lock == None && w1 == w.(lock := Some(0))
    requires Exec(c, w.queue, PUSH).producers[0].Idle?
    ensures Happen(c, After(c, w1, PUSH), Release(0)) == After(c, w, PUSH)
  {
  }

  lemma TwoStops(c: Config, w: World)
    requires WellFormed(c, w.queue) && w.lock == None && w.running
    ensures Unfold(c, w, [StopAndUnlock] + [StopAndUnlock]) ==
      w.(initialized := false, running := false, shutdown := Joining, early := w.early + 1)
  {
    UnfoldAppend(c, w, [StopAndUnlock], [StopAndUnlock]);
    UnfoldOne(c, w, StopAndUnlock);
    UnfoldOne(c, Happen(c, w, StopAndUnlock), StopAndUnlock);
  }

  /** A second caller of Deinit returns at once, before the accepted task is executed. */
  lemma SecondDeinitReturnsEarly(writers: nat, w: World)
    requires writers > 0 && COMPRESS_QUEUE_SIZE + writers < WORD && IsStart(TaskQueue(writers), w)
    ensures var t := Unfold(TaskQueue(writers), w, LOCKED_PUSH + ([StopAndUnlock] + [StopAndUnlock]));
      t.early == 1 && t.shutdown == Joining && t.executed == [] && Item(0, 0, []) in t.queue.accepted
  {
    var c := TaskQueue(writers);
    SizeAccepted();
    FirstPush(c, w.queue);
    LockedPush(c, w);
    UnfoldAppend(c, w, LOCKED_PUSH, [StopAndUnlock] + [StopAndUnlock]);
    TwoStops(c, Unfold(c, w, LOCKED_PUSH));
  }

  lemma SizeAccepted()
    ensures PowerOfTwo(COMPRESS_QUEUE_SIZE)
  {
    assert Pow2(3) == 8 && Pow2(6) == 8 * Pow2(3);
    Pow2Passes(6);
  }
}
