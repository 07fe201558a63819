/**
 The pool executor: submitters, workers and one cancelling shutdown, interleaved at the lock, the
 queue and the future operations. Every step is atomic in the program; a run is any sequence of them.
 */
module Executor {
  import opened Wrappers

  datatype Future = Pending | Running | Cancelled | Notified | Finished

  datatype Item = Task(id: nat) | Sentinel

  /** Where a worker is in its loop: about to `get`, holding an item it has not yet struck from the
      pending set, about to start it, running it, or returned. */
  datatype Worker = Idle | Got(id: nat) | Taken(id: nat) | Executing(id: nat) | Exited

  /** The thread that shuts down: what it has still to cancel, and the sentinels it has put. */
  datatype Shutdown = Open | Closing(todo: set<nat>, put: nat)

  /** Futures are numbered in the order in which they were accepted. `transit` holds those accepted
      by a `submit` that has not reached its `put`; `ran` counts the calls made to each task. */
  datatype State = State(
    futures: seq<Future>,
    pending: set<nat>,
    transit: set<nat>,
    queue: seq<Item>,
    workers: seq<Worker>,
    shutdown: Shutdown,
    ran: multiset<nat>
  )

  datatype Step =
    | Accept
    | Put(id: nat)
    | Get(worker: nat)
    | Discard(worker: nat)
    | Start(worker: nat)
    | Finish(worker: nat)
    | Close
    | Cancel(id: nat)
    | PutSentinel

  function Initial(size: nat): State {
    State([], {}, {}, [], seq(size, _ => Idle), Open, multiset{})
  }

  ghost predicate Enabled(s: State, step: Step) {
    match step
    case Accept => s.shutdown.Open?
    case Put(f) => f in s.transit
    case Get(w) => w < |s.workers| && s.workers[w].Idle? && s.queue != []
    case Discard(w) => w < |s.workers| && s.workers[w].Got?
    case Start(w) => w < |s.workers| && s.workers[w].Taken? && s.workers[w].id < |s.futures|
    case Finish(w) => w < |s.workers| && s.workers[w].Executing? && s.workers[w].id < |s.futures|
    case Close => s.shutdown.Open?
    case Cancel(f) => s.shutdown.Closing? && f in s.shutdown.todo && f < |s.futures|
    case PutSentinel => s.shutdown.Closing? && s.shutdown.todo == {} && s.shutdown.put < |s.workers|
  }

  function CancelFuture(future: Future): Future {
    if future.Pending? then Cancelled else future
  }

  function Next(s: State, step: Step): State
    requires Enabled(s, step)
  {
    match step
    case Accept =>
      var f := |s.futures|;
      s.(futures := s.futures + [Pending], pending := s.pending + {f}, transit := s.transit + {f})
    case Put(f) => s.(transit := s.transit - {f}, queue := s.queue + [Task(f)])
    case Get(w) =>
      var head := s.queue[0];
      s.(queue := s.queue[1..], workers := s.workers[w := if head.Sentinel? then Exited else Got(head.id)])
    case Discard(w) =>
      var f := s.workers[w].id;
      s.(pending := s.pending - {f}, workers := s.workers[w := Taken(f)])
    case Start(w) =>
      var f := s.workers[w].id;
      if s.futures[f].Pending? then
        s.(futures := s.futures[f := Running], workers := s.workers[w := Executing(f)], ran := s.ran + multiset{f})
      else s.(futures := s.futures[f := Notified], workers := s.workers[w := Idle])
    case Finish(w) =>
      var f := s.workers[w].id;
      s.(futures := s.futures[f := Finished], workers := s.workers[w := Idle])
    case Close => s.(pending := {}, shutdown := Closing(s.pending, 0))
    case Cancel(f) =>
      s.(futures := s.futures[f := CancelFuture(s.futures[f])],
         shutdown := Closing(s.shutdown.todo - {f}, s.shutdown.put))
    case PutSentinel =>
      s.(queue := s.queue + [Sentinel], shutdown := Closing({}, s.shutdown.put + 1))
  }

  // What every step keeps

  /** No future is in two places at once. */
  ghost predicate Apart(s: State) {
    && (forall i, j :: 0 <= i < j < |s.queue| && s.queue[i].Task? ==> s.queue[i] != s.queue[j])
    && (forall i :: 0 <= i < |s.queue| && s.queue[i].Task? ==> s.queue[i].id !in s.transit)
    && (forall w :: 0 <= w < |s.workers| && Busy(s.workers[w]) ==>
         s.workers[w].id !in s.transit && Task(s.workers[w].id) !in s.queue)
    && (forall w, v :: 0 <= w < v < |s.workers| && Busy(s.workers[w]) && Busy(s.workers[v]) ==>
         s.workers[w].id != s.workers[v].id)
  }

  predicate Busy(worker: Worker) {
    worker.Got? || worker.Taken? || worker.Executing?
  }

  predicate Waiting(s: State, f: nat) {
    f < |s.futures| && (s.futures[f].Pending? || s.futures[f].Cancelled?)
  }

  /** A future on its way has not started; one being executed is running. */
  ghost predicate OnTheWay(s: State) {
    && (forall f :: f in s.transit ==> Waiting(s, f))
    && (forall i :: 0 <= i < |s.queue| && s.queue[i].Task? ==> Waiting(s, s.queue[i].id))
    && (forall w :: 0 <= w < |s.workers| && (s.workers[w].Got? || s.workers[w].Taken?) ==> Waiting(s, s.workers[w].id))
    && (forall w :: 0 <= w < |s.workers| && s.workers[w].Executing? ==>
         s.workers[w].id < |s.futures| && s.futures[s.workers[w].id].Running?)
  }

  /** A future that can still start is one the shutdown will cancel, or one a worker has taken. */
  ghost predicate Tracked(s: State) {
    && (s.shutdown.Closing? ==> s.pending == {})
    && (forall f :: f in s.pending ==> f < |s.futures|)
    && (s.shutdown.Closing? ==> forall f :: f in s.shutdown.todo ==> f < |s.futures|)
    && (forall f :: 0 <= f < |s.futures| && s.futures[f].Pending? ==> ToBeCancelled(s, f) || Taken(f) in s.workers)
    && (forall f :: 0 <= f < |s.futures| && s.futures[f].Running? ==> Executing(f) in s.workers)
  }

  predicate ToBeCancelled(s: State, f: nat) {
    f in s.pending || (s.shutdown.Closing? && f in s.shutdown.todo)
  }

  predicate WasCancelled(future: Future) { future.Cancelled? || future.Notified? }

  predicate HasRun(future: Future) { future.Running? || future.Finished? }

  ghost predicate RanOnce(s: State) {
    && (forall f :: f in s.ran ==> f < |s.futures|)
    && forall f :: 0 <= f < |s.futures| ==> s.ran[f] == if HasRun(s.futures[f]) then 1 else 0
  }

  function Sentinels(queue: seq<Item>): nat {
    if queue == [] then 0 else (if queue[0].Sentinel? then 1 else 0) + Sentinels(queue[1..])
  }

  function Gone(workers: seq<Worker>): nat {
    if workers == [] then 0 else (if workers[0].Exited? then 1 else 0) + Gone(workers[1..])
  }

  /** Each sentinel put is in the queue or has ended one worker. */
  ghost predicate OnePerWorker(s: State) {
    match s.shutdown
    case Open => Sentinels(s.queue) == 0 && Gone(s.workers) == 0
    case Closing(todo, put) =>
      put <= |s.workers| && Sentinels(s.queue) + Gone(s.workers) == put && (put > 0 ==> todo == {})
  }

  /** A future that waits is somewhere on its way to a worker: no accepted task is lost. */
  ghost predicate NothingLost(s: State) {
    forall f :: 0 <= f < |s.futures| && Waiting(s, f) ==> HasPlace(s, f)
  }

  ghost predicate HasPlace(s: State, f: nat) {
    f in s.transit || Task(f) in s.queue || Got(f) in s.workers || Taken(f) in s.workers
  }

  /** Only a shutdown cancels. */
  ghost predicate CancelledWhenClosed(s: State) {
    forall f :: 0 <= f < |s.futures| && WasCancelled(s.futures[f]) ==> s.shutdown.Closing?
  }

  ghost predicate Inv(s: State) {
    && Apart(s) && OnTheWay(s) && Tracked(s) && RanOnce(s) && OnePerWorker(s)
    && NothingLost(s) && CancelledWhenClosed(s)
  }

  lemma {:induction false} SentinelsAppend(queue: seq<Item>, item: Item)
    ensures Sentinels(queue + [item]) == Sentinels(queue) + (if item.Sentinel? then 1 else 0)
  {
    if queue == [] {
      assert queue + [item] == [item] && Sentinels([item][1..]) == 0;
    } else {
      assert (queue + [item])[1..] == queue[1..] + [item];
      SentinelsAppend(queue[1..], item);
    }
  }

  lemma {:induction false} GoneUpdate(workers: seq<Worker>, w: nat, now: Worker)
    requires w < |workers|
    ensures Gone(workers[w := now])
         == Gone(workers) - (if workers[w].Exited? then 1 else 0) + (if now.Exited? then 1 else 0)
  {
    if w == 0 {
      assert workers[w := now][1..] == workers[1..];
    } else {
      assert workers[w := now][1..] == workers[1..][w - 1 := now];
      GoneUpdate(workers[1..], w - 1, now);
    }
  }

  lemma {:induction false} NoneGone(workers: seq<Worker>)
    requires forall w :: 0 <= w < |workers| ==> !workers[w].Exited?
    ensures Gone(workers) == 0
  {
    if workers != [] {
      NoneGone(workers[1..]);
    }
  }

  lemma {:induction false} SomeoneLeft(workers: seq<Worker>)
    ensures Gone(workers) <= |workers|
    ensures Gone(workers) == |workers| ==> forall w :: 0 <= w < |workers| ==> workers[w].Exited?
  {
    if workers != [] {
      SomeoneLeft(workers[1..]);
      assert forall w :: 0 < w < |workers| ==> workers[w] == workers[1..][w - 1];
    }
  }

  lemma InitialInv(size: nat)
    ensures Inv(Initial(size))
  {
    NoneGone(Initial(size).workers);
  }

  lemma PutKeepsApart(s: State, f: nat)
    requires Apart(s) && f in s.transit
    ensures Apart(Next(s, Put(f)))
  {
  }

  lemma RestOfQueue(queue: seq<Item>)
    requires queue != []
    ensures forall i :: 0 <= i < |queue| - 1 ==> queue[1..][i] == queue[i + 1]
    ensures forall item :: item in queue[1..] ==> item in queue
  {
  }

  lemma GetKeepsApart(s: State, w: nat)
    requires Apart(s) && Enabled(s, Get(w))
    ensures Apart(Next(s, Get(w)))
  {
    RestOfQueue(s.queue);
  }

  lemma GetKeepsOnTheWay(s: State, w: nat)
    requires OnTheWay(s) && Enabled(s, Get(w))
    ensures OnTheWay(Next(s, Get(w)))
  {
    RestOfQueue(s.queue);
  }

  lemma PutKeepsOnTheWay(s: State, f: nat)
    requires OnTheWay(s) && f in s.transit
    ensures OnTheWay(Next(s, Put(f)))
  {
  }

  lemma AcceptKeepsPlaces(s: State)
    requires Apart(s) && OnTheWay(s) && Enabled(s, Accept)
    ensures Apart(Next(s, Accept)) && OnTheWay(Next(s, Accept))
  {
  }

  lemma CancelKeepsOnTheWay(s: State, f: nat)
    requires OnTheWay(s) && Enabled(s, Cancel(f))
    ensures OnTheWay(Next(s, Cancel(f)))
  {
  }

  /** A worker moves on, keeping its future or letting it go. */
  lemma WorkerMovesApart(s: State, t: State, w: nat)
    requires Apart(s) && w < |s.workers| && Busy(s.workers[w])
    requires t.queue == s.queue && t.transit == s.transit
    requires |t.workers| == |s.workers| && t.workers == s.workers[w := t.workers[w]]
    requires (Busy(t.workers[w]) ==> t.workers[w].id == s.workers[w].id)
    ensures Apart(t)
  {
  }

  lemma StepKeepsApart(s: State, step: Step)
    requires Inv(s) && Enabled(s, step)
    ensures Apart(Next(s, step))
  {
    match step {
      case Accept => AcceptKeepsPlaces(s);
      case Put(f) => PutKeepsApart(s, f);
      case Get(w) => GetKeepsApart(s, w);
      case Discard(w) => WorkerMovesApart(s, Next(s, step), w);
      case Start(w) => WorkerMovesApart(s, Next(s, step), w);
      case Finish(w) => WorkerMovesApart(s, Next(s, step), w);
      case _ =>
    }
  }

  /** The future a worker has in hand changes; no other future is affected. */
  lemma WorkerMovesOnTheWay(s: State, t: State, w: nat)
    requires Apart(s) && OnTheWay(s) && w < |s.workers| && Busy(s.workers[w])
    requires t.queue == s.queue && t.transit == s.transit && |t.futures| == |s.futures|
    requires |t.workers| == |s.workers| && t.workers == s.workers[w := t.workers[w]]
    requires forall f :: 0 <= f < |s.futures| && f != s.workers[w].id ==> t.futures[f] == s.futures[f]
    requires match t.workers[w]
      case Idle => true
      case Taken(f) => f == s.workers[w].id && Waiting(t, f)
      case Executing(f) => f == s.workers[w].id && f < |t.futures| && t.futures[f].Running?
      case _ => false
    ensures OnTheWay(t)
  {
  }

  lemma StepKeepsOnTheWay(s: State, step: Step)
    requires Inv(s) && Enabled(s, step)
    ensures OnTheWay(Next(s, step))
  {
    hide OnePerWorker, RanOnce, Tracked, NothingLost, CancelledWhenClosed;
    match step {
      case Accept => AcceptKeepsPlaces(s);
      case Put(f) => PutKeepsOnTheWay(s, f);
      case Get(w) => GetKeepsOnTheWay(s, w);
      case Cancel(f) => CancelKeepsOnTheWay(s, f);
      case Discard(w) => WorkerMovesOnTheWay(s, Next(s, step), w);
      case Start(w) => WorkerMovesOnTheWay(s, Next(s, step), w);
      case Finish(w) => WorkerMovesOnTheWay(s, Next(s, step), w);
      case _ =>
    }
  }

  lemma StepKeepsTracked(s: State, step: Step)
    requires Inv(s) && Enabled(s, step)
    ensures Tracked(Next(s, step))
  {
    hide Apart, OnePerWorker, RanOnce, NothingLost, CancelledWhenClosed;
    var t := Next(s, step);
    forall f | 0 <= f < |t.futures| && t.futures[f].Pending?
      ensures ToBeCancelled(t, f) || Taken(f) in t.workers
    {
      StillTracked(s, step, f);
    }
    forall f | 0 <= f < |t.futures| && t.futures[f].Running?
      ensures Executing(f) in t.workers
    {
      StillExecuting(s, step, f);
    }
  }

  /** A step of worker w leaves every other worker where it was. */
  lemma OtherWorkersStay(s: State, w: nat, now: Worker, other: Worker)
    requires w < |s.workers| && other in s.workers && s.workers[w] != other
    ensures other in s.workers[w := now]
  {
    var v :| 0 <= v < |s.workers| && s.workers[v] == other;
    assert s.workers[w := now][v] == other;
  }

  lemma StillTracked(s: State, step: Step, f: nat)
    requires Inv(s) && Enabled(s, step)
    requires f < |Next(s, step).futures| && Next(s, step).futures[f].Pending?
    ensures ToBeCancelled(Next(s, step), f) || Taken(f) in Next(s, step).workers
  {
    var t := Next(s, step);
    if f < |s.futures| && !ToBeCancelled(t, f) {
      assert s.futures[f].Pending?;
      match step {
        case Get(w) => OtherWorkersStay(s, w, t.workers[w], Taken(f));
        case Discard(w) =>
          assert t.workers[w] in t.workers;
          if s.workers[w].id != f { OtherWorkersStay(s, w, t.workers[w], Taken(f)); }
        case Start(w) => OtherWorkersStay(s, w, t.workers[w], Taken(f));
        case Finish(w) => OtherWorkersStay(s, w, t.workers[w], Taken(f));
        case _ =>
      }
    }
  }

  lemma StillExecuting(s: State, step: Step, f: nat)
    requires Inv(s) && Enabled(s, step)
    requires f < |Next(s, step).futures| && Next(s, step).futures[f].Running?
    ensures Executing(f) in Next(s, step).workers
  {
    var t := Next(s, step);
    match step {
      case Get(w) => OtherWorkersStay(s, w, t.workers[w], Executing(f));
      case Discard(w) => OtherWorkersStay(s, w, t.workers[w], Executing(f));
      case Start(w) =>
        assert t.workers[w] in t.workers;
        if s.workers[w].id != f { OtherWorkersStay(s, w, t.workers[w], Executing(f)); }
      case Finish(w) => OtherWorkersStay(s, w, t.workers[w], Executing(f));
      case _ =>
    }
  }

  lemma StepKeepsRanOnce(s: State, step: Step)
    requires Inv(s) && Enabled(s, step)
    ensures RanOnce(Next(s, step))
  {
    hide Apart, OnePerWorker, Tracked, NothingLost, CancelledWhenClosed;
  }

  lemma StepKeepsOnePerWorker(s: State, step: Step)
    requires Inv(s) && Enabled(s, step)
    ensures OnePerWorker(Next(s, step))
  {
    var t := Next(s, step);
    match step {
      case Put(f) => SentinelsAppend(s.queue, Task(f));
      case PutSentinel => SentinelsAppend(s.queue, Sentinel);
      case Get(w) => GoneUpdate(s.workers, w, t.workers[w]);
      case Discard(w) => GoneUpdate(s.workers, w, t.workers[w]);
      case Start(w) => GoneUpdate(s.workers, w, t.workers[w]);
      case Finish(w) => GoneUpdate(s.workers, w, t.workers[w]);
      case _ =>
    }
  }

  lemma StepKeepsNothingLost(s: State, step: Step)
    requires Inv(s) && Enabled(s, step)
    ensures NothingLost(Next(s, step))
  {
    forall f | 0 <= f < |Next(s, step).futures| && Waiting(Next(s, step), f)
      ensures HasPlace(Next(s, step), f)
    {
      KeepsPlace(s, step, f);
    }
  }

  lemma KeepsPlace(s: State, step: Step, f: nat)
    requires Inv(s) && Enabled(s, step) && Waiting(Next(s, step), f)
    ensures HasPlace(Next(s, step), f)
  {
    hide OnePerWorker, RanOnce, CancelledWhenClosed;
    var t := Next(s, step);
    if f < |s.futures| {
      assert Waiting(s, f);
      match step {
        case Put(g) => KeepsQueued(s, t, Task(g));
        case PutSentinel => KeepsQueued(s, t, Sentinel);
        case Get(w) => KeepsPlaceAtGet(s, w, f);
        case Discard(w) => KeepsHeld(s, t, w, f);
        case Start(w) => KeepsHeld(s, t, w, f);
        case Finish(w) => KeepsHeld(s, t, w, f);
        case _ =>
      }
    }
  }

  lemma KeepsQueued(s: State, t: State, last: Item)
    requires t.queue == s.queue + [last]
    ensures last in t.queue && forall item :: item in s.queue ==> item in t.queue
  {
    assert t.queue[|s.queue|] == last;
  }

  lemma KeepsPlaceAtGet(s: State, w: nat, f: nat)
    requires Enabled(s, Get(w)) && HasPlace(s, f)
    ensures HasPlace(Next(s, Get(w)), f)
  {
    var t := Next(s, Get(w));
    assert s.queue == [s.queue[0]] + s.queue[1..];
    assert t.workers[w] in t.workers;
    forall held | held in s.workers && !held.Idle?
      ensures held in t.workers
    {
      OtherWorkersStay(s, w, t.workers[w], held);
    }
  }

  /** A worker moves on, and what waits keeps its place. */
  lemma KeepsHeld(s: State, t: State, w: nat, f: nat)
    requires HasPlace(s, f) && w < |s.workers| && |t.workers| == |s.workers|
    requires t.transit == s.transit && t.queue == s.queue && t.workers == s.workers[w := t.workers[w]]
    requires s.workers[w] == Got(f) ==> t.workers[w] == Taken(f)
    requires s.workers[w] != Taken(f)
    ensures HasPlace(t, f)
  {
    assert t.workers[w] in t.workers;
    forall held | held in s.workers && held != s.workers[w]
      ensures held in t.workers
    {
      OtherWorkersStay(s, w, t.workers[w], held);
    }
  }

  lemma StepKeepsCancelledWhenClosed(s: State, step: Step)
    requires Inv(s) && Enabled(s, step)
    ensures CancelledWhenClosed(Next(s, step))
  {
    hide OnePerWorker, RanOnce, NothingLost;
  }

  /** Every interleaving keeps the invariant. */
  lemma StepKeepsInv(s: State, step: Step)
    requires Inv(s) && Enabled(s, step)
    ensures Inv(Next(s, step))
  {
    StepKeepsApart(s, step);
    StepKeepsOnTheWay(s, step);
    StepKeepsTracked(s, step);
    StepKeepsRanOnce(s, step);
    StepKeepsOnePerWorker(s, step);
    StepKeepsNothingLost(s, step);
    StepKeepsCancelledWhenClosed(s, step);
  }

  /** All that can happen to a future in one step: a worker that has taken it starts it while it is pending,
      and lets it go when it was cancelled; the shutdown cancels it while it is pending and on its list; and
      its own worker finishes it. */
  lemma LifeOfAFuture(s: State, step: Step, f: nat)
    requires Inv(s) && Enabled(s, step) && f < |s.futures|
    ensures var t, from := Next(s, step), s.futures[f];
      var started := step.Start? && s.workers[step.worker] == Taken(f);
      && f < |t.futures|
      && t.futures[f] ==
           (if from.Pending? && started then Running
            else if from.Cancelled? && started then Notified
            else if from.Pending? && step == Cancel(f) then Cancelled
            else if from.Running? && step.Finish? && s.workers[step.worker] == Executing(f) then Finished
            else from)
  {
    hide OnePerWorker, RanOnce, NothingLost, CancelledWhenClosed;
  }

  /** First in, first out: of two items in the queue the first leaves first. */
  lemma QueueIsInOrder(s: State, step: Step, i: nat, j: nat) returns (i': nat, j': nat)
    requires Enabled(s, step) && i < j < |s.queue|
    ensures var t := Next(s, step);
      if step.Get? && i == 0 then j' < |t.queue| && t.queue[j'] == s.queue[j]
      else i' < j' < |t.queue| && t.queue[i'] == s.queue[i] && t.queue[j'] == s.queue[j]
  {
    i', j' := if step.Get? && i > 0 then i - 1 else i, if step.Get? then j - 1 else j;
  }

  // Runs

  /** The steps can be taken one after the other. */
  ghost predicate CanRun(s: State, steps: seq<Step>)
    decreases |steps|
  {
    steps == [] || (Enabled(s, steps[0]) && CanRun(Next(s, steps[0]), steps[1..]))
  }

  ghost function Run(s: State, steps: seq<Step>): State
    requires CanRun(s, steps)
    decreases |steps|
  {
    if steps == [] then s else Run(Next(s, steps[0]), steps[1..])
  }

  lemma {:induction false} RunKeepsInv(s: State, steps: seq<Step>)
    requires Inv(s) && CanRun(s, steps)
    ensures Inv(Run(s, steps))
    decreases |steps|
  {
    if steps != [] {
      StepKeepsInv(s, steps[0]);
      RunKeepsInv(Next(s, steps[0]), steps[1..]);
    }
  }

  predicate Terminal(future: Future) { WasCancelled(future) || future.Finished? }

  /** How a future ended is how it stays; one that is running can only finish. */
  lemma StepKeepsOutcomes(s: State, step: Step, f: nat)
    requires Inv(s) && Enabled(s, step) && f < |s.futures|
    ensures var t := Next(s, step);
      && f < |t.futures|
      && (WasCancelled(s.futures[f]) ==> WasCancelled(t.futures[f]))
      && (HasRun(s.futures[f]) ==> HasRun(t.futures[f]))
      && (s.futures[f].Finished? ==> t.futures[f].Finished?)
  {
  }

  /** At most once, and never after being cancelled: over every run from the start, each task is
      called at most once, it is called exactly when its future ran, and a future once cancelled has
      a task that is never called, however the run goes on. */
  lemma {:induction false} RunAtMostOnceOrCancelled(size: nat, steps: seq<Step>, more: seq<Step>, f: nat)
    requires CanRun(Initial(size), steps) && CanRun(Run(Initial(size), steps), more)
    requires f < |Run(Initial(size), steps).futures|
    ensures var s := Run(Initial(size), steps);
      var t := Run(s, more);
      && f < |t.futures|
      && s.ran[f] <= t.ran[f] <= 1
      && (t.ran[f] == 1 <==> HasRun(t.futures[f]))
      && (WasCancelled(s.futures[f]) ==> WasCancelled(t.futures[f]) && t.ran[f] == 0)
  {
    InitialInv(size);
    RunKeepsInv(Initial(size), steps);
    RunKeepsInv(Run(Initial(size), steps), more);
    RunKeepsOutcomes(Run(Initial(size), steps), more, f);
  }

  lemma {:induction false} RunKeepsOutcomes(s: State, steps: seq<Step>, f: nat)
    requires Inv(s) && CanRun(s, steps) && f < |s.futures|
    ensures var t := Run(s, steps);
      && f < |t.futures|
      && (WasCancelled(s.futures[f]) ==> WasCancelled(t.futures[f]))
      && (HasRun(s.futures[f]) ==> HasRun(t.futures[f]))
    decreases |steps|
  {
    if steps != [] {
      StepKeepsInv(s, steps[0]);
      StepKeepsOutcomes(s, steps[0], f);
      RunKeepsOutcomes(Next(s, steps[0]), steps[1..], f);
    }
  }

  // After a shutdown

  /** Nothing is left to do but for the functions that are running to return. */
  ghost predicate Quiet(s: State) {
    forall step :: Enabled(s, step) ==> step.Finish?
  }

  /** Once a shutdown has run its course every accepted future is over or running, also the one whose
      `put` landed behind the sentinels, and every worker that is not running a task has consumed its
      one sentinel: as many sentinels are left as tasks are running. */
  lemma ShutdownLeavesNothingPending(s: State)
    requires Inv(s) && s.shutdown.Closing? && Quiet(s)
    ensures s.transit == {} && s.shutdown == Closing({}, |s.workers|)
    ensures forall w :: 0 <= w < |s.workers| ==> s.workers[w].Exited? || s.workers[w].Executing?
    ensures forall f :: 0 <= f < |s.futures| ==> Terminal(s.futures[f]) || Executing(f) in s.workers
    ensures Sentinels(s.queue) + Gone(s.workers) == |s.workers|
  {
    NothingToSend(s);
    SomeoneLeft(s.workers);
    forall w | 0 <= w < |s.workers|
      ensures s.workers[w].Exited? || s.workers[w].Executing?
    {
      assert !Enabled(s, Discard(w)) && !Enabled(s, Start(w)) && !Enabled(s, Get(w));
    }
  }

  lemma NothingToSend(s: State)
    requires Inv(s) && s.shutdown.Closing? && Quiet(s)
    ensures s.transit == {} && s.shutdown == Closing({}, |s.workers|)
  {
    assert forall f :: f in s.transit ==> Enabled(s, Put(f));
    assert s.transit == {};
    assert forall f :: f in s.shutdown.todo ==> Enabled(s, Cancel(f));
    assert s.shutdown.todo == {};
    assert !Enabled(s, PutSentinel);
  }

  /** And when the last function returns: every future has ended and every worker has gone. */
  lemma EveryWorkerExits(s: State)
    requires Inv(s) && s.shutdown.Closing? && forall step :: !Enabled(s, step)
    ensures forall w :: 0 <= w < |s.workers| ==> s.workers[w].Exited?
    ensures forall f :: 0 <= f < |s.futures| ==> Terminal(s.futures[f])
    ensures Sentinels(s.queue) == 0 && Gone(s.workers) == |s.workers|
  {
    ShutdownLeavesNothingPending(s);
    forall w | 0 <= w < |s.workers|
      ensures s.workers[w].Exited?
    {
      assert !Enabled(s, Finish(w));
    }
    AllGone(s.workers);
  }

  lemma {:induction false} AllGone(workers: seq<Worker>)
    requires forall w :: 0 <= w < |workers| ==> workers[w].Exited?
    ensures Gone(workers) == |workers|
  {
    if workers != [] {
      AllGone(workers[1..]);
    }
  }

  /** An open pool that has come to rest has called every task it accepted, once, and cancelled none. */
  lemma EveryAcceptedTaskRuns(size: nat, steps: seq<Step>)
    requires size >= 1 && CanRun(Initial(size), steps)
    requires var s := Run(Initial(size), steps);
      s.shutdown.Open? && forall step :: Enabled(s, step) ==> step.Accept? || step.Close?
    ensures var s := Run(Initial(size), steps);
      && s.queue == [] && s.transit == {}
      && forall f :: 0 <= f < |s.futures| ==> s.futures[f].Finished? && s.ran[f] == 1
  {
    InitialInv(size);
    RunKeepsInv(Initial(size), steps);
    RunKeepsWorkers(Initial(size), steps);
    AtRestIsDone(Run(Initial(size), steps));
  }

  lemma {:induction false} RunKeepsWorkers(s: State, steps: seq<Step>)
    requires CanRun(s, steps)
    ensures |Run(s, steps).workers| == |s.workers|
    decreases |steps|
  {
    if steps != [] {
      RunKeepsWorkers(Next(s, steps[0]), steps[1..]);
    }
  }

  lemma AtRestIsDone(s: State)
    requires Inv(s) && s.shutdown.Open? && s.workers != []
    requires forall step :: Enabled(s, step) ==> step.Accept? || step.Close?
    ensures s.queue == [] && s.transit == {}
    ensures forall f :: 0 <= f < |s.futures| ==> s.futures[f].Finished? && s.ran[f] == 1
  {
    hide Apart;
    assert forall f :: f in s.transit ==> Enabled(s, Put(f));
    forall w | 0 <= w < |s.workers|
      ensures s.workers[w].Idle?
    {
      assert !Enabled(s, Discard(w)) && !Enabled(s, Start(w)) && !Enabled(s, Finish(w));
      NobodyGone(s.workers, w);
    }
    assert !Enabled(s, Get(0));
    forall f | 0 <= f < |s.futures|
      ensures s.futures[f].Finished?
    {
      assert Waiting(s, f) ==> HasPlace(s, f);
    }
  }

  lemma {:induction false} NobodyGone(workers: seq<Worker>, w: nat)
    requires Gone(workers) == 0 && w < |workers|
    ensures !workers[w].Exited?
  {
    if w > 0 {
      NobodyGone(workers[1..], w - 1);
    }
  }

  function Left(worker: Worker): nat {
    match worker
    case Got(_) => 3
    case Taken(_) => 2
    case Executing(_) => 1
    case _ => 0
  }

  function LeftOfAll(workers: seq<Worker>): nat {
    if workers == [] then 0 else Left(workers[0]) + LeftOfAll(workers[1..])
  }

  function LeftInQueue(queue: seq<Item>): nat {
    if queue == [] then 0 else (if queue[0].Sentinel? then 1 else 4) + LeftInQueue(queue[1..])
  }

  /** Steps the accepted tasks can still take. */
  function Work(s: State): nat {
    5 * |s.transit| + LeftInQueue(s.queue) + LeftOfAll(s.workers)
  }

  /** Steps a closed pool can still take. */
  function Remaining(s: State): nat
    requires s.shutdown.Closing? && s.shutdown.put <= |s.workers|
  {
    Work(s) + |s.shutdown.todo| + 2 * (|s.workers| - s.shutdown.put)
  }

  lemma {:induction false} LeftInQueueAppend(queue: seq<Item>, item: Item)
    ensures LeftInQueue(queue + [item]) == LeftInQueue(queue) + (if item.Sentinel? then 1 else 4)
  {
    if queue == [] {
      assert queue + [item] == [item] && LeftInQueue([item][1..]) == 0;
    } else {
      assert (queue + [item])[1..] == queue[1..] + [item];
      LeftInQueueAppend(queue[1..], item);
    }
  }

  lemma {:induction false} LeftUpdate(workers: seq<Worker>, w: nat, now: Worker)
    requires w < |workers|
    ensures LeftOfAll(workers[w := now]) == LeftOfAll(workers) - Left(workers[w]) + Left(now)
  {
    if w == 0 {
      assert workers[w := now][1..] == workers[1..];
    } else {
      assert workers[w := now][1..] == workers[1..][w - 1 := now];
      LeftUpdate(workers[1..], w - 1, now);
    }
  }

  lemma WorkerUsesUp(s: State, step: Step, w: nat)
    requires Enabled(s, step)
    requires step in [Get(w), Discard(w), Start(w), Finish(w)]
    ensures Next(s, step).shutdown == s.shutdown && Next(s, step).transit == s.transit
    ensures LeftInQueue(Next(s, step).queue) + LeftOfAll(Next(s, step).workers)
      < LeftInQueue(s.queue) + LeftOfAll(s.workers)
  {
    LeftUpdate(s.workers, w, Next(s, step).workers[w]);
  }

  lemma StepUsesUp(s: State, step: Step)
    requires Inv(s) && s.shutdown.Closing? && Enabled(s, step)
    ensures Next(s, step).shutdown.Closing? && Next(s, step).shutdown.put <= |Next(s, step).workers|
    ensures Remaining(Next(s, step)) < Remaining(s)
  {
    hide Apart, OnTheWay, RanOnce, NothingLost, CancelledWhenClosed;
    match step {
      case Put(f) => LeftInQueueAppend(s.queue, Task(f));
      case PutSentinel => LeftInQueueAppend(s.queue, Sentinel);
      case Get(w) => WorkerUsesUp(s, step, w);
      case Discard(w) => WorkerUsesUp(s, step, w);
      case Start(w) => WorkerUsesUp(s, step, w);
      case Finish(w) => WorkerUsesUp(s, step, w);
      case _ =>
    }
  }

  /** An open pool comes to rest too, unless it is given more to do. */
  lemma {:induction false} OpenPoolComesToRest(s: State, steps: seq<Step>)
    requires s.shutdown.Open? && CanRun(s, steps)
    requires forall i :: 0 <= i < |steps| ==> !steps[i].Accept? && !steps[i].Close?
    ensures |steps| <= Work(s) && Run(s, steps).shutdown.Open?
    decreases |steps|
  {
    if steps != [] {
      assert !steps[0].Accept? && !steps[0].Close?;
      match steps[0] {
        case Put(f) => LeftInQueueAppend(s.queue, Task(f));
        case Get(w) => WorkerUsesUp(s, steps[0], w);
        case Discard(w) => WorkerUsesUp(s, steps[0], w);
        case Start(w) => WorkerUsesUp(s, steps[0], w);
        case Finish(w) => WorkerUsesUp(s, steps[0], w);
        case _ =>
      }
      OpenPoolComesToRest(Next(s, steps[0]), steps[1..]);
    }
  }

  /** A closed pool comes to rest: no interleaving goes on for more steps than it has left. */
  lemma {:induction false} ClosedPoolComesToRest(s: State, steps: seq<Step>)
    requires Inv(s) && s.shutdown.Closing? && CanRun(s, steps)
    ensures |steps| <= Remaining(s)
    ensures Run(s, steps).shutdown.Closing? && |Run(s, steps).futures| == |s.futures|
    decreases |steps|
  {
    if steps != [] {
      StepUsesUp(s, steps[0]);
      StepKeepsInv(s, steps[0]);
      ClosedPoolComesToRest(Next(s, steps[0]), steps[1..]);
    }
  }

  /** The pool itself. Each method is one atomic stretch of `submit`, of a worker's loop or of
      `shutdown`; the threads' own places are fields too, since the methods are called one by one. */
  class PoolExecutor {
    var queue: seq<Item>
    var pending: set<nat>
    var closed: bool
    var futures: seq<Future>

    var transit: set<nat>
    var workers: seq<Worker>
    var todo: set<nat>
    var put: nat
    var ran: multiset<nat>

    ghost function Now(): State
      reads this
    {
      State(futures, pending, transit, queue, workers, if closed then Closing(todo, put) else Open, ran)
    }

    ghost predicate Valid()
      reads this
    {
      Inv(Now())
    }

    constructor (maxWorkers: nat)
      requires maxWorkers >= 1
      ensures Valid() && Now() == Initial(maxWorkers)
    {
      queue, pending, closed, futures := [], {}, false, [];
      transit, workers, todo, put, ran := {}, seq(maxWorkers, _ => Idle), {}, 0, multiset{};
      new;
      InitialInv(maxWorkers);
    }

    /** `submit`, up to the end of its locked part: refused once the pool is closed. */
    method Submit() returns (accepted: Option<nat>)
      requires Valid()
      modifies this
      ensures Valid()
      ensures old(closed) ==> accepted == None && Now() == old(Now())
      ensures !old(closed) ==> accepted == Some(|old(futures)|) && Now() == Next(old(Now()), Accept)
    {
      if closed {
        return None;
      }
      StepKeepsInv(Now(), Accept);
      var f := |futures|;
      futures := futures + [Pending];
      pending := pending + {f};
      transit := transit + {f};
      assert Now() == Next(old(Now()), Accept);
      return Some(f);
    }

    /** The rest of `submit`, outside the lock. */
    method PutTask(f: nat)
      requires Valid() && f in transit
      modifies this
      ensures Valid() && Now() == Next(old(Now()), Put(f))
    {
      StepKeepsInv(Now(), Put(f));
      queue := queue + [Task(f)];
      transit := transit - {f};
      assert Now() == Next(old(Now()), Put(f));
    }

    /** A worker's `get`: a sentinel ends it. */
    method GetItem(w: nat)
      requires Valid() && w < |workers| && workers[w].Idle? && queue != []
      modifies this
      ensures Valid() && Now() == Next(old(Now()), Get(w))
    {
      StepKeepsInv(Now(), Get(w));
      var item := queue[0];
      queue := queue[1..];
      match item {
        case Sentinel => workers := workers[w := Exited];
        case Task(f) => workers := workers[w := Got(f)];
      }
      assert Now() == Next(old(Now()), Get(w));
    }

    method DiscardPending(w: nat)
      requires Valid() && w < |workers| && workers[w].Got?
      modifies this
      ensures Valid() && Now() == Next(old(Now()), Discard(w))
    {
      StepKeepsInv(Now(), Discard(w));
      var f := workers[w].id;
      pending := pending - {f};
      workers := workers[w := Taken(f)];
      assert Now() == Next(old(Now()), Discard(w));
    }

    /** `set_running_or_notify_cancel`, which raises unless the future is pending or cancelled: it
        always is. */
    method StartTask(w: nat) returns (run: bool)
      requires Valid() && w < |workers| && workers[w].Taken?
      modifies this
      ensures Valid() && Now() == Next(old(Now()), Start(w))
      ensures run <==> ran != old(ran)
    {
      StepKeepsInv(Now(), Start(w));
      var f := workers[w].id;
      match futures[f] {
        case Pending =>
          futures, workers, ran := futures[f := Running], workers[w := Executing(f)], ran + multiset{f};
          assert ran[f] != old(ran)[f];
          run := true;
        case Cancelled =>
          futures, workers := futures[f := Notified], workers[w := Idle];
          run := false;
        case _ => assert false;
      }
      assert Now() == Next(old(Now()), Start(w));
    }

    /** The function returns or raises; `set_result` and `set_exception` want a running future, and have one. */
    method FinishTask(w: nat)
      requires Valid() && w < |workers| && workers[w].Executing?
      modifies this
      ensures Valid() && Now() == Next(old(Now()), Finish(w))
    {
      StepKeepsInv(Now(), Finish(w));
      var f := workers[w].id;
      assert futures[f].Running?;
      futures := futures[f := Finished];
      workers := workers[w := Idle];
      assert Now() == Next(old(Now()), Finish(w));
    }

    /** `shutdown`: its locked part, and then one future or one sentinel at a time. */
    method StartShutdown()
      requires Valid() && !closed
      modifies this
      ensures Valid() && closed && Now() == Next(old(Now()), Close)
    {
      StepKeepsInv(Now(), Close);
      closed := true;
      todo, pending := pending, {};
      put := 0;
      assert Now() == Next(old(Now()), Close);
    }

    method CancelPending(f: nat) returns (cancelled: bool)
      requires Valid() && closed && f in todo
      modifies this
      ensures Valid() && Now() == Next(old(Now()), Cancel(f))
      ensures cancelled <==> WasCancelled(futures[f])
    {
      StepKeepsInv(Now(), Cancel(f));
      todo := todo - {f};
      futures := futures[f := CancelFuture(futures[f])];
      cancelled := futures[f].Cancelled? || futures[f].Notified?;
      assert Now() == Next(old(Now()), Cancel(f));
    }

    method PutOneSentinel()
      requires Valid() && closed && todo == {} && put < |workers|
      modifies this
      ensures Valid() && Now() == Next(old(Now()), PutSentinel)
    {
      StepKeepsInv(Now(), PutSentinel);
      queue := queue + [Sentinel];
      put := put + 1;
      assert Now() == Next(old(Now()), PutSentinel);
    }
  }
}
