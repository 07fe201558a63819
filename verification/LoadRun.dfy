/**
 One live run: a dispatcher or closed-loop workers fill a list of slots, workers send them, and a
 finaliser freezes them. Every step is one locked stretch, or one call outside the lock; a run is any
 interleaving of them, with any readings of the clock.
 */
module LoadRun {
  import opened Wrappers
  import opened OpenLoop
  import opened Sorting

  datatype Outcome = Completed | Abandoned | DroppedBacklog | NotDispatched

  datatype Slot = Slot(
    index: nat,
    rate: real,
    scheduledAt: real,
    waited: real,
    dispatchedAt: Option<real>,
    completedAt: Option<real>,
    result: Option<int>,
    outcome: Option<Outcome>
  )

  datatype Record = Record(
    index: nat,
    rate: real,
    scheduledAt: real,
    outcome: Outcome,
    dispatchedAt: Option<real>,
    completedAt: Option<real>,
    result: Option<int>,
    waited: real
  )

  function FreshSlot(index: nat, rate: real, scheduledAt: real, waited: real): Slot {
    Slot(index, rate, scheduledAt, waited, None, None, None, None)
  }

  function Freeze(slot: Slot): Record {
    var outcome :=
      if slot.outcome.Some? then slot.outcome.value else if slot.dispatchedAt.Some? then Abandoned else NotDispatched;
    Record(slot.index, slot.rate, slot.scheduledAt, outcome, slot.dispatchedAt,
           if outcome.Completed? then slot.completedAt else None,
           if outcome.Completed? then slot.result else None,
           slot.waited)
  }

  /** What is fixed before a run: its mode, its schedule (open loop), and its limits. */
  datatype Setup = Setup(open: bool, schedule: seq<Arrival>, startedAt: real, deadline: real, maxQueue: real)

  /** How far a send has got: not begun, marked as dispatched, in the hook, back from the hook. */
  datatype Send = Ready | OnWire | Called | Returned(finished: real, result: int)

  datatype Worker = Free | Holding(slot: Slot) | Sending(at: nat, send: Send) | Exited

  /** The thread that runs the plan and then finalises. `appended` is set between the append of an
      arrival's slot and its submission. */
  datatype Main =
    | Dispatching(next: nat, appended: bool)
    | Waiting(aborted: bool)
    | Finalised(aborted: bool, records: seq<Record>)

  datatype Answer = Answer(finished: real, result: int)

  /** What happened to the request of a slot: how it was planned, the reading at which the run decided
      about it, what its hook answered, or that its hook raised. */
  datatype Trace = Trace(index: nat, rate: real, scheduledAt: real, waited: real, seen: Option<real>,
    answer: Option<Answer>, raised: bool)

  /** `queued` holds the slots submitted and not picked up, `calls` the indices the hook was called
      with, `returned` how many of those calls came back, `traces` what happened to each slot. */
  datatype State = State(
    slots: seq<Slot>,
    traces: seq<Trace>,
    queued: set<nat>,
    workers: seq<Worker>,
    main: Main,
    nextIndex: nat,
    calls: multiset<nat>,
    returned: nat
  )

  datatype Step =
    | Append(now: real, waited: real)
    | Submit
    | EndOfPlan
    | Interrupt
    | Finalise(now: real)
    | Pick(worker: nat, at: nat)
    | Take(worker: nat, rate: real, takenAt: real, waited: real)
    | Leave(worker: nat)
    | AppendTaken(worker: nat)
    | Begin(worker: nat, now: real)
    | Call(worker: nat)
    | Return(worker: nat, finished: real, result: int)
    | Raise(worker: nat)
    | End(worker: nat)

  function Initial(size: nat): State {
    State([], [], {}, seq(size, _ => Free), Dispatching(0, false), 0, multiset{}, 0)
  }

  predicate At(s: State, w: nat, send: Send) {
    w < |s.workers| && s.workers[w].Sending? && s.workers[w].at < |s.slots| && s.workers[w].send == send
  }

  predicate AtReturned(s: State, w: nat) {
    w < |s.workers| && s.workers[w].Sending? && s.workers[w].at < |s.slots| && s.workers[w].send.Returned?
  }

  /** Every send that was submitted is over, or, in a closed loop, every worker has returned. */
  ghost predicate AllDone(c: Setup, s: State) {
    if c.open then s.queued == {} && forall w :: 0 <= w < |s.workers| ==> !s.workers[w].Sending?
    else forall w :: 0 <= w < |s.workers| ==> s.workers[w].Exited?
  }

  ghost predicate SomeRaised(s: State) {
    exists k :: 0 <= k < |s.traces| && s.traces[k].raised
  }

  /** What the main thread waits for before it finalises: an interrupt, all that it started, the first hook
      that raises, or the deadline. */
  ghost predicate CanStop(c: Setup, s: State, now: real) {
    s.main == Waiting(true) || AllDone(c, s) || SomeRaised(s) || now >= c.deadline
  }

  ghost predicate Enabled(c: Setup, s: State, step: Step) {
    match step
    case Append(_, _) => c.open && s.main.Dispatching? && !s.main.appended && s.main.next < |c.schedule|
    case Submit => c.open && s.main.Dispatching? && s.main.appended && s.slots != []
    case EndOfPlan => s.main.Dispatching? && !s.main.appended && (c.open ==> s.main.next == |c.schedule|)
    case Interrupt => !s.main.Finalised?
    case Finalise(now) => s.main.Waiting? && CanStop(c, s, now)
    case Pick(w, k) => c.open && w < |s.workers| && s.workers[w].Free? && k in s.queued
    case Take(w, _, _, _) => !c.open && w < |s.workers| && s.workers[w].Free?
    case Leave(w) => !c.open && w < |s.workers| && s.workers[w].Free?
    case AppendTaken(w) => !c.open && w < |s.workers| && s.workers[w].Holding?
    case Begin(w, _) => At(s, w, Ready)
    case Call(w) => At(s, w, OnWire)
    case Return(w, _, _) => At(s, w, Called)
    case Raise(w) => At(s, w, Called)
    case End(w) => AtReturned(s, w)
  }

  function DueAt(c: Setup, a: Arrival): real { c.startedAt + a.offset }

  /** The arrivals a dispatcher that has run past the deadline still owes. */
  function NeverSent(c: Setup, late: seq<Arrival>): seq<Slot> {
    seq(|late|, i requires 0 <= i < |late| => Late(c, late[i]))
  }

  function Late(c: Setup, a: Arrival): Slot {
    FreshSlot(a.index, a.rate, DueAt(c, a), 0.0).(outcome := Some(NotDispatched))
  }

  function Untraced(index: nat, rate: real, scheduledAt: real, waited: real): Trace {
    Trace(index, rate, scheduledAt, waited, None, None, false)
  }

  /** The arrivals a dispatcher past the deadline accounts for, at this reading. */
  function LateTraces(c: Setup, late: seq<Arrival>, now: real): seq<Trace> {
    seq(|late|, i requires 0 <= i < |late| =>
      Untraced(late[i].index, late[i].rate, DueAt(c, late[i]), 0.0).(seen := Some(now)))
  }

  /** The locked stretch that opens a send, and whether the hook is then called. */
  function Opened(c: Setup, closed: bool, slot: Slot, now: real): (Slot, bool) {
    if closed then (slot, false)
    else if now >= c.deadline then (slot.(outcome := Some(NotDispatched)), false)
    else if c.open && now - slot.scheduledAt > c.maxQueue then (slot.(outcome := Some(DroppedBacklog)), false)
    else (slot.(dispatchedAt := Some(now)), true)
  }

  /** The locked stretch that closes a send. */
  function Ended(closed: bool, slot: Slot, finished: real, result: int): Slot {
    if closed then slot
    else slot.(result := Some(result), completedAt := Some(finished), outcome := Some(Completed))
  }

  datatype Event = Seen(at: real) | Answered(finished: real, result: int) | HookRaised

  function Note(traces: seq<Trace>, k: nat, event: Event): (noted: seq<Trace>)
    ensures |noted| == |traces|
    ensures forall j :: 0 <= j < |traces| && j != k ==> noted[j] == traces[j]
  {
    if k >= |traces| then traces
    else
      match event
      case Seen(at) => traces[k := traces[k].(seen := Some(at))]
      case Answered(finished, result) => traces[k := traces[k].(answer := Some(Answer(finished, result)))]
      case HookRaised => traces[k := traces[k].(raised := true)]
  }

  function Next(c: Setup, s: State, step: Step): State
    requires Enabled(c, s, step)
  {
    match step
    case Append(now, waited) =>
      var p := s.main.next;
      if now >= c.deadline
      then
        s.(slots := s.slots + NeverSent(c, c.schedule[p..]), traces := s.traces + LateTraces(c, c.schedule[p..], now),
           main := Waiting(false))
      else
        var a := c.schedule[p];
        s.(slots := s.slots + [FreshSlot(a.index, a.rate, DueAt(c, a), waited)],
           traces := s.traces + [Untraced(a.index, a.rate, DueAt(c, a), waited)], main := Dispatching(p, true))
    case Submit => s.(queued := s.queued + {|s.slots| - 1}, main := Dispatching(s.main.next + 1, false))
    case EndOfPlan => s.(main := Waiting(false))
    case Interrupt => s.(main := Waiting(true))
    case Finalise(_) => s.(main := Finalised(s.main.aborted, Sort(IndexLeq, Frozen(s.slots))))
    case Pick(w, k) => s.(queued := s.queued - {k}, workers := s.workers[w := Sending(k, Ready)])
    case Take(w, rate, at, waited) =>
      s.(nextIndex := s.nextIndex + 1, workers := s.workers[w := Holding(FreshSlot(s.nextIndex, rate, at, waited))])
    case Leave(w) => s.(workers := s.workers[w := Exited])
    case AppendTaken(w) =>
      if s.main.Finalised? then s.(workers := s.workers[w := Exited])
      else
        var slot := s.workers[w].slot;
        s.(slots := s.slots + [slot],
           traces := s.traces + [Untraced(slot.index, slot.rate, slot.scheduledAt, slot.waited)],
           workers := s.workers[w := Sending(|s.slots|, Ready)])
    case Begin(w, now) =>
      var k := s.workers[w].at;
      var (slot, send) := Opened(c, s.main.Finalised?, s.slots[k], now);
      s.(slots := s.slots[k := slot],
         traces := if s.main.Finalised? then s.traces else Note(s.traces, k, Seen(now)),
         workers := s.workers[w := if send then Sending(k, OnWire) else Free])
    case Call(w) =>
      var k := s.workers[w].at;
      s.(calls := s.calls + multiset{s.slots[k].index}, workers := s.workers[w := Sending(k, Called)])
    case Return(w, finished, result) =>
      s.(returned := s.returned + 1, traces := Note(s.traces, s.workers[w].at, Answered(finished, result)),
         workers := s.workers[w := Sending(s.workers[w].at, Returned(finished, result))])
    case Raise(w) =>
      s.(returned := s.returned + 1, traces := Note(s.traces, s.workers[w].at, HookRaised),
         workers := s.workers[w := if c.open then Free else Exited])
    case End(w) =>
      var k := s.workers[w].at;
      var send := s.workers[w].send;
      s.(slots := s.slots[k := Ended(s.main.Finalised?, s.slots[k], send.finished, send.result)],
         workers := s.workers[w := Free])
  }

  // Records in index order

  function Frozen(slots: seq<Slot>): seq<Record> {
    seq(|slots|, i requires 0 <= i < |slots| => Freeze(slots[i]))
  }

  predicate IndexLeq(a: Record, b: Record) {
    a.index <= b.index
  }

  // What every step keeps

  /** The open-loop schedule counts its arrivals from 0. */
  ghost predicate Counted(c: Setup) {
    forall k :: 0 <= k < |c.schedule| ==> c.schedule[k].index == k
  }

  ghost predicate OpenNumbered(c: Setup, s: State) {
    && |s.slots| <= |c.schedule|
    && (forall k :: 0 <= k < |s.slots| ==>
         s.slots[k].index == k && s.slots[k].rate == c.schedule[k].rate && s.slots[k].scheduledAt == DueAt(c, c.schedule[k]))
    && match s.main
       case Dispatching(n, appended) => |s.slots| == if appended then n + 1 else n
       case Waiting(aborted) => aborted || |s.slots| == |c.schedule|
       case Finalised(aborted, _) => aborted || |s.slots| == |c.schedule|
  }

  ghost predicate ClosedNumbered(s: State) {
    && (forall k :: 0 <= k < |s.slots| ==> s.slots[k].index < s.nextIndex)
    && (forall j, k :: 0 <= j < k < |s.slots| ==> s.slots[j].index != s.slots[k].index)
    && (forall w :: 0 <= w < |s.workers| && s.workers[w].Holding? ==> s.workers[w].slot.index < s.nextIndex)
    && (forall w, k :: 0 <= w < |s.workers| && s.workers[w].Holding? && 0 <= k < |s.slots| ==>
         s.workers[w].slot.index != s.slots[k].index)
    && (forall w, v :: 0 <= w < v < |s.workers| && s.workers[w].Holding? && s.workers[v].Holding? ==>
         s.workers[w].slot.index != s.workers[v].slot.index)
  }

  ghost predicate Numbered(c: Setup, s: State) {
    if c.open then OpenNumbered(c, s) else ClosedNumbered(s)
  }

  /** How many slots have been handed to the workers' side. */
  function Handed(s: State): int {
    if s.main.Dispatching? && s.main.appended then |s.slots| - 1 else |s.slots|
  }

  /** A slot has at most one sender, ever: it is queued, or one worker has it, or it is done with. */
  ghost predicate OneSender(c: Setup, s: State) {
    && (s.main.Dispatching? && s.main.appended ==> c.open && s.slots != [])
    && (forall k :: k in s.queued ==> k < Handed(s))
    && (forall w :: 0 <= w < |s.workers| && s.workers[w].Sending? ==> s.workers[w].at < Handed(s) && s.workers[w].at !in s.queued)
    && (forall w, v :: 0 <= w < v < |s.workers| && s.workers[w].Sending? && s.workers[v].Sending? ==>
         s.workers[w].at != s.workers[v].at)
    && (forall w :: 0 <= w < |s.workers| && (s.workers[w].Holding? || s.workers[w].Exited?) ==> !c.open)
  }

  predicate Untouched(slot: Slot) {
    slot.dispatchedAt.None? && slot.completedAt.None? && slot.result.None? && slot.outcome.None?
  }

  predicate InFlight(slot: Slot) {
    slot.dispatchedAt.Some? && slot.completedAt.None? && slot.result.None? && slot.outcome.None?
  }

  /** What a slot may say. */
  ghost predicate SlotOk(c: Setup, slot: Slot) {
    && (slot.dispatchedAt.Some? ==>
         slot.dispatchedAt.value < c.deadline && (c.open ==> slot.dispatchedAt.value - slot.scheduledAt <= c.maxQueue))
    && match slot.outcome
       case None => Untouched(slot) || InFlight(slot)
       case Some(Completed) => slot.dispatchedAt.Some? && slot.completedAt.Some? && slot.result.Some?
       case Some(outcome) => !outcome.Abandoned? && slot.dispatchedAt.None? && (outcome.DroppedBacklog? ==> c.open)
  }

  ghost predicate SlotsOk(c: Setup, s: State) {
    forall k :: 0 <= k < |s.slots| ==> SlotOk(c, s.slots[k])
  }

  /** A send in progress finds its slot as it left it. */
  ghost predicate StagesOk(c: Setup, s: State) {
    && (forall k :: k in s.queued && k < |s.slots| ==> Untouched(s.slots[k]))
    && (s.main.Dispatching? && s.main.appended && s.slots != [] ==> Untouched(s.slots[|s.slots| - 1]))
    && (forall w :: 0 <= w < |s.workers| && s.workers[w].Holding? ==> Untouched(s.workers[w].slot))
    && (forall w :: 0 <= w < |s.workers| && s.workers[w].Sending? && s.workers[w].at < |s.slots| ==>
         if s.workers[w].send.Ready? then Untouched(s.slots[s.workers[w].at]) else InFlight(s.slots[s.workers[w].at]))
  }

  predicate InTheHook(send: Send) { send.Called? || send.Returned? }

  ghost predicate Known(s: State, i: nat) {
    exists k :: 0 <= k < |s.slots| && s.slots[k].index == i
  }

  /** The hook is called at most once for a slot, and only after it was marked as dispatched. */
  ghost predicate CallsOk(s: State) {
    && (forall i :: i in s.calls ==> Known(s, i))
    && (forall k :: 0 <= k < |s.slots| ==> CallsFor(s, k))
    && (forall w :: 0 <= w < |s.workers| && s.workers[w].Sending? && s.workers[w].at < |s.slots| ==>
         s.calls[s.slots[s.workers[w].at].index] == if InTheHook(s.workers[w].send) then 1 else 0)
  }

  ghost predicate CallsFor(s: State, k: nat)
    requires k < |s.slots|
  {
    var slot := s.slots[k];
    && s.calls[slot.index] <= 1
    && (s.calls[slot.index] == 1 ==> slot.dispatchedAt.Some?)
    && (slot.outcome == Some(Completed) ==> s.calls[slot.index] == 1)
  }

  function Calling(workers: seq<Worker>): nat {
    if workers == [] then 0
    else (if workers[0].Sending? && workers[0].send.Called? then 1 else 0) + Calling(workers[1..])
  }

  ghost predicate Balanced(s: State) {
    |s.calls| == s.returned + Calling(s.workers)
  }

  ghost predicate RecordsOk(s: State) {
    s.main.Finalised? ==> s.main.records == Sort(IndexLeq, Frozen(s.slots))
  }

  /** Picked up in time: before the deadline and, in an open loop, within the queue limit. */
  predicate InWindow(c: Setup, scheduledAt: real, seen: real) {
    seen < c.deadline && (c.open ==> seen - scheduledAt <= c.maxQueue)
  }

  /** What a slot says is what happened: it was dispatched if and only if it was picked up in time, and
      dropped or not dispatched for the reason it gives. */
  ghost predicate SlotTrue(c: Setup, slot: Slot, t: Trace) {
    && slot.index == t.index && slot.rate == t.rate && slot.scheduledAt == t.scheduledAt && slot.waited == t.waited
    && match slot.outcome
       case None =>
         && slot.dispatchedAt == t.seen
         && (t.seen.Some? ==> InWindow(c, slot.scheduledAt, t.seen.value))
         && (t.seen.None? ==> t.answer.None? && !t.raised)
       case Some(Completed) =>
         && t.seen.Some? && slot.dispatchedAt == t.seen && InWindow(c, slot.scheduledAt, t.seen.value)
         && slot.completedAt.Some? && slot.result.Some?
         && t.answer == Some(Answer(slot.completedAt.value, slot.result.value))
       case Some(DroppedBacklog) =>
         && slot.dispatchedAt.None? && t.seen.Some? && t.seen.value < c.deadline
         && c.open && t.seen.value - slot.scheduledAt > c.maxQueue
       case Some(NotDispatched) => slot.dispatchedAt.None? && t.seen.Some? && t.seen.value >= c.deadline
       case Some(Abandoned) => false
  }

  ghost predicate SendTrue(send: Send, t: Trace) {
    match send
    case Returned(finished, result) => t.answer == Some(Answer(finished, result))
    case _ => t.answer.None? && !t.raised
  }

  ghost predicate Traced(c: Setup, s: State) {
    && |s.traces| == |s.slots|
    && (forall k :: 0 <= k < |s.slots| ==> SlotTrue(c, s.slots[k], s.traces[k]))
    && (forall w :: 0 <= w < |s.workers| && s.workers[w].Sending? && s.workers[w].at < |s.slots| ==>
         SendTrue(s.workers[w].send, s.traces[s.workers[w].at]))
  }

  /** A worker has the slot, and has not yet begun to send it, or has. */
  ghost predicate HasWorker(s: State, k: nat, begun: bool) {
    exists w :: 0 <= w < |s.workers| && s.workers[w].Sending? && s.workers[w].at == k && (s.workers[w].send.Ready? <==> !begun)
  }

  /** Somebody is still to decide about the slot: it is queued, or a worker has it, or it is just being
      submitted, unless an interrupt has come between its append and its submission. */
  ghost predicate Waits(c: Setup, s: State, k: nat) {
    || (c.open && k in s.queued) || HasWorker(s, k, false)
    || (c.open && k == |s.slots| - 1 && (s.main.Dispatching? ==> s.main.appended) && (s.main.Waiting? ==> s.main.aborted))
  }

  ghost predicate Holds(s: State, i: nat) {
    exists w :: 0 <= w < |s.workers| && s.workers[w].Holding? && s.workers[w].slot.index == i
  }

  /** Until the run is finalised no request is forgotten: one that was not decided about waits, one that
      was dispatched is being sent unless its hook raised, and one that was taken is held or recorded. */
  ghost predicate NothingForgotten(c: Setup, s: State) {
    !s.main.Finalised? ==>
      && (forall k :: 0 <= k < |s.slots| && s.slots[k].outcome.None? ==>
           if s.slots[k].dispatchedAt.None? then Waits(c, s, k)
           else HasWorker(s, k, true) || (k < |s.traces| && s.traces[k].raised))
      && (!c.open ==> forall i: nat :: i < s.nextIndex ==> Known(s, i) || Holds(s, i))
  }

  ghost predicate Inv(c: Setup, s: State) {
    && Numbered(c, s) && OneSender(c, s) && SlotsOk(c, s) && StagesOk(c, s) && CallsOk(s) && Balanced(s) && RecordsOk(s)
    && Traced(c, s) && NothingForgotten(c, s)
  }

  lemma {:induction false} NoneCalling(workers: seq<Worker>)
    requires forall w :: 0 <= w < |workers| ==> workers[w].Free?
    ensures Calling(workers) == 0
  {
    if workers != [] {
      NoneCalling(workers[1..]);
    }
  }

  lemma {:induction false} CallingUpdate(workers: seq<Worker>, w: nat, now: Worker)
    requires w < |workers|
    ensures Calling(workers[w := now]) == Calling(workers)
      - (if workers[w].Sending? && workers[w].send.Called? then 1 else 0) + (if now.Sending? && now.send.Called? then 1 else 0)
  {
    if w == 0 {
      assert workers[w := now][1..] == workers[1..];
    } else {
      assert workers[w := now][1..] == workers[1..][w - 1 := now];
      CallingUpdate(workers[1..], w - 1, now);
    }
  }

  lemma InitialInv(c: Setup, size: nat)
    ensures Inv(c, Initial(size))
  {
    NoneCalling(Initial(size).workers);
  }

  // Slots keep the index they were made with

  ghost predicate SamePlan(was: Slot, now: Slot) {
    was.index == now.index && was.rate == now.rate && was.scheduledAt == now.scheduledAt
  }

  lemma SendKeepsPlan(c: Setup, closed: bool, slot: Slot, now: real, finished: real, result: int)
    ensures SamePlan(slot, Opened(c, closed, slot, now).0) && SamePlan(slot, Ended(closed, slot, finished, result))
  {
  }

  lemma SameSlotsNumbered(c: Setup, s: State, t: State)
    requires Numbered(c, s) && t.main == s.main && t.nextIndex == s.nextIndex
    requires |t.slots| == |s.slots| && forall k :: 0 <= k < |s.slots| ==> SamePlan(s.slots[k], t.slots[k])
    requires |t.workers| == |s.workers|
    requires forall w :: 0 <= w < |s.workers| && t.workers[w].Holding? ==> t.workers[w] == s.workers[w]
    ensures Numbered(c, t)
  {
  }

  lemma AppendKeepsNumbered(c: Setup, s: State, now: real, waited: real)
    requires Counted(c) && Numbered(c, s) && Enabled(c, s, Append(now, waited))
    ensures Numbered(c, Next(c, s, Append(now, waited)))
  {
    if now >= c.deadline {
      var p := s.main.next;
      var late := NeverSent(c, c.schedule[p..]);
      assert forall i :: 0 <= i < |late| ==> late[i].index == p + i;
    }
  }

  lemma TakeKeepsNumbered(s: State, t: State, w: nat)
    requires ClosedNumbered(s) && w < |s.workers| && t.slots == s.slots && t.nextIndex == s.nextIndex + 1
    requires |t.workers| == |s.workers| && t.workers == s.workers[w := t.workers[w]]
    requires t.workers[w].Holding? && t.workers[w].slot.index == s.nextIndex
    ensures ClosedNumbered(t)
  {
  }

  lemma AppendTakenKeepsNumbered(s: State, t: State, w: nat)
    requires ClosedNumbered(s) && w < |s.workers| && s.workers[w].Holding? && t.nextIndex == s.nextIndex
    requires t.slots == s.slots + [s.workers[w].slot]
    requires |t.workers| == |s.workers| && t.workers == s.workers[w := t.workers[w]] && !t.workers[w].Holding?
    ensures ClosedNumbered(t)
  {
  }

  lemma MainKeepsNumbered(c: Setup, s: State, step: Step)
    requires Numbered(c, s) && Enabled(c, s, step)
    requires step.Submit? || step.EndOfPlan? || step.Interrupt? || step.Finalise?
    ensures Numbered(c, Next(c, s, step))
  {
  }

  lemma SendKeepsNumbered(c: Setup, s: State, step: Step)
    requires Numbered(c, s) && Enabled(c, s, step) && (step.Begin? || step.End?)
    ensures Numbered(c, Next(c, s, step))
  {
    var worker := s.workers[step.worker];
    if step.Begin? {
      SendKeepsPlan(c, s.main.Finalised?, s.slots[worker.at], step.now, 0.0, 0);
    } else {
      SendKeepsPlan(c, s.main.Finalised?, s.slots[worker.at], 0.0, worker.send.finished, worker.send.result);
    }
    SameSlotsNumbered(c, s, Next(c, s, step));
  }

  lemma StepKeepsNumbered(c: Setup, s: State, step: Step)
    requires Counted(c) && Numbered(c, s) && Enabled(c, s, step)
    ensures Numbered(c, Next(c, s, step))
  {
    var t := Next(c, s, step);
    match step {
      case Append(now, waited) => AppendKeepsNumbered(c, s, now, waited);
      case Take(w, _, _, _) => TakeKeepsNumbered(s, t, w);
      case AppendTaken(w) =>
        if s.main.Finalised? { SameSlotsNumbered(c, s, t); } else { AppendTakenKeepsNumbered(s, t, w); }
      case Begin(_, _) => SendKeepsNumbered(c, s, step);
      case End(_) => SendKeepsNumbered(c, s, step);
      case Pick(_, _) => SameSlotsNumbered(c, s, t);
      case Leave(_) => SameSlotsNumbered(c, s, t);
      case Call(_) => SameSlotsNumbered(c, s, t);
      case Return(_, _, _) => SameSlotsNumbered(c, s, t);
      case Raise(_) => SameSlotsNumbered(c, s, t);
      case _ => MainKeepsNumbered(c, s, step);
    }
  }

  // One sender for each slot

  /** Worker w moves on with the slot it has, or lets go of it. */
  lemma WorkerKeepsOneSender(c: Setup, s: State, t: State, w: nat)
    requires OneSender(c, s) && t.main == s.main && |t.slots| == |s.slots| && t.queued == s.queued
    requires w < |s.workers| == |t.workers| && t.workers == s.workers[w := t.workers[w]]
    requires t.workers[w].Sending? ==> s.workers[w].Sending? && t.workers[w].at == s.workers[w].at
    requires t.workers[w].Holding? || t.workers[w].Exited? ==> !c.open
    ensures OneSender(c, t)
  {
  }

  lemma PickKeepsOneSender(c: Setup, s: State, w: nat, k: nat)
    requires OneSender(c, s) && Enabled(c, s, Pick(w, k))
    ensures OneSender(c, Next(c, s, Pick(w, k)))
  {
  }

  lemma AppendKeepsOneSender(c: Setup, s: State, t: State)
    requires OneSender(c, s) && Handed(t) >= Handed(s) && t.queued == s.queued && t.workers == s.workers
    requires t.main.Dispatching? && t.main.appended ==> c.open && t.slots != []
    ensures OneSender(c, t)
  {
  }

  lemma SubmitKeepsOneSender(c: Setup, s: State)
    requires OneSender(c, s) && Enabled(c, s, Submit)
    ensures OneSender(c, Next(c, s, Submit))
  {
  }

  lemma AppendTakenKeepsOneSender(c: Setup, s: State, w: nat)
    requires OneSender(c, s) && Enabled(c, s, AppendTaken(w))
    ensures OneSender(c, Next(c, s, AppendTaken(w)))
  {
  }

  lemma StepKeepsOneSender(c: Setup, s: State, step: Step)
    requires OneSender(c, s) && Enabled(c, s, step)
    ensures OneSender(c, Next(c, s, step))
  {
    var t := Next(c, s, step);
    match step {
      case Append(_, _) => AppendKeepsOneSender(c, s, t);
      case Submit => SubmitKeepsOneSender(c, s);
      case EndOfPlan => AppendKeepsOneSender(c, s, t);
      case Interrupt => AppendKeepsOneSender(c, s, t);
      case Finalise(_) => AppendKeepsOneSender(c, s, t);
      case Pick(w, k) => PickKeepsOneSender(c, s, w, k);
      case AppendTaken(w) => AppendTakenKeepsOneSender(c, s, w);
      case Take(w, _, _, _) => WorkerKeepsOneSender(c, s, t, w);
      case Leave(w) => WorkerKeepsOneSender(c, s, t, w);
      case Begin(w, _) => WorkerKeepsOneSender(c, s, t, w);
      case Call(w) => WorkerKeepsOneSender(c, s, t, w);
      case Return(w, _, _) => WorkerKeepsOneSender(c, s, t, w);
      case Raise(w) => WorkerKeepsOneSender(c, s, t, w);
      case End(w) => WorkerKeepsOneSender(c, s, t, w);
    }
  }

  // What the slots say

  lemma OpenedIsOk(c: Setup, closed: bool, slot: Slot, now: real)
    requires Untouched(slot)
    ensures SlotOk(c, Opened(c, closed, slot, now).0)
    ensures Opened(c, closed, slot, now).1 ==> InFlight(Opened(c, closed, slot, now).0)
    ensures !Opened(c, closed, slot, now).1 ==> Opened(c, closed, slot, now).0.dispatchedAt.None?
  {
  }

  lemma EndedIsOk(c: Setup, closed: bool, slot: Slot, finished: real, result: int)
    requires SlotOk(c, slot) && InFlight(slot)
    ensures SlotOk(c, Ended(closed, slot, finished, result))
    ensures Ended(closed, slot, finished, result).dispatchedAt == slot.dispatchedAt
  {
  }

  lemma StepKeepsSlotsOk(c: Setup, s: State, step: Step)
    requires SlotsOk(c, s) && StagesOk(c, s) && Enabled(c, s, step)
    ensures SlotsOk(c, Next(c, s, step))
  {
    match step {
      case Begin(w, now) => OpenedIsOk(c, s.main.Finalised?, s.slots[s.workers[w].at], now);
      case End(w) =>
        EndedIsOk(c, s.main.Finalised?, s.slots[s.workers[w].at], s.workers[w].send.finished, s.workers[w].send.result);
      case _ =>
    }
  }

  // A send finds its slot as it left it

  predicate StageFits(worker: Worker, slots: seq<Slot>) {
    match worker
    case Sending(k, send) => k < |slots| ==> if send.Ready? then Untouched(slots[k]) else InFlight(slots[k])
    case Holding(slot) => Untouched(slot)
    case _ => true
  }

  lemma WorkerKeepsStages(c: Setup, s: State, t: State, w: nat)
    requires OneSender(c, s) && StagesOk(c, s) && t.main == s.main && t.queued == s.queued
    requires w < |s.workers| == |t.workers| && t.workers == s.workers[w := t.workers[w]]
    requires |t.slots| == |s.slots|
    requires forall k :: 0 <= k < |s.slots| && !(s.workers[w].Sending? && s.workers[w].at == k) ==> t.slots[k] == s.slots[k]
    requires StageFits(t.workers[w], t.slots)
    ensures StagesOk(c, t)
  {
  }

  lemma PickKeepsStages(c: Setup, s: State, w: nat, k: nat)
    requires OneSender(c, s) && StagesOk(c, s) && Enabled(c, s, Pick(w, k))
    ensures StagesOk(c, Next(c, s, Pick(w, k)))
  {
  }

  lemma AppendKeepsStages(c: Setup, s: State, t: State)
    requires OneSender(c, s) && StagesOk(c, s) && t.queued == s.queued && t.workers == s.workers
    requires |s.slots| <= |t.slots| && t.slots[..|s.slots|] == s.slots
    requires t.main.Dispatching? && t.main.appended && t.slots != [] ==> Untouched(t.slots[|t.slots| - 1])
    ensures StagesOk(c, t)
  {
    assert forall k :: 0 <= k < |s.slots| ==> t.slots[k] == t.slots[..|s.slots|][k];
  }

  lemma SubmitKeepsStages(c: Setup, s: State)
    requires OneSender(c, s) && StagesOk(c, s) && Enabled(c, s, Submit)
    ensures StagesOk(c, Next(c, s, Submit))
  {
  }

  lemma AppendTakenKeepsStages(c: Setup, s: State, w: nat)
    requires OneSender(c, s) && StagesOk(c, s) && Enabled(c, s, AppendTaken(w))
    ensures StagesOk(c, Next(c, s, AppendTaken(w)))
  {
  }

  lemma SendKeepsStages(c: Setup, s: State, step: Step, w: nat)
    requires OneSender(c, s) && StagesOk(c, s) && Enabled(c, s, step)
    requires step.Begin? || step.Call? || step.Return? || step.Raise? || step.End?
    requires w == step.worker
    ensures StagesOk(c, Next(c, s, step))
  {
    if step.Begin? {
      OpenedIsOk(c, s.main.Finalised?, s.slots[s.workers[w].at], step.now);
    }
    WorkerKeepsStages(c, s, Next(c, s, step), w);
  }

  lemma StepKeepsStagesOk(c: Setup, s: State, step: Step)
    requires OneSender(c, s) && StagesOk(c, s) && Enabled(c, s, step)
    ensures StagesOk(c, Next(c, s, step))
  {
    var t := Next(c, s, step);
    match step {
      case Append(_, _) => AppendKeepsStages(c, s, t);
      case Submit => SubmitKeepsStages(c, s);
      case EndOfPlan => AppendKeepsStages(c, s, t);
      case Interrupt => AppendKeepsStages(c, s, t);
      case Finalise(_) => AppendKeepsStages(c, s, t);
      case Pick(w, k) => PickKeepsStages(c, s, w, k);
      case AppendTaken(w) => AppendTakenKeepsStages(c, s, w);
      case Take(w, _, _, _) => WorkerKeepsStages(c, s, t, w);
      case Leave(w) => WorkerKeepsStages(c, s, t, w);
      case Begin(w, _) => SendKeepsStages(c, s, step, w);
      case Call(w) => SendKeepsStages(c, s, step, w);
      case Return(w, _, _) => SendKeepsStages(c, s, step, w);
      case Raise(w) => SendKeepsStages(c, s, step, w);
      case End(w) => SendKeepsStages(c, s, step, w);
    }
  }

  // Calls of the hook

  ghost predicate DistinctIndices(slots: seq<Slot>) {
    forall j, k :: 0 <= j < k < |slots| ==> slots[j].index != slots[k].index
  }

  lemma NumberedIsDistinct(c: Setup, s: State)
    requires Numbered(c, s)
    ensures DistinctIndices(s.slots)
  {
  }

  lemma KnownStays(s: State, t: State, i: nat)
    requires Known(s, i) && |s.slots| <= |t.slots|
    requires forall k :: 0 <= k < |s.slots| ==> t.slots[k].index == s.slots[k].index
    ensures Known(t, i)
  {
    var k :| 0 <= k < |s.slots| && s.slots[k].index == i;
    assert t.slots[k].index == i;
  }

  /** A step that calls no hook: worker w moves on, and at most its own slot changes. */
  lemma QuietKeepsCalls(c: Setup, s: State, t: State, w: nat)
    requires OneSender(c, s) && CallsOk(s) && DistinctIndices(s.slots) && t.calls == s.calls
    requires w < |s.workers| == |t.workers| && t.workers == s.workers[w := t.workers[w]]
    requires |t.slots| == |s.slots|
    requires forall k :: 0 <= k < |s.slots| && !(s.workers[w].Sending? && s.workers[w].at == k) ==> t.slots[k] == s.slots[k]
    requires forall k :: 0 <= k < |s.slots| ==> t.slots[k].index == s.slots[k].index && CallsFor(t, k)
    requires t.workers[w].Sending? && t.workers[w].at < |t.slots| ==>
      t.calls[t.slots[t.workers[w].at].index] == if InTheHook(t.workers[w].send) then 1 else 0
    ensures CallsOk(t)
  {
    forall i | i in t.calls
      ensures Known(t, i)
    {
      KnownStays(s, t, i);
    }
  }

  lemma CallIsTheFirst(s: State, w: nat, t: State, k: nat)
    requires CallsOk(s) && DistinctIndices(s.slots) && At(s, w, OnWire) && k < |s.slots|
    requires InFlight(s.slots[s.workers[w].at])
    requires t.slots == s.slots && t.calls == s.calls + multiset{s.slots[s.workers[w].at].index}
    ensures CallsFor(t, k)
    ensures k != s.workers[w].at ==> t.calls[t.slots[k].index] == s.calls[s.slots[k].index]
  {
    assert CallsFor(s, k);
  }

  lemma CallKeepsCalls(c: Setup, s: State, w: nat)
    requires OneSender(c, s) && StagesOk(c, s) && CallsOk(s) && DistinctIndices(s.slots) && Enabled(c, s, Call(w))
    ensures CallsOk(Next(c, s, Call(w)))
  {
    var t := Next(c, s, Call(w));
    forall i | i in t.calls
      ensures Known(t, i)
    {
      if i in s.calls {
        KnownStays(s, t, i);
      }
    }
    forall k | 0 <= k < |s.slots|
      ensures CallsFor(t, k)
      ensures k != s.workers[w].at ==> t.calls[t.slots[k].index] == s.calls[s.slots[k].index]
    {
      CallIsTheFirst(s, w, t, k);
    }
  }

  /** New slots, of indices nothing was called for. */
  lemma AppendKeepsCalls(c: Setup, s: State, t: State)
    requires OneSender(c, s) && CallsOk(s) && t.calls == s.calls && t.workers == s.workers
    requires |s.slots| <= |t.slots| && forall k :: 0 <= k < |s.slots| ==> t.slots[k] == s.slots[k]
    requires forall k :: |s.slots| <= k < |t.slots| ==> t.slots[k].index !in s.calls && t.slots[k].outcome != Some(Completed)
    ensures CallsOk(t)
  {
    forall i | i in t.calls
      ensures Known(t, i)
    {
      KnownStays(s, t, i);
    }
    forall k | 0 <= k < |t.slots|
      ensures CallsFor(t, k)
    {
      if k < |s.slots| {
        assert CallsFor(s, k);
      }
    }
  }

  lemma KnownIsBelow(c: Setup, s: State, i: nat)
    requires OpenNumbered(c, s)
    ensures Known(s, i) ==> i < |s.slots|
  {
  }

  lemma OpenAppendKeepsCalls(c: Setup, s: State, now: real, waited: real)
    requires Counted(c) && Numbered(c, s) && OneSender(c, s) && CallsOk(s) && Enabled(c, s, Append(now, waited))
    ensures CallsOk(Next(c, s, Append(now, waited)))
  {
    var t := Next(c, s, Append(now, waited));
    AppendKeepsNumbered(c, s, now, waited);
    forall k | |s.slots| <= k < |t.slots|
      ensures t.slots[k].index !in s.calls && t.slots[k].outcome != Some(Completed)
    {
      KnownIsBelow(c, s, t.slots[k].index);
    }
    AppendKeepsCalls(c, s, t);
  }

  lemma TakenIsNew(s: State, w: nat, i: nat)
    requires ClosedNumbered(s) && w < |s.workers| && s.workers[w].Holding?
    ensures Known(s, i) ==> i != s.workers[w].slot.index
  {
  }

  lemma AppendTakenKeepsCalls(c: Setup, s: State, w: nat)
    requires Numbered(c, s) && OneSender(c, s) && StagesOk(c, s) && CallsOk(s)
    requires Enabled(c, s, AppendTaken(w)) && !s.main.Finalised?
    ensures CallsOk(Next(c, s, AppendTaken(w)))
  {
    var t := Next(c, s, AppendTaken(w));
    TakenIsNew(s, w, s.workers[w].slot.index);
    AppendKeepsCalls(c, s, t.(workers := s.workers));
    SameSlotsKnown(t.(workers := s.workers), t);
  }

  lemma SameSlotsKnown(s: State, t: State)
    requires t.slots == s.slots && t.calls == s.calls
    requires (forall i :: i in s.calls ==> Known(s, i)) && forall k :: 0 <= k < |s.slots| ==> CallsFor(s, k)
    ensures (forall i :: i in t.calls ==> Known(t, i)) && forall k :: 0 <= k < |t.slots| ==> CallsFor(t, k)
  {
    forall i | i in t.calls
      ensures Known(t, i)
    {
      KnownStays(s, t, i);
    }
    forall k | 0 <= k < |t.slots|
      ensures CallsFor(t, k)
    {
      assert CallsFor(s, k);
    }
  }

  lemma IdleKeepsCalls(s: State, t: State)
    requires CallsOk(s) && t.slots == s.slots && t.calls == s.calls && |t.workers| == |s.workers|
    requires forall w :: 0 <= w < |s.workers| && t.workers[w].Sending? ==> t.workers[w] == s.workers[w]
    ensures CallsOk(t)
  {
    SameSlotsKnown(s, t);
  }

  lemma PickKeepsCalls(c: Setup, s: State, w: nat, k: nat)
    requires OneSender(c, s) && StagesOk(c, s) && CallsOk(s) && Enabled(c, s, Pick(w, k))
    ensures CallsOk(Next(c, s, Pick(w, k)))
  {
    assert CallsFor(s, k);
    SameSlotsKnown(s, Next(c, s, Pick(w, k)));
  }

  lemma OpenedKeepsCallsFor(c: Setup, s: State, w: nat, now: real)
    requires StagesOk(c, s) && CallsOk(s) && At(s, w, Ready)
    ensures var k := s.workers[w].at;
      var slot := Opened(c, s.main.Finalised?, s.slots[k], now).0;
      CallsFor(s.(slots := s.slots[k := slot]), k)
  {
    OpenedIsOk(c, s.main.Finalised?, s.slots[s.workers[w].at], now);
    assert CallsFor(s, s.workers[w].at);
  }

  lemma EndedKeepsCallsFor(c: Setup, s: State, w: nat)
    requires StagesOk(c, s) && CallsOk(s) && AtReturned(s, w)
    ensures var k := s.workers[w].at;
      var slot := Ended(s.main.Finalised?, s.slots[k], s.workers[w].send.finished, s.workers[w].send.result);
      slot.index == s.slots[k].index && CallsFor(s.(slots := s.slots[k := slot]), k)
  {
    assert CallsFor(s, s.workers[w].at);
  }

  lemma SendKeepsCalls(c: Setup, s: State, step: Step, w: nat)
    requires OneSender(c, s) && StagesOk(c, s) && CallsOk(s) && DistinctIndices(s.slots) && Enabled(c, s, step)
    requires step.Begin? || step.Return? || step.Raise? || step.End?
    requires w == step.worker
    ensures CallsOk(Next(c, s, step))
  {
    var t := Next(c, s, step);
    if step.Begin? {
      OpenedKeepsCallsFor(c, s, w, step.now);
    }
    if step.End? {
      EndedKeepsCallsFor(c, s, w);
    }
    forall j | 0 <= j < |s.slots|
      ensures t.slots[j].index == s.slots[j].index && CallsFor(t, j)
    {
      assert CallsFor(s, j);
    }
    QuietKeepsCalls(c, s, t, w);
  }

  lemma StepKeepsCallsOk(c: Setup, s: State, step: Step)
    requires Counted(c) && Numbered(c, s) && OneSender(c, s) && StagesOk(c, s) && CallsOk(s) && Enabled(c, s, step)
    ensures CallsOk(Next(c, s, step))
  {
    var t := Next(c, s, step);
    NumberedIsDistinct(c, s);
    match step {
      case Append(now, waited) => OpenAppendKeepsCalls(c, s, now, waited);
      case Pick(w, k) => PickKeepsCalls(c, s, w, k);
      case Call(w) => CallKeepsCalls(c, s, w);
      case AppendTaken(w) =>
        if s.main.Finalised? { IdleKeepsCalls(s, t); } else { AppendTakenKeepsCalls(c, s, w); }
      case Begin(w, _) => SendKeepsCalls(c, s, step, w);
      case Return(w, _, _) => SendKeepsCalls(c, s, step, w);
      case Raise(w) => SendKeepsCalls(c, s, step, w);
      case End(w) => SendKeepsCalls(c, s, step, w);
      case _ => IdleKeepsCalls(s, t);
    }
  }

  lemma StepKeepsBalanced(c: Setup, s: State, step: Step)
    requires Balanced(s) && Enabled(c, s, step)
    ensures Balanced(Next(c, s, step))
  {
    var t := Next(c, s, step);
    match step {
      case Pick(w, _) => CallingUpdate(s.workers, w, t.workers[w]);
      case Take(w, _, _, _) => CallingUpdate(s.workers, w, t.workers[w]);
      case Leave(w) => CallingUpdate(s.workers, w, t.workers[w]);
      case AppendTaken(w) => CallingUpdate(s.workers, w, t.workers[w]);
      case Begin(w, _) => CallingUpdate(s.workers, w, t.workers[w]);
      case Call(w) => CallingUpdate(s.workers, w, t.workers[w]);
      case Return(w, _, _) => CallingUpdate(s.workers, w, t.workers[w]);
      case Raise(w) => CallingUpdate(s.workers, w, t.workers[w]);
      case End(w) => CallingUpdate(s.workers, w, t.workers[w]);
      case _ =>
    }
  }

  /** Nothing changes a slot once the run is finalised. */
  lemma FinalisedSlotsStay(c: Setup, s: State, step: Step)
    requires Enabled(c, s, step) && s.main.Finalised?
    ensures Next(c, s, step).slots == s.slots && Next(c, s, step).main == s.main
  {
  }

  lemma StepKeepsRecordsOk(c: Setup, s: State, step: Step)
    requires RecordsOk(s) && Enabled(c, s, step)
    ensures RecordsOk(Next(c, s, step))
  {
    if s.main.Finalised? {
      FinalisedSlotsStay(c, s, step);
    }
  }

  // What happened to each slot

  lemma SendKeepsTraces(c: Setup, s: State, t: State, w: nat)
    requires OneSender(c, s) && Traced(c, s) && |t.slots| == |s.slots| && |t.traces| == |s.traces|
    requires w < |s.workers| == |t.workers| && t.workers == s.workers[w := t.workers[w]]
    requires s.workers[w].Sending? && s.workers[w].at < |s.slots|
    requires forall k :: 0 <= k < |s.slots| && k != s.workers[w].at ==> t.slots[k] == s.slots[k] && t.traces[k] == s.traces[k]
    requires SlotTrue(c, t.slots[s.workers[w].at], t.traces[s.workers[w].at])
    requires t.workers[w].Sending? ==>
      t.workers[w].at == s.workers[w].at && SendTrue(t.workers[w].send, t.traces[s.workers[w].at])
    ensures Traced(c, t)
  {
    hide SlotTrue, SendTrue;
  }

  lemma AppendKeepsTraces(c: Setup, s: State, t: State)
    requires OneSender(c, s) && Traced(c, s) && |t.traces| == |t.slots| >= |s.slots| && t.workers == s.workers
    requires forall k :: 0 <= k < |s.slots| ==> t.slots[k] == s.slots[k] && t.traces[k] == s.traces[k]
    requires forall k :: |s.slots| <= k < |t.slots| ==> SlotTrue(c, t.slots[k], t.traces[k])
    ensures Traced(c, t)
  {
    hide SlotTrue, SendTrue;
  }

  lemma IdleKeepsTraces(c: Setup, s: State, t: State, w: nat)
    requires Traced(c, s) && t.slots == s.slots && t.traces == s.traces
    requires w < |s.workers| == |t.workers| && t.workers == s.workers[w := t.workers[w]]
    requires t.workers[w].Sending? && t.workers[w].at < |s.slots| ==>
      SendTrue(t.workers[w].send, s.traces[t.workers[w].at])
    ensures Traced(c, t)
  {
    hide SlotTrue, SendTrue;
  }

  lemma OpenedIsTrue(c: Setup, closed: bool, slot: Slot, t: Trace, now: real)
    requires Untouched(slot) && SlotTrue(c, slot, t)
    ensures SlotTrue(c, Opened(c, closed, slot, now).0, if closed then t else t.(seen := Some(now)))
    ensures Opened(c, closed, slot, now).1 <==> !closed && InWindow(c, slot.scheduledAt, now)
  {
  }

  lemma EndedIsTrue(c: Setup, closed: bool, slot: Slot, t: Trace, finished: real, result: int)
    requires InFlight(slot) && SlotTrue(c, slot, t) && t.answer == Some(Answer(finished, result))
    ensures SlotTrue(c, Ended(closed, slot, finished, result), t)
  {
  }

  lemma PickKeepsTraces(c: Setup, s: State, w: nat, k: nat)
    requires StagesOk(c, s) && Traced(c, s) && Enabled(c, s, Pick(w, k))
    ensures Traced(c, Next(c, s, Pick(w, k)))
  {
    IdleKeepsTraces(c, s, Next(c, s, Pick(w, k)), w);
  }

  lemma StepKeepsTraced(c: Setup, s: State, step: Step)
    requires Counted(c) && Numbered(c, s) && OneSender(c, s) && StagesOk(c, s) && Traced(c, s) && Enabled(c, s, step)
    ensures Traced(c, Next(c, s, step))
  {
    var t := Next(c, s, step);
    match step {
      case Append(_, _) => AppendKeepsTraces(c, s, t);
      case Pick(w, k) => PickKeepsTraces(c, s, w, k);
      case Take(w, _, _, _) => IdleKeepsTraces(c, s, t, w);
      case Leave(w) => IdleKeepsTraces(c, s, t, w);
      case AppendTaken(w) => AppendTakenKeepsTraces(c, s, w);
      case Begin(w, _) => SendStaysTrue(c, s, step, w);
      case Call(w) => SendStaysTrue(c, s, step, w);
      case Return(w, _, _) => SendStaysTrue(c, s, step, w);
      case Raise(w) => SendStaysTrue(c, s, step, w);
      case End(w) => SendStaysTrue(c, s, step, w);
      case _ =>
    }
  }

  lemma SendStaysTrue(c: Setup, s: State, step: Step, w: nat)
    requires OneSender(c, s) && StagesOk(c, s) && Traced(c, s) && Enabled(c, s, step)
    requires (step.Begin? || step.Call? || step.Return? || step.Raise? || step.End?) && w == step.worker
    ensures Traced(c, Next(c, s, step))
  {
    var k := s.workers[w].at;
    if step.Begin? {
      OpenedIsTrue(c, s.main.Finalised?, s.slots[k], s.traces[k], step.now);
    }
    if step.End? {
      EndedIsTrue(c, s.main.Finalised?, s.slots[k], s.traces[k], s.workers[w].send.finished, s.workers[w].send.result);
    }
    SendKeepsTraces(c, s, Next(c, s, step), w);
  }

  lemma AppendTakenKeepsTraces(c: Setup, s: State, w: nat)
    requires OneSender(c, s) && StagesOk(c, s) && Traced(c, s) && Enabled(c, s, AppendTaken(w))
    ensures Traced(c, Next(c, s, AppendTaken(w)))
  {
    var t := Next(c, s, AppendTaken(w));
    if s.main.Finalised? {
      IdleKeepsTraces(c, s, t, w);
    } else {
      AppendKeepsTraces(c, s, t.(workers := s.workers));
      IdleKeepsTraces(c, t.(workers := s.workers), t, w);
    }
  }

  // No request is forgotten

  lemma WorkerStays(s: State, t: State, k: nat, begun: bool, w: nat)
    requires HasWorker(s, k, begun) && |t.workers| == |s.workers|
    requires forall v :: 0 <= v < |s.workers| && v != w ==> t.workers[v] == s.workers[v]
    requires w < |s.workers| && s.workers[w].Sending? && s.workers[w].at == k && (s.workers[w].send.Ready? <==> !begun) ==>
      t.workers[w].Sending? && t.workers[w].at == k && (t.workers[w].send.Ready? <==> !begun)
    ensures HasWorker(t, k, begun)
  {
    var v :| 0 <= v < |s.workers| && s.workers[v].Sending? && s.workers[v].at == k && (s.workers[v].send.Ready? <==> !begun);
    assert t.workers[v].Sending? && t.workers[v].at == k && (t.workers[v].send.Ready? <==> !begun);
  }

  lemma HolderStays(s: State, t: State, i: nat, w: nat)
    requires Holds(s, i) && |t.workers| == |s.workers|
    requires forall v :: 0 <= v < |s.workers| && v != w ==> t.workers[v] == s.workers[v]
    requires w < |s.workers| && s.workers[w].Holding? && s.workers[w].slot.index == i ==> t.workers[w] == s.workers[w]
    ensures Holds(t, i)
  {
    var v :| 0 <= v < |s.workers| && s.workers[v].Holding? && s.workers[v].slot.index == i;
    assert t.workers[v].Holding? && t.workers[v].slot.index == i;
  }
 
  /** What one worker does concerns its own slot only. */
  lemma OthersWait(c: Setup, s: State, t: State, w: nat, k: nat)
    requires NothingForgotten(c, s) && OneSender(c, s) && !s.main.Finalised? && t.main == s.main && |t.slots| == |s.slots|
    requires w < |s.workers| == |t.workers| && t.workers == s.workers[w := t.workers[w]]
    requires k < |s.slots| && t.slots[k] == s.slots[k] && |t.traces| == |s.traces|
    requires k < |s.traces| ==> t.traces[k] == s.traces[k]
    requires k in s.queued ==> k in t.queued
    requires !(s.workers[w].Sending? && s.workers[w].at == k)
    ensures t.slots[k].outcome.None? ==>
      if t.slots[k].dispatchedAt.None? then Waits(c, t, k)
      else HasWorker(t, k, true) || (k < |t.traces| && t.traces[k].raised)
  {
    if s.slots[k].outcome.None? {
      if s.slots[k].dispatchedAt.None? {
        if HasWorker(s, k, false) {
          WorkerStays(s, t, k, false, w);
        }
      } else if HasWorker(s, k, true) {
        WorkerStays(s, t, k, true, w);
      }
    }
  }

  lemma TakenStay(c: Setup, s: State, t: State, w: nat)
    requires NothingForgotten(c, s) && !s.main.Finalised? && !c.open && t.nextIndex == s.nextIndex
    requires w < |s.workers| == |t.workers| && t.workers == s.workers[w := t.workers[w]] && !s.workers[w].Holding?
    requires |s.slots| <= |t.slots| && forall k :: 0 <= k < |s.slots| ==> t.slots[k].index == s.slots[k].index
    ensures forall i: nat :: i < t.nextIndex ==> Known(t, i) || Holds(t, i)
  {
    forall i: nat | i < t.nextIndex
      ensures Known(t, i) || Holds(t, i)
    {
      if Known(s, i) {
        KnownStays(s, t, i);
      } else {
        HolderStays(s, t, i, w);
      }
    }
  }

  /** A worker that sends: its own slot is still with it, or decided, or its hook raised. */
  lemma SendForgetsNothing(c: Setup, s: State, step: Step, w: nat)
    requires Numbered(c, s) && OneSender(c, s) && StagesOk(c, s) && Traced(c, s) && NothingForgotten(c, s)
    requires Enabled(c, s, step) && (step.Begin? || step.Call? || step.Return? || step.Raise? || step.End?) && w == step.worker
    ensures NothingForgotten(c, Next(c, s, step))
  {
    hide Numbered, Waits, Holds;
    var t := Next(c, s, step);
    if !s.main.Finalised? {
      var own := s.workers[w].at;
      forall k | 0 <= k < |t.slots| && t.slots[k].outcome.None?
        ensures if t.slots[k].dispatchedAt.None? then Waits(c, t, k)
          else HasWorker(t, k, true) || (k < |t.traces| && t.traces[k].raised)
      {
        if k == own {
          if t.workers[w].Sending? {
            assert HasWorker(t, k, true);
          }
        } else {
          OthersWait(c, s, t, w, k);
        }
      }
      SendKeepsIndices(c, s, step, w);
      if !c.open {
        TakenStay(c, s, t, w);
      }
    }
  }

  lemma SendKeepsIndices(c: Setup, s: State, step: Step, w: nat)
    requires Enabled(c, s, step) && (step.Begin? || step.Call? || step.Return? || step.Raise? || step.End?) && w == step.worker
    ensures forall k :: 0 <= k < |s.slots| ==> Next(c, s, step).slots[k].index == s.slots[k].index
  {
  }

  lemma PickForgetsNothing(c: Setup, s: State, w: nat, k: nat)
    requires OneSender(c, s) && StagesOk(c, s) && NothingForgotten(c, s) && Enabled(c, s, Pick(w, k))
    ensures NothingForgotten(c, Next(c, s, Pick(w, k)))
  {
    var t := Next(c, s, Pick(w, k));
    if !s.main.Finalised? {
      forall j | 0 <= j < |t.slots| && t.slots[j].outcome.None?
        ensures if t.slots[j].dispatchedAt.None? then Waits(c, t, j)
          else HasWorker(t, j, true) || (j < |t.traces| && t.traces[j].raised)
      {
        if j == k {
          assert t.workers[w].Sending? && t.workers[w].at == k;
          assert HasWorker(t, k, false);
          if HasWorker(s, k, true) {
            WorkerStays(s, t, k, true, w);
          }
        } else {
          OthersWait(c, s, t, w, j);
        }
      }
    }
  }

  lemma AppendForgetsNothing(c: Setup, s: State, now: real, waited: real)
    requires OneSender(c, s) && Traced(c, s) && NothingForgotten(c, s) && Enabled(c, s, Append(now, waited))
    ensures NothingForgotten(c, Next(c, s, Append(now, waited)))
  {
    var t := Next(c, s, Append(now, waited));
    forall k | 0 <= k < |t.slots| && t.slots[k].outcome.None?
      ensures if t.slots[k].dispatchedAt.None? then Waits(c, t, k)
        else HasWorker(t, k, true) || (k < |t.traces| && t.traces[k].raised)
    {
      if k < |s.slots| {
        assert t.slots[k] == s.slots[k] && t.traces[k] == s.traces[k];
        if HasWorker(s, k, false) {
          WorkerStays(s, t, k, false, |s.workers|);
        }
        if HasWorker(s, k, true) {
          WorkerStays(s, t, k, true, |s.workers|);
        }
      }
    }
  }

  lemma TakeForgetsNothing(c: Setup, s: State, step: Step, w: nat)
    requires OneSender(c, s) && StagesOk(c, s) && Traced(c, s) && NothingForgotten(c, s) && Enabled(c, s, step)
    requires (step.Take? || step.Leave? || step.AppendTaken?) && w == step.worker
    ensures NothingForgotten(c, Next(c, s, step))
  {
    var t := Next(c, s, step);
    if !s.main.Finalised? {
      forall k | 0 <= k < |t.slots| && t.slots[k].outcome.None?
        ensures if t.slots[k].dispatchedAt.None? then Waits(c, t, k)
          else HasWorker(t, k, true) || (k < |t.traces| && t.traces[k].raised)
      {
        if k < |s.slots| {
          assert t.slots[k] == s.slots[k] && t.traces[k] == s.traces[k];
          if HasWorker(s, k, false) {
            WorkerStays(s, t, k, false, w);
          }
          if HasWorker(s, k, true) {
            WorkerStays(s, t, k, true, w);
          }
        } else {
          assert t.workers[w] == Sending(k, Ready);
          assert HasWorker(t, k, false);
        }
      }
      forall i: nat | i < t.nextIndex
        ensures Known(t, i) || Holds(t, i)
      {
        TakenIsHeldOrKnown(c, s, step, w, i);
      }
    }
  }

  lemma TakenIsHeldOrKnown(c: Setup, s: State, step: Step, w: nat, i: nat)
    requires NothingForgotten(c, s) && Enabled(c, s, step) && !s.main.Finalised?
    requires (step.Take? || step.Leave? || step.AppendTaken?) && w == step.worker && i < Next(c, s, step).nextIndex
    ensures Known(Next(c, s, step), i) || Holds(Next(c, s, step), i)
  {
    var t := Next(c, s, step);
    if i == s.nextIndex {
      assert t.workers[w].Holding? && t.workers[w].slot.index == i;
    } else if Known(s, i) {
      KnownStays(s, t, i);
    } else if step.AppendTaken? && s.workers[w].slot.index == i {
      assert t.slots[|s.slots|].index == i;
    } else {
      HolderStays(s, t, i, w);
    }
  }

  lemma MainForgetsNothing(c: Setup, s: State, step: Step)
    requires OneSender(c, s) && NothingForgotten(c, s) && Enabled(c, s, step)
    requires step.Submit? || step.EndOfPlan? || step.Interrupt? || step.Finalise?
    ensures NothingForgotten(c, Next(c, s, step))
  {
    var t := Next(c, s, step);
    if !t.main.Finalised? {
      forall k | 0 <= k < |t.slots| && t.slots[k].outcome.None?
        ensures if t.slots[k].dispatchedAt.None? then Waits(c, t, k)
          else HasWorker(t, k, true) || (k < |t.traces| && t.traces[k].raised)
      {
        if HasWorker(s, k, false) {
          WorkerStays(s, t, k, false, |s.workers|);
        }
        if HasWorker(s, k, true) {
          WorkerStays(s, t, k, true, |s.workers|);
        }
      }
      forall i: nat | !c.open && i < t.nextIndex
        ensures Known(t, i) || Holds(t, i)
      {
        if Known(s, i) {
          KnownStays(s, t, i);
        } else {
          HolderStays(s, t, i, |s.workers|);
        }
      }
    }
  }

  lemma StepForgetsNothing(c: Setup, s: State, step: Step)
    requires Numbered(c, s) && OneSender(c, s) && StagesOk(c, s) && Traced(c, s) && NothingForgotten(c, s)
    requires Enabled(c, s, step)
    ensures NothingForgotten(c, Next(c, s, step))
  {
    match step {
      case Append(now, waited) => AppendForgetsNothing(c, s, now, waited);
      case Pick(w, k) => PickForgetsNothing(c, s, w, k);
      case Take(w, _, _, _) => TakeForgetsNothing(c, s, step, w);
      case Leave(w) => TakeForgetsNothing(c, s, step, w);
      case AppendTaken(w) => TakeForgetsNothing(c, s, step, w);
      case Begin(w, _) => SendForgetsNothing(c, s, step, w);
      case Call(w) => SendForgetsNothing(c, s, step, w);
      case Return(w, _, _) => SendForgetsNothing(c, s, step, w);
      case Raise(w) => SendForgetsNothing(c, s, step, w);
      case End(w) => SendForgetsNothing(c, s, step, w);
      case _ => MainForgetsNothing(c, s, step);
    }
  }

  /** Every interleaving keeps the invariant. */
  lemma StepKeepsInv(c: Setup, s: State, step: Step)
    requires Counted(c) && Inv(c, s) && Enabled(c, s, step)
    ensures Inv(c, Next(c, s, step)) && |Next(c, s, step).workers| == |s.workers|
  {
    StepKeepsNumbered(c, s, step);
    StepKeepsOneSender(c, s, step);
    StepKeepsSlotsOk(c, s, step);
    StepKeepsStagesOk(c, s, step);
    StepKeepsCallsOk(c, s, step);
    StepKeepsBalanced(c, s, step);
    StepKeepsRecordsOk(c, s, step);
    StepKeepsTraced(c, s, step);
    StepForgetsNothing(c, s, step);
  }

  // Whole runs

  ghost predicate CanRun(c: Setup, s: State, steps: seq<Step>)
    decreases |steps|
  {
    steps == [] || (Enabled(c, s, steps[0]) && CanRun(c, Next(c, s, steps[0]), steps[1..]))
  }

  ghost function Run(c: Setup, s: State, steps: seq<Step>): State
    requires CanRun(c, s, steps)
    decreases |steps|
  {
    if steps == [] then s else Run(c, Next(c, s, steps[0]), steps[1..])
  }

  lemma {:induction false} RunKeepsInv(c: Setup, s: State, steps: seq<Step>)
    requires Counted(c) && Inv(c, s) && CanRun(c, s, steps)
    ensures Inv(c, Run(c, s, steps)) && |Run(c, s, steps).workers| == |s.workers|
    decreases |steps|
  {
    if steps != [] {
      StepKeepsInv(c, s, steps[0]);
      RunKeepsInv(c, Next(c, s, steps[0]), steps[1..]);
    }
  }

  lemma {:induction false} FinalisedRunStays(c: Setup, s: State, steps: seq<Step>)
    requires CanRun(c, s, steps) && s.main.Finalised?
    ensures Run(c, s, steps).slots == s.slots && Run(c, s, steps).main == s.main
    decreases |steps|
  {
    if steps != [] {
      FinalisedSlotsStay(c, s, steps[0]);
      FinalisedRunStays(c, Next(c, s, steps[0]), steps[1..]);
    }
  }

  predicate WasSent(outcome: Outcome) { outcome.Completed? || outcome.Abandoned? }

  /** What a record is worth, against the calls the hook really got. */
  ghost predicate RecordSound(c: Setup, calls: multiset<nat>, r: Record) {
    && (WasSent(r.outcome) <==> r.dispatchedAt.Some?)
    && (r.outcome.Completed? <==> r.completedAt.Some?) && (r.outcome.Completed? <==> r.result.Some?)
    && (r.dispatchedAt.Some? ==>
         r.dispatchedAt.value < c.deadline && (c.open ==> r.dispatchedAt.value - r.scheduledAt <= c.maxQueue))
    && (r.outcome.DroppedBacklog? ==> c.open)
    && calls[r.index] <= 1
    && (calls[r.index] == 1 ==> WasSent(r.outcome)) && (r.outcome.Completed? ==> calls[r.index] == 1)
  }

  /** What a record says is what happened to its request: it was sent if and only if it was picked up in
      time, dropped if and only if it was picked up before the deadline but too long after it was due, not
      dispatched if and only if nobody picked it up or only at or after the deadline, and completed with
      what the hook answered. */
  ghost predicate RecordTrue(c: Setup, r: Record, t: Trace) {
    && r.index == t.index && r.rate == t.rate && r.scheduledAt == t.scheduledAt && r.waited == t.waited
    && (WasSent(r.outcome) <==> t.seen.Some? && InWindow(c, r.scheduledAt, t.seen.value))
    && r.dispatchedAt == (if WasSent(r.outcome) then t.seen else None)
    && (r.outcome.DroppedBacklog? <==>
         t.seen.Some? && t.seen.value < c.deadline && c.open && t.seen.value - r.scheduledAt > c.maxQueue)
    && (r.outcome.NotDispatched? <==> t.seen.None? || t.seen.value >= c.deadline)
    && (r.outcome.Completed? ==>
         r.completedAt.Some? && r.result.Some? && t.answer == Some(Answer(r.completedAt.value, r.result.value)))
  }

  ghost predicate IsTrue(c: Setup, traces: seq<Trace>, r: Record) {
    exists k :: 0 <= k < |traces| && RecordTrue(c, r, traces[k])
  }

  lemma RecordIsTrue(c: Setup, s: State, k: nat)
    requires Traced(c, s) && k < |s.slots|
    ensures IsTrue(c, s.traces, Freeze(s.slots[k]))
  {
    assert SlotTrue(c, s.slots[k], s.traces[k]);
    assert RecordTrue(c, Freeze(s.slots[k]), s.traces[k]);
  }

  ghost predicate OnePerArrival(c: Setup, records: seq<Record>) {
    && |records| == |c.schedule|
    && forall i :: 0 <= i < |records| ==>
         records[i].index == i && records[i].rate == c.schedule[i].rate && records[i].scheduledAt == DueAt(c, c.schedule[i])
  }

  ghost predicate HasRecord(records: seq<Record>, i: nat) {
    exists r :: r in records && r.index == i
  }

  lemma RecordIsSound(c: Setup, s: State, k: nat)
    requires Inv(c, s) && k < |s.slots|
    ensures RecordSound(c, s.calls, Freeze(s.slots[k]))
  {
    assert CallsFor(s, k) && SlotOk(c, s.slots[k]);
  }

  lemma RecordHasSlot(slots: seq<Slot>, r: Record) returns (k: nat)
    requires r in Sort(IndexLeq, Frozen(slots))
    ensures k < |slots| && r == Freeze(slots[k])
  {
    SortSorts(IndexLeq, Frozen(slots));
    assert r in multiset(Frozen(slots));
    k :| 0 <= k < |slots| && Frozen(slots)[k] == r;
  }

  lemma SlotHasRecord(slots: seq<Slot>, k: nat)
    requires k < |slots|
    ensures Freeze(slots[k]) in Sort(IndexLeq, Frozen(slots))
  {
    SortSorts(IndexLeq, Frozen(slots));
    assert Frozen(slots)[k] in multiset(Frozen(slots));
  }

  ghost predicate StrictlyAscending(records: seq<Record>) {
    forall i, j :: 0 <= i < j < |records| ==> records[i].index < records[j].index
  }

  lemma RecordsAreDistinct(slots: seq<Slot>)
    requires DistinctIndices(slots)
    ensures StrictlyAscending(Sort(IndexLeq, Frozen(slots)))
  {
    var records, frozen := Sort(IndexLeq, Frozen(slots)), Frozen(slots);
    SortSorts(IndexLeq, frozen);
    forall i, j | 0 <= i < j < |records|
      ensures records[i].index < records[j].index
    {
      assert IndexLeq(records[i], records[j]);
      var a := RecordHasSlot(slots, records[i]);
      var b := RecordHasSlot(slots, records[j]);
      if a == b {
        RepeatCounts(records, i, j);
        DistinctCounts(frozen, records[i]);
      }
    }
  }

  lemma RecordsAreSound(c: Setup, s: State)
    requires Inv(c, s)
    ensures forall r :: r in Sort(IndexLeq, Frozen(s.slots)) ==> RecordSound(c, s.calls, r) && IsTrue(c, s.traces, r)
  {
    hide Inv;
    forall r | r in Sort(IndexLeq, Frozen(s.slots))
      ensures RecordSound(c, s.calls, r) && IsTrue(c, s.traces, r)
    {
      var k := RecordHasSlot(s.slots, r);
      RecordIsSound(c, s, k);
      InvIsTraced(c, s);
      RecordIsTrue(c, s, k);
    }
  }

  lemma InvIsTraced(c: Setup, s: State)
    requires Inv(c, s)
    ensures Traced(c, s) && NothingForgotten(c, s)
  {
  }

  lemma CallsHaveRecords(s: State)
    requires CallsOk(s)
    ensures forall i :: i in s.calls ==> HasRecord(Sort(IndexLeq, Frozen(s.slots)), i)
  {
    forall i | i in s.calls
      ensures HasRecord(Sort(IndexLeq, Frozen(s.slots)), i)
    {
      assert Known(s, i);
      var k :| 0 <= k < |s.slots| && s.slots[k].index == i;
      SlotHasRecord(s.slots, k);
      assert Freeze(s.slots[k]).index == i;
    }
  }

  lemma OpenRecords(c: Setup, s: State)
    requires OpenNumbered(c, s) && |s.slots| == |c.schedule|
    ensures OnePerArrival(c, Sort(IndexLeq, Frozen(s.slots)))
  {
    SortOfSorted(IndexLeq, Frozen(s.slots));
  }

  /** In a finalised run each index has at most one record, in index order; an open loop that was not
      interrupted has exactly one for each arrival; and each record says truly whether and when its
      request went out. */
  ghost predicate Faithful(c: Setup, calls: multiset<nat>, traces: seq<Trace>, aborted: bool, records: seq<Record>) {
    && StrictlyAscending(records)
    && (c.open && !aborted ==> OnePerArrival(c, records))
    && (forall r :: r in records ==> RecordSound(c, calls, r) && IsTrue(c, traces, r))
    && (forall i :: i in calls ==> HasRecord(records, i))
  }

  lemma FinalRecords(c: Setup, s: State)
    requires Inv(c, s) && s.main.Finalised?
    ensures Faithful(c, s.calls, s.traces, s.main.aborted, s.main.records)
  {
    NumberedIsDistinct(c, s);
    RecordsAreDistinct(s.slots);
    RecordsAreSound(c, s);
    CallsHaveRecords(s);
    if c.open && !s.main.aborted {
      OpenRecords(c, s);
    }
  }

  /** The engine's promise, for every interleaving of any number of workers: the records of a
      finalised run are faithful, and however the workers go on afterwards they change no record and
      make no call that the records do not account for. */
  lemma RecordsOfARun(c: Setup, size: nat, steps: seq<Step>, more: seq<Step>)
    requires Counted(c) && CanRun(c, Initial(size), steps) && Run(c, Initial(size), steps).main.Finalised?
    requires CanRun(c, Run(c, Initial(size), steps), more)
    ensures var main := Run(c, Initial(size), steps).main;
      var later := Run(c, Run(c, Initial(size), steps), more);
      later.main == main && Faithful(c, later.calls, later.traces, main.aborted, main.records)
  {
    var s := Run(c, Initial(size), steps);
    InitialInv(c, size);
    RunKeepsInv(c, Initial(size), steps);
    RunKeepsInv(c, s, more);
    FinalisedRunStays(c, s, more);
    FinalRecords(c, Run(c, s, more));
  }

  /** At every moment of every run that is not yet finalised: a request that was not decided about waits
      for a worker, one that was dispatched is being sent unless its hook raised, and in a closed loop an
      index that was taken is recorded or about to be. */
  lemma NoRequestIsForgotten(c: Setup, size: nat, steps: seq<Step>)
    requires Counted(c) && CanRun(c, Initial(size), steps)
    ensures NothingForgotten(c, Run(c, Initial(size), steps))
  {
    InitialInv(c, size);
    RunKeepsInv(c, Initial(size), steps);
    InvIsTraced(c, Run(c, Initial(size), steps));
  }

  /** An open loop does not get stuck: when nobody but the main thread's stop is left to move, the whole plan
      has been dispatched or interrupted and every send that was submitted is over. */
  lemma AtRestAllIsDone(c: Setup, size: nat, steps: seq<Step>)
    requires Counted(c) && c.open && size >= 1 && CanRun(c, Initial(size), steps)
    requires var s := Run(c, Initial(size), steps);
      !s.main.Finalised? && forall step :: Enabled(c, s, step) ==> step.Interrupt? || step.Finalise?
    ensures var s := Run(c, Initial(size), steps); s.main.Waiting? && AllDone(c, s)
  {
    hide Inv, OneSender, Numbered, AllDone, Next;
    var s := Run(c, Initial(size), steps);
    InitialInv(c, size);
    RunKeepsInv(c, Initial(size), steps);
    RunKeepsWorkers(c, Initial(size), steps);
    InvIsNumbered(c, s);
    NobodyCanMove(c, s);
  }

  lemma InvIsNumbered(c: Setup, s: State)
    requires Inv(c, s)
    ensures Numbered(c, s) && OneSender(c, s)
  {
    hide Numbered, OneSender, SlotsOk, StagesOk, CallsOk, Balanced, RecordsOk, Traced, NothingForgotten;
  }

  lemma {:induction false} RunKeepsWorkers(c: Setup, s: State, steps: seq<Step>)
    requires CanRun(c, s, steps)
    ensures |Run(c, s, steps).workers| == |s.workers|
    decreases |steps|
  {
    if steps != [] {
      RunKeepsWorkers(c, Next(c, s, steps[0]), steps[1..]);
    }
  }

  lemma NobodyCanMove(c: Setup, s: State)
    requires Numbered(c, s) && OneSender(c, s) && c.open && s.workers != [] && !s.main.Finalised?
    requires forall step :: Enabled(c, s, step) ==> step.Interrupt? || step.Finalise?
    ensures s.main.Waiting? && AllDone(c, s)
  {
    assert !Enabled(c, s, Append(0.0, 0.0)) && !Enabled(c, s, Submit) && !Enabled(c, s, EndOfPlan);
    forall w | 0 <= w < |s.workers|
      ensures s.workers[w].Free?
    {
      assert !Enabled(c, s, Begin(w, 0.0)) && !Enabled(c, s, Call(w)) && !Enabled(c, s, Raise(w)) && !Enabled(c, s, End(w));
    }
    assert forall k :: k in s.queued ==> Enabled(c, s, Pick(0, k));
  }

  /** Nothing is cut short: a run that is finalised before its deadline, without an interrupt and with no hook
      that raised, has abandoned no request; each was completed, dropped, or seen at or after the deadline. */
  lemma NothingIsCutShort(c: Setup, size: nat, steps: seq<Step>, now: real)
    requires Counted(c) && CanRun(c, Initial(size), steps)
    requires var s := Run(c, Initial(size), steps);
      Enabled(c, s, Finalise(now)) && now < c.deadline && !s.main.aborted && !SomeRaised(s)
    ensures var s := Run(c, Initial(size), steps);
      var records := Next(c, s, Finalise(now)).main.records;
      forall r :: r in records ==>
        && !r.outcome.Abandoned?
        && (r.outcome.NotDispatched? ==> exists k :: 0 <= k < |s.traces| && SeenLate(c, s.traces[k], r.index))
  {
    InitialInv(c, size);
    RunKeepsInv(c, Initial(size), steps);
    AllAreDecided(c, Run(c, Initial(size), steps), now);
  }

  ghost predicate SeenLate(c: Setup, t: Trace, index: nat) {
    t.index == index && t.seen.Some? && t.seen.value >= c.deadline
  }

  lemma AllAreDecided(c: Setup, s: State, now: real)
    requires Traced(c, s) && NothingForgotten(c, s)
    requires Enabled(c, s, Finalise(now)) && now < c.deadline && !s.main.aborted && !SomeRaised(s)
    ensures forall r :: r in Next(c, s, Finalise(now)).main.records ==>
      && !r.outcome.Abandoned?
      && (r.outcome.NotDispatched? ==> exists k :: 0 <= k < |s.traces| && SeenLate(c, s.traces[k], r.index))
  {
    hide Sort;
    forall r | r in Next(c, s, Finalise(now)).main.records
      ensures !r.outcome.Abandoned?
      ensures r.outcome.NotDispatched? ==> exists k :: 0 <= k < |s.traces| && SeenLate(c, s.traces[k], r.index)
    {
      var k := RecordHasSlot(s.slots, r);
      IsDecided(c, s, now, k);
      assert SlotTrue(c, s.slots[k], s.traces[k]);
      assert r.outcome.NotDispatched? ==> SeenLate(c, s.traces[k], r.index);
    }
  }

  lemma IsDecided(c: Setup, s: State, now: real, k: nat)
    requires NothingForgotten(c, s) && |s.traces| == |s.slots| && k < |s.slots|
    requires Enabled(c, s, Finalise(now)) && now < c.deadline && !s.main.aborted && !SomeRaised(s)
    ensures s.slots[k].outcome.Some?
  {
    assert AllDone(c, s);
    assert !s.traces[k].raised && !HasWorker(s, k, true) && !HasWorker(s, k, false);
  }

  lemma {:induction false} CallingAtMost(workers: seq<Worker>)
    ensures Calling(workers) <= |workers|
  {
    if workers != [] {
      CallingAtMost(workers[1..]);
    }
  }

  /** At every moment of every run, at most `concurrency` calls of the hook are out. */
  lemma InFlightAtMostConcurrency(c: Setup, size: nat, steps: seq<Step>)
    requires Counted(c) && CanRun(c, Initial(size), steps)
    ensures var s := Run(c, Initial(size), steps); s.returned <= |s.calls| <= s.returned + size
  {
    InitialInv(c, size);
    RunKeepsInv(c, Initial(size), steps);
    CallingAtMost(Run(c, Initial(size), steps).workers);
  }

  lemma SchedulesAreCounted(c: Setup, stages: seq<Plans.Stage>)
    requires Rated(stages) && c.schedule == Schedule(stages)
    ensures Counted(c)
  {
    forall k | 0 <= k < |c.schedule|
      ensures c.schedule[k].index == k
    {
      EveryArrivalIsAtHome(stages, k);
    }
  }

  lemma OneStepOn(c: Setup, s: State, step: Step, t: State, rest: seq<Step>)
    requires Enabled(c, s, step) && Next(c, s, step) == t && CanRun(c, t, rest)
    ensures CanRun(c, s, [step] + rest) && Run(c, s, [step] + rest) == Run(c, t, rest)
  {
    assert ([step] + rest)[1..] == rest;
  }

  /** In a closed loop indices may be skipped: a worker can take slot 0 and find the run closed. */
  lemma ClosedLoopMaySkipIndices(c: Setup) returns (steps: seq<Step>)
    requires !c.open
    ensures CanRun(c, Initial(2), steps)
    ensures var s := Run(c, Initial(2), steps); s.main.Finalised? && |s.slots| == 1 && s.slots[0].index == 1
  {
    var first, second := FreshSlot(0, 1.0, 0.0, 0.0), FreshSlot(1, 1.0, 0.0, 0.0);
    var start := Dispatching(0, false);
    var s1 := State([], [], {}, [Holding(first), Free], start, 1, multiset{}, 0);
    var s2 := State([], [], {}, [Holding(first), Holding(second)], start, 2, multiset{}, 0);
    var s3 := State([second], [Untraced(1, 1.0, 0.0, 0.0)], {}, [Holding(first), Sending(0, Ready)], start, 2, multiset{}, 0);
    var s4 := s3.(main := Waiting(false));
    var s5 := s3.(main := Finalised(false, Sort(IndexLeq, Frozen([second]))));
    var s6 := s5.(workers := [Exited, Sending(0, Ready)]);
    OneStepOn(c, s5, AppendTaken(0), s6, []);
    steps := [AppendTaken(0)] + [];
    OneStepOn(c, s4, Finalise(c.deadline), s5, steps);
    steps := [Finalise(c.deadline)] + steps;
    OneStepOn(c, s3, EndOfPlan, s4, steps);
    steps := [EndOfPlan] + steps;
    OneStepOn(c, s2, AppendTaken(1), s3, steps);
    steps := [AppendTaken(1)] + steps;
    OneStepOn(c, s1, Take(1, 1.0, 0.0, 0.0), s2, steps);
    steps := [Take(1, 1.0, 0.0, 0.0)] + steps;
    assert Initial(2).workers == [Free, Free];
    OneStepOn(c, Initial(2), Take(0, 1.0, 0.0, 0.0), s1, steps);
    steps := [Take(0, 1.0, 0.0, 0.0)] + steps;
  }

  // The run as an object

  /** One request while the run is live. */
  class LiveSlot {
    const index: nat
    const rate: real
    const scheduledAt: real
    const waited: real
    var dispatchedAt: Option<real>
    var completedAt: Option<real>
    var result: Option<int>
    var outcome: Option<Outcome>

    ghost function View(): Slot
      reads this
    {
      Slot(index, rate, scheduledAt, waited, dispatchedAt, completedAt, result, outcome)
    }

    constructor (index: nat, rate: real, scheduledAt: real, waited: real)
      ensures View() == FreshSlot(index, rate, scheduledAt, waited)
    {
      this.index, this.rate, this.scheduledAt, this.waited := index, rate, scheduledAt, waited;
      dispatchedAt, completedAt, result, outcome := None, None, None, None;
    }

    /** The frozen record: a send that never came back is abandoned, one that never went out is not
        dispatched, and only a completed one keeps its result. */
    method FreezeSlot() returns (r: Record)
      ensures r == Freeze(View())
    {
      var ending := outcome;
      if ending.None? {
        ending := Some(if dispatchedAt.Some? then Abandoned else NotDispatched);
      }
      var completed := ending == Some(Completed);
      r := Record(index, rate, scheduledAt, ending.value, dispatchedAt,
        if completed then completedAt else None, if completed then result else None, waited);
    }
  }

  /** `_Run`: what the dispatcher, the workers and the finaliser share. `state` is where the whole run
      stands in the protocol above: each method is one stretch under the run's lock and takes the step of
      the protocol that its comment names; what happens outside the lock is `Elsewhere`. */
  class LiveRun {
    const setup: Setup
    var closed: bool
    var slots: seq<LiveSlot>
    ghost var state: State

    ghost function Views(): (views: seq<Slot>)
      reads this, slots
      ensures |views| == |slots| && forall i :: 0 <= i < |slots| ==> views[i] == slots[i].View()
    {
      seq(|slots|, i requires 0 <= i < |slots| reads this, slots => slots[i].View())
    }

    ghost predicate Distinct()
      reads this
    {
      forall i, j :: 0 <= i < j < |slots| ==> slots[i] != slots[j]
    }

    ghost predicate Valid()
      reads this, slots
    {
      && Counted(setup) && Inv(setup, state)
      && state.slots == Views() && Distinct() && (closed <==> state.main.Finalised?)
    }

    constructor (setup: Setup, ghost size: nat)
      requires Counted(setup)
      ensures Valid() && this.setup == setup && state == Initial(size)
    {
      this.setup, closed, slots, state := setup, false, [], Initial(size);
      new;
      hide Inv, Counted;
      InitialInv(setup, size);
    }

    /** A step taken outside the lock: it neither reads nor writes what the lock guards. */
    ghost predicate OutsideTheLock(step: Step) {
      !step.Append? && !step.AppendTaken? && !step.Begin? && !step.End? && !step.Finalise?
    }

    ghost method Elsewhere(step: Step)
      requires Valid() && Enabled(setup, state, step) && OutsideTheLock(step)
      modifies `state
      ensures Valid() && state == Next(setup, old(state), step)
    {
      hide Inv, Counted;
      StepKeepsInv(setup, state, step);
      state := Next(setup, state, step);
    }

    /** Step Append, before the deadline: the dispatcher adds the slot of its next arrival. */
    method AppendArrival(position: nat, ghost now: real, waited: real)
      requires Valid() && Enabled(setup, state, Append(now, waited))
      requires position == state.main.next && now < setup.deadline
      modifies this
      ensures Valid() && state == Next(setup, old(state), Append(now, waited))
      ensures fresh(set slot | slot in slots && slot !in old(slots))
    {
      hide Inv, Counted;
      StepKeepsInv(setup, state, Append(now, waited));
      var arrival := setup.schedule[position];
      var slot := new LiveSlot(arrival.index, arrival.rate, setup.startedAt + arrival.offset, waited);
      slots := slots + [slot];
      state := Next(setup, state, Append(now, waited));
    }

    /** Step AppendTaken: a closed-loop worker adds the slot it took, unless the run is closed. */
    method AppendTakenSlot(slot: LiveSlot, ghost w: nat) returns (send: bool)
      requires Valid() && Enabled(setup, state, AppendTaken(w))
      requires slot !in slots && slot.View() == state.workers[w].slot
      modifies this
      ensures Valid() && state == Next(setup, old(state), AppendTaken(w))
      ensures slots == old(slots) + (if send then [slot] else [])
      ensures (send <==> state.workers[w].Sending?) && (send <==> !closed)
    {
      hide Inv, Counted;
      StepKeepsInv(setup, state, AppendTaken(w));
      send := !closed;
      if send {
        slots := slots + [slot];
      }
      state := Next(setup, state, AppendTaken(w));
    }

    /** Step Begin, the stretch of `send` before the hook: says whether to call it. */
    method BeginSend(slot: LiveSlot, now: real, ghost w: nat) returns (call: bool)
      requires Valid() && Enabled(setup, state, Begin(w, now)) && slot == slots[state.workers[w].at]
      modifies slot, `state
      ensures Valid() && state == Next(setup, old(state), Begin(w, now))
      ensures call <==> Enabled(setup, state, Call(w))
      ensures call <==> !closed && now < setup.deadline && (setup.open ==> now - slot.scheduledAt <= setup.maxQueue)
    {
      hide Inv, Counted;
      StepKeepsInv(setup, state, Begin(w, now));
      ghost var k := state.workers[w].at;
      call := false;
      if !closed {
        if now >= setup.deadline {
          slot.outcome := Some(NotDispatched);
        } else if setup.open && now - slot.scheduledAt > setup.maxQueue {
          slot.outcome := Some(DroppedBacklog);
        } else {
          slot.dispatchedAt := Some(now);
          call := true;
        }
      }
      assert Views() == old(Views())[k := slot.View()];
      state := Next(setup, state, Begin(w, now));
    }

    /** Step End, the stretch of `send` after the hook. */
    method EndSend(slot: LiveSlot, ghost w: nat, finished: real, result: int)
      requires Valid() && Enabled(setup, state, End(w)) && slot == slots[state.workers[w].at]
      requires state.workers[w].send == Returned(finished, result)
      modifies slot, `state
      ensures Valid() && state == Next(setup, old(state), End(w))
    {
      hide Inv, Counted;
      StepKeepsInv(setup, state, End(w));
      ghost var k := state.workers[w].at;
      if !closed {
        slot.result := Some(result);
        slot.completedAt := Some(finished);
        slot.outcome := Some(Completed);
      }
      assert Views() == old(Views())[k := slot.View()];
      state := Next(setup, state, End(w));
    }

    /** Step Append, past the deadline: the dispatcher accounts for every arrival it still owes. */
    method AppendNeverSent(position: nat, ghost now: real, ghost waited: real)
      requires Valid() && Enabled(setup, state, Append(now, waited))
      requires position == state.main.next && now >= setup.deadline
      modifies this
      ensures Valid() && state == Next(setup, old(state), Append(now, waited))
    {
      hide Inv, Counted, Views;
      StepKeepsInv(setup, state, Append(now, waited));
      AppendLate(position);
      state := Next(setup, state, Append(now, waited));
    }

    /** The loop over the arrivals owed. */
    method AppendLate(position: nat)
      requires position <= |setup.schedule| && Distinct()
      modifies `slots
      ensures Distinct() && Views() == old(Views()) + NeverSent(setup, setup.schedule[position..])
    {
      var n := |slots|;
      for i := position to |setup.schedule|
        invariant |slots| == n + (i - position) && slots[..n] == old(slots) && Distinct()
        invariant fresh(slots[n..])
        invariant forall k :: 0 <= k < n ==> slots[k].View() == old(Views())[k]
        invariant forall k :: n <= k < |slots| ==> slots[k].View() == Late(setup, setup.schedule[position + (k - n)])
      {
        var late := setup.schedule[i];
        var slot := new LiveSlot(late.index, late.rate, setup.startedAt + late.offset, 0.0);
        slot.outcome := Some(NotDispatched);
        assert slot.View() == Late(setup, late);
        var before := slots;
        slots := slots + [slot];
        assert slots[n..] == before[n..] + [slot];
      }
      assert Views() == old(Views()) + NeverSent(setup, setup.schedule[position..]);
    }

    /** Step Finalise: closes the run. The records returned are what the engine promises of every run. */
    method FinaliseRun(ghost now: real) returns (records: seq<Record>)
      requires Valid() && Enabled(setup, state, Finalise(now))
      modifies `closed, `state
      ensures Valid() && closed && state == Next(setup, old(state), Finalise(now))
      ensures records == state.main.records && Faithful(setup, state.calls, state.traces, state.main.aborted, records)
    {
      hide Inv, Counted, Faithful;
      StepKeepsInv(setup, state, Finalise(now));
      closed := true;
      var frozen := FreezeAll();
      records := Sort(IndexLeq, frozen);
      assert Views() == old(Views());
      state := Next(setup, state, Finalise(now));
      FinalRecords(setup, state);
    }

    /** The loop over the slots. */
    method FreezeAll() returns (frozen: seq<Record>)
      ensures frozen == Frozen(Views())
    {
      frozen := [];
      for i := 0 to |slots|
        invariant |frozen| == i && forall k :: 0 <= k < i ==> frozen[k] == Freeze(slots[k].View())
      {
        var r := slots[i].FreezeSlot();
        frozen := frozen + [r];
      }
    }
  }
}
