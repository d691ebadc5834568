/**
 The task scheduler of `AsyncOps` as a state machine: any number of threads, of which the first
 `workers` run the worker loop, calling `schedule_task`, `cancel_tasks_of_tag` and
 `wait_for_schedule_completion` in every interleaving. A thread is a stack of frames, so a running
 task can itself submit, cancel and wait. What the queue mutex protects is one step, except the
 sweep of a cancellation, which changes counters that other threads read without the mutex.
 */
module Scheduler {
  import opened Wrappers

  datatype Task = Task(id: nat, tag: nat, schedule: nat, high: bool)

  type positive = x: int | x > 0 witness 1

  const I32_MAX := 0x7FFF_FFFF

  /** Where a thread stands in one call; the last frame of its stack is the active one. */
  datatype Frame =
    // schedule_worker_loop
    | Top
    | Want
    | Asleep
    | Exited
    // schedule_task: counted but not queued yet; queued but nobody notified yet
    | Submitting(task: Task)
    | NotifyOne
    // one task, from the front of a queue to the decrement of its counter
    | Popped(task: Task)
    | Running(task: Task)
    | Finished(task: Task)
    | NotifyAll(k: nat)
    // wait_for_schedule_completion
    | WaitTop(k: nat)
    | WaitTryPop(k: nat)
    | WaitLoad(k: nat)
    | WaitBlock(k: nat, v: positive)
    | WaitAsleep(k: nat, v: positive)
    // cancel_tasks_of_tag
    | CancelWant(tag: nat)
    | Sweeping

  /** The cancellation that holds the mutex: how far it is, and the queues it found. */
  datatype Sweep = Sweep(owner: nat, tag: nat, inHigh: bool, at: nat, highBefore: seq<Task>, normalBefore: seq<Task>)

  datatype State = State(
    counters: map<nat, int>,
    high: seq<Task>,
    normal: seq<Task>,
    lock: Option<Sweep>,
    threads: seq<seq<Frame>>,
    workers: nat,
    nextId: nat,
    stops: set<nat>)

  datatype Action =
    /** The active frame of thread `i` does its next step. */
    | Go(i: nat)
    /** The `notify_one` of thread `i` reaches the sleeping worker `w`. */
    | WakeWorker(i: nat, w: nat)
    /** Calls made by a thread outside the scheduler or by a running task. */
    | Submit(i: nat, tag: nat, k: nat, high: bool)
    | Cancel(i: nat, tag: nat)
    | Wait(i: nat, k: nat)
    /** A wake-up nobody asked for. */
    | Spurious(i: nat)
    | RequestStop(w: nat)

  datatype Event =
    | Silent
    | Announced(task: Task)
    | Enqueued(task: Task)
    | Taken(task: Task)
    | Started(task: Task)
    | Ended(task: Task)
    | Retired(task: Task)
    | Cancelled(task: Task)
    | WaitReturned(k: nat)
    | CancelReturned(sweep: Sweep)

  predicate Init(s: State) {
    && s.counters == map[] && s.high == [] && s.normal == [] && s.lock == None
    && s.nextId == 0 && s.stops == {} && s.workers <= |s.threads|
    && forall i :: 0 <= i < |s.threads| ==> s.threads[i] == if i < s.workers then [Top] else []
  }

  // ---- Shared state ----

  function Load(s: State, k: nat): int {
    if k in s.counters then s.counters[k] else 0
  }

  function Add(s: State, k: nat, d: int): State {
    s.(counters := s.counters[k := Load(s, k) + d])
  }

  predicate Ready(s: State) {
    s.high != [] || s.normal != []
  }

  /** The high queue goes first. */
  function NextTask(s: State): Task
    requires Ready(s)
  {
    if s.high != [] then s.high[0] else s.normal[0]
  }

  function RemoveAt(q: seq<Task>, p: nat): seq<Task>
    requires p < |q|
  {
    q[..p] + q[p + 1..]
  }

  function PopNext(s: State): State
    requires Ready(s)
  {
    if s.high != [] then s.(high := RemoveAt(s.high, 0)) else s.(normal := RemoveAt(s.normal, 0))
  }

  function Append(s: State, t: Task): State {
    if t.high then s.(high := s.high + [t]) else s.(normal := s.normal + [t])
  }

  function SweptQueue(s: State, sw: Sweep): seq<Task> {
    if sw.inHigh then s.high else s.normal
  }

  predicate SweepHits(s: State, sw: Sweep) {
    sw.at < |SweptQueue(s, sw)| && SweptQueue(s, sw)[sw.at].tag == sw.tag
  }

  /** One round of a sweep: `fetch_sub` and erase, go on, change queues, or release the mutex. */
  function SweepRound(s: State, sw: Sweep): State {
    var q := SweptQueue(s, sw);
    if SweepHits(s, sw) then
      var s' := Add(s, q[sw.at].schedule, -1);
      if sw.inHigh then s'.(high := RemoveAt(q, sw.at)) else s'.(normal := RemoveAt(q, sw.at))
    else if sw.at < |q| then s.(lock := Some(sw.(at := sw.at + 1)))
    else if sw.inHigh then s.(lock := Some(sw.(inHigh := false, at := 0)))
    else s.(lock := None)
  }

  // ---- Threads ----

  function Below(st: seq<Frame>): seq<Frame>
    requires st != []
  {
    st[..|st| - 1]
  }

  function Active(st: seq<Frame>): Frame
    requires st != []
  {
    st[|st| - 1]
  }

  function SetStack(s: State, i: nat, st: seq<Frame>): State
    requires i < |s.threads|
  {
    s.(threads := s.threads[i := st])
  }

  predicate MayCall(st: seq<Frame>) {
    st == [] || Active(st).Running?
  }

  predicate SleepingWorker(s: State, w: nat) {
    w < s.workers && w < |s.threads| && s.threads[w] == [Asleep]
  }

  /** A blocked `atomic::wait` that is notified compares again. */
  function WokenStack(st: seq<Frame>, k: nat): seq<Frame> {
    if st != [] && Active(st).WaitAsleep? && Active(st).k == k
    then Below(st) + [WaitBlock(k, Active(st).v)]
    else st
  }

  function WakeWaiters(threads: seq<seq<Frame>>, k: nat): (woken: seq<seq<Frame>>)
    ensures |woken| == |threads|
    ensures forall i :: 0 <= i < |threads| ==> woken[i] == WokenStack(threads[i], k)
  {
    if threads == [] then []
    else WakeWaiters(threads[..|threads| - 1], k) + [WokenStack(threads[|threads| - 1], k)]
  }

  /** Taking the mutex, or waiting for a notification, can hold a frame up. */
  predicate FrameCanGo(s: State, i: nat, f: Frame) {
    match f
    case Asleep => false
    case Exited => false
    case WaitAsleep(_, _) => false
    case NotifyOne => forall w :: 0 <= w < |s.threads| ==> !SleepingWorker(s, w)
    case Want => s.lock.None?
    case Submitting(_) => s.lock.None?
    case WaitTryPop(_) => s.lock.None?
    case CancelWant(_) => s.lock.None?
    case Sweeping => s.lock.Some? && s.lock.value.owner == i
    case _ => true
  }

  predicate Can(s: State, a: Action) {
    match a
    case Go(i) => i < |s.threads| && s.threads[i] != [] && FrameCanGo(s, i, Active(s.threads[i]))
    case WakeWorker(i, w) =>
      && i < |s.threads| && s.threads[i] != [] && Active(s.threads[i]) == NotifyOne
      && SleepingWorker(s, w)
    case Submit(i, _, k, _) => i < |s.threads| && MayCall(s.threads[i]) && s.workers > 0 && Load(s, k) < I32_MAX
    case Cancel(i, _) => i < |s.threads| && MayCall(s.threads[i])
    case Wait(i, _) => i < |s.threads| && MayCall(s.threads[i]) && s.workers > 0
    case Spurious(i) =>
      && i < |s.threads| && s.threads[i] != []
      && (Active(s.threads[i]).Asleep? || Active(s.threads[i]).WaitAsleep?)
    case RequestStop(w) => w < s.workers
  }

  /** What the step of frame `f` does to everything but the stack of its own thread. */
  function Shared(s: State, i: nat, f: Frame): (s': State)
    requires FrameCanGo(s, i, f)
    ensures |s'.threads| == |s.threads| && s'.workers == s.workers && s'.stops == s.stops && s'.nextId == s.nextId
    ensures !f.NotifyAll? ==> s'.threads == s.threads
  {
    match f
    case Want => if Ready(s) then PopNext(s) else s
    case WaitTryPop(_) => if Ready(s) then PopNext(s) else s
    case Submitting(t) => Append(s, t)
    case Finished(t) => Add(s, t.schedule, -1)
    case NotifyAll(k) => s.(threads := WakeWaiters(s.threads, k))
    case CancelWant(tag) => s.(lock := Some(Sweep(i, tag, true, 0, s.high, s.normal)))
    case Sweeping => SweepRound(s, s.lock.value)
    case _ => s
  }

  /** `fetch_sub` returned 1: whoever waits on this counter must be told. */
  function Owed(s: State, k: nat): seq<Frame> {
    if Load(s, k) == 1 then [NotifyAll(k)] else []
  }

  /** The frames that take the place of frame `f`. */
  function Frames(s: State, i: nat, f: Frame): seq<Frame>
    requires FrameCanGo(s, i, f)
  {
    match f
    case Top => [if i in s.stops then Exited else Want]
    case Want => if Ready(s) then [Top, Popped(NextTask(s))] else [if i in s.stops then Exited else Asleep]
    case Submitting(_) => [NotifyOne]
    case NotifyOne => []
    case Popped(t) => [Running(t)]
    case Running(t) => [Finished(t)]
    case Finished(t) => Owed(s, t.schedule)
    case NotifyAll(_) => []
    case WaitTop(k) => if Load(s, k) > 0 then [WaitTryPop(k)] else []
    case WaitTryPop(k) => if Ready(s) then [WaitTop(k), Popped(NextTask(s))] else [WaitLoad(k)]
    case WaitLoad(k) => if Load(s, k) > 0 then [WaitBlock(k, Load(s, k))] else [WaitTop(k)]
    case WaitBlock(k, v) => [if Load(s, k) == v then WaitAsleep(k, v) else WaitTop(k)]
    case CancelWant(_) => [Sweeping]
    case Sweeping =>
      var sw := s.lock.value;
      var q := SweptQueue(s, sw);
      if SweepHits(s, sw) then [Sweeping] + Owed(s, q[sw.at].schedule)
      else if sw.at < |q| || sw.inHigh then [Sweeping]
      else []
    case _ => []
  }

  function FrameEvent(s: State, i: nat, f: Frame): Event
    requires FrameCanGo(s, i, f)
  {
    match f
    case Want => if Ready(s) then Taken(NextTask(s)) else Silent
    case WaitTryPop(_) => if Ready(s) then Taken(NextTask(s)) else Silent
    case Submitting(t) => Enqueued(t)
    case Popped(t) => Started(t)
    case Running(t) => Ended(t)
    case Finished(t) => Retired(t)
    case WaitTop(k) => if Load(s, k) > 0 then Silent else WaitReturned(k)
    case Sweeping =>
      var sw := s.lock.value;
      if SweepHits(s, sw) then Cancelled(SweptQueue(s, sw)[sw.at])
      else if sw.at < |SweptQueue(s, sw)| || sw.inHigh then Silent
      else CancelReturned(sw)
    case _ => Silent
  }

  function Woken(f: Frame): Frame
    requires f.Asleep? || f.WaitAsleep?
  {
    if f.Asleep? then Want else WaitBlock(f.k, f.v)
  }

  function NewTask(s: State, tag: nat, k: nat, high: bool): Task {
    Task(s.nextId, tag, k, high)
  }

  function Next(s: State, a: Action): State
    requires Can(s, a)
  {
    match a
    case Go(i) =>
      var f := Active(s.threads[i]);
      SetStack(Shared(s, i, f), i, Below(s.threads[i]) + Frames(s, i, f))
    case WakeWorker(i, w) => SetStack(SetStack(s, i, Below(s.threads[i])), w, [Want])
    case Submit(i, tag, k, high) =>
      var t := NewTask(s, tag, k, high);
      SetStack(Add(s, k, 1).(nextId := s.nextId + 1), i, s.threads[i] + [Submitting(t)])
    case Cancel(i, tag) => SetStack(s, i, s.threads[i] + [CancelWant(tag)])
    case Wait(i, k) => SetStack(s, i, s.threads[i] + [WaitTop(k)])
    case Spurious(i) => SetStack(s, i, Below(s.threads[i]) + [Woken(Active(s.threads[i]))])
    case RequestStop(w) => s.(stops := s.stops + {w})
  }

  function EventOf(s: State, a: Action): Event
    requires Can(s, a)
  {
    match a
    case Go(i) => FrameEvent(s, i, Active(s.threads[i]))
    case Submit(i, tag, k, high) => Announced(NewTask(s, tag, k, high))
    case _ => Silent
  }

  /** A run: every interleaving of enabled actions, with the events it leaves behind. */
  predicate Run(states: seq<State>, actions: seq<Action>, events: seq<Event>) {
    && |states| == |actions| + 1 == |events| + 1
    && Init(states[0])
    && forall n :: 0 <= n < |actions| ==>
         && Can(states[n], actions[n])
         && states[n + 1] == Next(states[n], actions[n])
         && events[n] == EventOf(states[n], actions[n])
  }

  lemma RunStep(states: seq<State>, actions: seq<Action>, events: seq<Event>, n: nat)
    requires Run(states, actions, events) && n < |events|
    ensures Can(states[n], actions[n]) && states[n + 1] == Next(states[n], actions[n])
    ensures events[n] == EventOf(states[n], actions[n]) && events[..n + 1] == events[..n] + [events[n]]
  {
  }
}
