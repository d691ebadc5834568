/** What each call on the scheduler does over a run, from the arguments it was made with. */
module SchedulerCalls {
  import opened Wrappers
  import opened Scheduler
  import opened SchedulerTasks
  import opened SchedulerOrder
  import opened SchedulerWakeups
  import opened TaggedQueues

  /** A thread outside the scheduler, or in a task body, may make any call; a counter must have room to submit. */
  lemma CallsAreOpen(s: State, i: nat, tag: nat, k: nat, high: bool)
    requires i < |s.threads| && MayCall(s.threads[i])
    ensures Can(s, Cancel(i, tag))
    ensures s.workers > 0 ==> Can(s, Wait(i, k))
    ensures s.workers > 0 && Load(s, k) < 0x7FFF_FFFF ==> Can(s, Submit(i, tag, k, high))
  {
  }

  /** A notification may reach any sleeping worker, and whoever sleeps may wake up unasked and looks again. */
  lemma WakeUpsAreOpen(s: State, i: nat, w: nat)
    requires i < |s.threads| && s.threads[i] != []
    ensures Active(s.threads[i]) == NotifyOne && SleepingWorker(s, w) ==> Can(s, WakeWorker(i, w))
    ensures Active(s.threads[i]).Asleep? ==>
      Can(s, Spurious(i)) && StackOf(Next(s, Spurious(i)), i) == Below(s.threads[i]) + [Want]
    ensures Active(s.threads[i]).WaitAsleep? ==>
      var WaitAsleep(k, v) := Active(s.threads[i]);
      Can(s, Spurious(i)) && StackOf(Next(s, Spurious(i)), i) == Below(s.threads[i]) + [WaitBlock(k, v)]
    ensures w < s.workers ==> Can(s, RequestStop(w)) && w in Next(s, RequestStop(w)).stops
  {
  }

  // ---- schedule_task ----

  /** A call that has not got the mutex yet is moved on by its own thread only. */
  lemma CallerKeeps(s: State, a: Action, i: nat)
    requires Can(s, a) && i < |s.threads| && s.threads[i] != [] && a != Go(i)
    requires Active(s.threads[i]).Submitting? || Active(s.threads[i]).CancelWant?
    ensures |Next(s, a).threads| == |s.threads| && Next(s, a).threads[i] == s.threads[i]
  {
    hide Frames;
    if a.Go? && !Active(s.threads[a.i]).NotifyAll? { hide Shared; }
  }

  lemma {:induction false} CallerStays(states: seq<State>, actions: seq<Action>, events: seq<Event>,
                                       i: nat, m: nat, n: nat)
    requires Run(states, actions, events) && m <= n <= |events|
    requires i < |states[m].threads| && states[m].threads[i] != []
    requires Active(states[m].threads[i]).Submitting? || Active(states[m].threads[i]).CancelWant?
    requires forall x :: m <= x < n ==> actions[x] != Go(i)
    ensures i < |states[n].threads| && states[n].threads[i] == states[m].threads[i]
    decreases n
  {
    hide Next, Can, EventOf;
    if m < n {
      RunStep(states, actions, events, n - 1);
      CallerStays(states, actions, events, i, m, n - 1);
      hide Run;
      CallerKeeps(states[n - 1], actions[n - 1], i);
    }
  }

  /** What a submission announces, and that its counter is raised before anything is queued. */
  lemma SubmissionAnnounces(states: seq<State>, actions: seq<Action>, events: seq<Event>, m: nat)
    requires Run(states, actions, events) && m < |events| && actions[m].Submit?
    ensures var Submit(i, tag, k, high) := actions[m];
      && events[m].Announced? && events[m].task.tag == tag && events[m].task.schedule == k
      && events[m].task.high == high && events[m].task.id == states[m].nextId
      && Load(states[m + 1], k) == Load(states[m], k) + 1
      && states[m + 1].high == states[m].high && states[m + 1].normal == states[m].normal
  {
    RunStep(states, actions, events, m);
  }

  /**
   A submission is announced with the tag, the schedule and the priority of the call; the next step
   of its thread appends that very task to the queue of that priority and leaves the other alone.
   */
  lemma SubmissionIsQueued(states: seq<State>, actions: seq<Action>, events: seq<Event>, m: nat, n: nat)
    requires Run(states, actions, events) && m < n < |events| && actions[m].Submit?
    requires actions[n] == Go(actions[m].i) && forall x :: m < x < n ==> actions[x] != Go(actions[m].i)
    ensures events[m].Announced? && events[n] == Enqueued(events[m].task)
    ensures Queue(states[n + 1], actions[m].high) == Queue(states[n], actions[m].high) + [events[m].task]
    ensures Queue(states[n + 1], !actions[m].high) == Queue(states[n], !actions[m].high)
  {
    var i, t := actions[m].i, events[m].task;
    SubmissionAnnounces(states, actions, events, m);
    RunStep(states, actions, events, m);
    var st := states[m + 1].threads[i];
    assert Active(st) == Submitting(t);
    CallerStays(states, actions, events, i, m + 1, n);
    RunStep(states, actions, events, n);
    hide Run, Frames;
  }

  /**
   A task submitted with normal priority is taken only when every task submitted with high priority
   and queued by then was taken or cancelled before.
   */
  lemma HighCallsGoFirst(states: seq<State>, actions: seq<Action>, events: seq<Event>, a: nat, b: nat, n: nat)
    requires Run(states, actions, events) && a < n && b < n < |events|
    requires actions[a].Submit? && actions[a].high && actions[b].Submit? && !actions[b].high
    requires events[b].Announced? && events[n] == Taken(events[b].task)
    ensures events[a].Announced?
    ensures var t := events[a].task;
      Times(events[..n], Enqueued(t)) == Times(events[..n], Taken(t)) + Times(events[..n], Cancelled(t))
  {
    SubmissionAnnounces(states, actions, events, a);
    SubmissionAnnounces(states, actions, events, b);
    HighBeforeNormal(states, actions, events, n, events[b].task, events[a].task);
  }

  // ---- wait_for_schedule_completion ----

  predicate WaitsFor(f: Frame, k: nat) {
    match f
    case WaitTop(j) => j == k
    case WaitTryPop(j) => j == k
    case WaitLoad(j) => j == k
    case WaitBlock(j, _) => j == k
    case WaitAsleep(j, _) => j == k
    case _ => false
  }

  function StackOf(s: State, i: nat): seq<Frame> {
    if i < |s.threads| then s.threads[i] else []
  }

  /** The stack stands as it did when a wait for `k` was called at depth `d`, with that wait on top of it. */
  predicate InWait(st: seq<Frame>, under: seq<Frame>, k: nat) {
    |st| > |under| && st[..|under|] == under && WaitsFor(st[|under|], k)
  }

  lemma WaitFrames(s: State, i: nat, f: Frame, k: nat)
    requires FrameCanGo(s, i, f) && WaitsFor(f, k)
    ensures Frames(s, i, f) == [] ==> FrameEvent(s, i, f) == WaitReturned(k)
    ensures Frames(s, i, f) != [] ==> WaitsFor(Frames(s, i, f)[0], k)
  {
  }

  lemma ReplacedAbove(st: seq<Frame>, top: seq<Frame>, under: seq<Frame>, k: nat)
    requires InWait(st, under, k)
    requires |st| == |under| + 1 ==> top == [] || WaitsFor(top[0], k)
    ensures InWait(Below(st) + top, under, k) || (|st| == |under| + 1 && top == [] && Below(st) + top == under)
  {
  }

  lemma WaitGoes(s: State, i: nat, under: seq<Frame>, k: nat)
    requires Can(s, Go(i)) && InWait(s.threads[i], under, k)
    ensures var s' := Next(s, Go(i));
      InWait(s'.threads[i], under, k) || (EventOf(s, Go(i)) == WaitReturned(k) && s'.threads[i] == under)
  {
    var st, f := s.threads[i], Active(s.threads[i]);
    if |st| == |under| + 1 { WaitFrames(s, i, f, k); }
    ReplacedAbove(st, Frames(s, i, f), under, k);
    hide Frames, Shared, FrameEvent, InWait;
  }

  lemma WaitStep(s: State, a: Action, i: nat, under: seq<Frame>, k: nat)
    requires Can(s, a) && InWait(StackOf(s, i), under, k)
    ensures var s' := Next(s, a);
      InWait(StackOf(s', i), under, k)
      || (a == Go(i) && EventOf(s, a) == WaitReturned(k) && StackOf(s', i) == under)
  {
    if a == Go(i) {
      WaitGoes(s, i, under, k);
    } else {
      OtherStep(s, a, i);
      hide Next, Can, EventOf;
      var st := s.threads[i];
      ReplacedAbove(st, [], under, k);
      if Active(st).WaitAsleep? { ReplacedAbove(st, [Woken(Active(st))], under, k); }
    }
  }

  /** A step that is not its own `Go` wakes a thread, lets it notify, puts a call on it, or leaves it alone. */
  lemma OtherStep(s: State, a: Action, i: nat)
    requires Can(s, a) && i < |s.threads| && a != Go(i) && s.threads[i] != [] && s.threads[i] != [Asleep]
    ensures var st, st' := s.threads[i], StackOf(Next(s, a), i);
      || st' == st
      || (Active(st).Running? && exists f :: st' == st + [f])
      || (Sleeps(Active(st)) && st' == Below(st) + [Woken(Active(st))])
      || (Active(st) == NotifyOne && st' == Below(st) + [])
  {
    var st := s.threads[i];
    match a {
      case Go(j) =>
        hide Frames;
        if !Active(s.threads[j]).NotifyAll? { hide Shared; }
      case Submit(j, tag, k, high) =>
        if i == j { assert Next(s, a).threads[i] == st + [Submitting(NewTask(s, tag, k, high))]; }
      case Cancel(j, tag) => if i == j { assert Next(s, a).threads[i] == st + [CancelWant(tag)]; }
      case Wait(j, k) => if i == j { assert Next(s, a).threads[i] == st + [WaitTop(k)]; }
      case _ =>
    }
  }

  /** The call of thread `i` made by step `m` has not returned before step `n`. */
  predicate NotBackBefore(states: seq<State>, i: nat, m: nat, n: nat)
    requires n < |states|
  {
    forall x :: m < x <= n ==> StackOf(states[x], i) != StackOf(states[m], i)
  }

  lemma {:induction false} WaitUnderWay(states: seq<State>, actions: seq<Action>, events: seq<Event>, m: nat, n: nat)
    requires Run(states, actions, events) && m < n <= |events| && actions[m].Wait?
    requires NotBackBefore(states, actions[m].i, m, n)
    ensures InWait(StackOf(states[n], actions[m].i), StackOf(states[m], actions[m].i), actions[m].k)
    decreases n
  {
    hide Next, Can, EventOf, InWait, StackOf;
    RunStep(states, actions, events, n - 1);
    if n > m + 1 {
      WaitUnderWay(states, actions, events, m, n - 1);
      hide Run;
      WaitStep(states[n - 1], actions[n - 1], actions[m].i, StackOf(states[m], actions[m].i), actions[m].k);
    } else {
      WaitBegins(states[m], actions[m]);
    }
  }

  lemma WaitBegins(s: State, a: Action)
    requires Can(s, a) && a.Wait?
    ensures InWait(StackOf(Next(s, a), a.i), StackOf(s, a.i), a.k)
  {
  }

  /**
   A wait comes back, to the frames it was called from, by a return for the schedule of the call, and
   then every task submitted to that schedule so far has either ended or been cancelled, and not both.
   */
  lemma WaitReturnsSettled(states: seq<State>, actions: seq<Action>, events: seq<Event>, m: nat, n: nat, a: nat)
    requires Run(states, actions, events) && m < n < |events| && actions[m].Wait?
    requires NotBackBefore(states, actions[m].i, m, n)
    requires StackOf(states[n + 1], actions[m].i) == StackOf(states[m], actions[m].i)
    requires a < n && actions[a].Submit? && actions[a].k == actions[m].k
    ensures actions[n] == Go(actions[m].i) && events[n] == WaitReturned(actions[m].k) && events[a].Announced?
    ensures var t := events[a].task;
      Times(events[..n], Ended(t)) + Times(events[..n], Cancelled(t)) == 1
  {
    var k := actions[m].k;
    WaitUnderWay(states, actions, events, m, n);
    RunStep(states, actions, events, n);
    WaitStep(states[n], actions[n], actions[m].i, StackOf(states[m], actions[m].i), k);
    SubmissionAnnounces(states, actions, events, a);
    assert events[..n][a] == events[a];
    hide Next, Can, EventOf, Run, Times;
    WaitSettlesEverything(states, actions, events, n, k, events[a].task);
  }

  // ---- cancel_tasks_of_tag ----

  /** A sweep that found the queues as they were in state `s0`. */
  predicate SweepOf(s: State, i: nat, tag: nat, s0: State) {
    && s.lock.Some? && s.lock.value.owner == i && s.lock.value.tag == tag
    && s.lock.value.highBefore == s0.high && s.lock.value.normalBefore == s0.normal
  }

  lemma SweepStep(s: State, a: Action, i: nat, tag: nat, s0: State)
    requires Can(s, a) && SweepOf(s, i, tag, s0)
    ensures var s' := Next(s, a);
      SweepOf(s', i, tag, s0)
      || (a == Go(i) && EventOf(s, a) == CancelReturned(s.lock.value) && s'.lock == None)
  {
    hide Frames;
    if a != Go(i) {
      OthersLeaveTheQueues(s, a);
      hide Next;
    }
  }

  /** The step in which the call gets the mutex finds the queues and starts sweeping for the tag of the call. */
  lemma CancelTakesTheMutex(states: seq<State>, actions: seq<Action>, events: seq<Event>, m: nat, b: nat)
    requires Run(states, actions, events) && m < b < |events| && actions[m].Cancel?
    requires actions[b] == Go(actions[m].i) && forall x :: m < x < b ==> actions[x] != Go(actions[m].i)
    ensures SweepOf(states[b + 1], actions[m].i, actions[m].tag, states[b])
    ensures states[b + 1].high == states[b].high && states[b + 1].normal == states[b].normal
  {
    var i, tag := actions[m].i, actions[m].tag;
    RunStep(states, actions, events, m);
    assert Active(states[m + 1].threads[i]) == CancelWant(tag);
    CallerStays(states, actions, events, i, m + 1, b);
    RunStep(states, actions, events, b);
    hide Run, Frames;
  }

  lemma {:induction false} SweepUnderWay(states: seq<State>, actions: seq<Action>, events: seq<Event>,
                                         i: nat, tag: nat, b: nat, n: nat)
    requires Run(states, actions, events) && b < n <= |events|
    requires SweepOf(states[b + 1], i, tag, states[b])
    requires forall x :: b < x < n ==> !(actions[x] == Go(i) && events[x].CancelReturned?)
    ensures SweepOf(states[n], i, tag, states[b])
    decreases n
  {
    hide Next, Can, EventOf, SweepOf;
    if n > b + 1 {
      RunStep(states, actions, events, n - 1);
      SweepUnderWay(states, actions, events, i, tag, b, n - 1);
      hide Run;
      SweepStep(states[n - 1], actions[n - 1], i, tag, states[b]);
    }
  }

  /**
   A cancellation returns with exactly the tasks of the call's own tag gone from what both queues held
   when it got the mutex, all others in their order.
   */
  lemma CancelRemovesTheTagOfTheCall(states: seq<State>, actions: seq<Action>, events: seq<Event>,
                                     m: nat, b: nat, n: nat)
    requires Run(states, actions, events) && m < b < n < |events| && actions[m].Cancel?
    requires actions[b] == Go(actions[m].i) && forall x :: m < x < b ==> actions[x] != Go(actions[m].i)
    requires actions[n] == Go(actions[m].i) && events[n].CancelReturned?
    requires forall x :: b < x < n ==> !(actions[x] == Go(actions[m].i) && events[x].CancelReturned?)
    ensures states[n + 1].high == Without(states[b].high, TagOf, actions[m].tag)
    ensures states[n + 1].normal == Without(states[b].normal, TagOf, actions[m].tag)
    ensures states[n + 1].lock == None
  {
    var i, tag := actions[m].i, actions[m].tag;
    CancelTakesTheMutex(states, actions, events, m, b);
    SweepUnderWay(states, actions, events, i, tag, b, n);
    RunStep(states, actions, events, n);
    ReturnNamesTheSweep(states[n], actions[n]);
    hide Run, Next, Can, EventOf, Without;
    CancelRemovesExactlyTheTag(states, actions, events, n, events[n].sweep);
  }

  lemma ReturnNamesTheSweep(s: State, a: Action)
    requires Can(s, a) && EventOf(s, a).CancelReturned?
    ensures s.lock == Some(EventOf(s, a).sweep)
  {
    hide Frames, Shared;
  }

  // ---- Stopping ----

  /** Worker `w` has been asked to stop and is past the wait of its loop. */
  predicate Leaving(s: State, w: nat) {
    w in s.stops && StackOf(s, w) != [] && (StackOf(s, w)[0] == Top || StackOf(s, w)[0] == Exited)
  }

  lemma LeavingStep(s: State, a: Action, w: nat)
    requires Can(s, a) && Leaving(s, w)
    ensures Leaving(Next(s, a), w)
  {
    var st := s.threads[w];
    if a == Go(w) {
      hide Shared;
      if |st| > 1 { hide Frames; }
    } else {
      OtherStep(s, a, w);
      StopsStay(s, a);
      hide Next, Can;
    }
  }

  lemma StopsStay(s: State, a: Action)
    requires Can(s, a)
    ensures s.stops <= Next(s, a).stops
  {
    hide Frames;
    if a.Go? { hide Shared; }
  }

  lemma {:induction false} StaysLeaving(states: seq<State>, actions: seq<Action>, events: seq<Event>,
                                        w: nat, m: nat, n: nat)
    requires Run(states, actions, events) && m <= n <= |events| && Leaving(states[m], w)
    ensures Leaving(states[n], w)
    decreases n
  {
    hide Next, Can, EventOf, Leaving;
    if m < n {
      RunStep(states, actions, events, n - 1);
      StaysLeaving(states, actions, events, w, m, n - 1);
      hide Run;
      LeavingStep(states[n - 1], actions[n - 1], w);
    }
  }

  /** Once asked to stop, a worker takes at most one more task from its loop. */
  lemma AtMostOneMoreTask(states: seq<State>, actions: seq<Action>, events: seq<Event>, w: nat, m: nat, n: nat)
    requires Run(states, actions, events) && m < n < |events| && w in states[m].stops
    requires actions[m] == Go(w) && StackOf(states[m], w) == [Want] && events[m].Taken?
    ensures StackOf(states[n], w) != [Want]
  {
    RunStep(states, actions, events, m);
    TakingLeaves(states[m], w);
    hide Run, Next, Can, EventOf;
    StaysLeaving(states, actions, events, w, m + 1, n);
  }

  lemma TakingLeaves(s: State, w: nat)
    requires Can(s, Go(w)) && w in s.stops && StackOf(s, w) == [Want]
    ensures Leaving(Next(s, Go(w)), w) || !EventOf(s, Go(w)).Taken?
  {
    hide PopNext, NextTask;
  }

  lemma ExitStep(s: State, a: Action, w: nat)
    requires Can(s, a) && StackOf(s, w) == [Exited]
    ensures StackOf(Next(s, a), w) == [Exited]
  {
    if a != Go(w) {
      OtherStep(s, a, w);
      hide Next;
    }
  }

  /**
   A worker that finds itself asked to stop, at the head of its loop or with nothing queued when it
   looks, leaves the loop in that step and never comes back.
   */
  lemma {:induction false} StoppedWorkerExits(states: seq<State>, actions: seq<Action>, events: seq<Event>,
                                              w: nat, m: nat, n: nat)
    requires Run(states, actions, events) && m < n <= |events|
    requires actions[m] == Go(w) && w in states[m].stops
    requires StackOf(states[m], w) == [Top] || (StackOf(states[m], w) == [Want] && !Ready(states[m]))
    ensures StackOf(states[n], w) == [Exited]
    decreases n
  {
    hide Next, Can, EventOf, StackOf;
    RunStep(states, actions, events, n - 1);
    if n > m + 1 {
      StoppedWorkerExits(states, actions, events, w, m, n - 1);
      hide Run;
      ExitStep(states[n - 1], actions[n - 1], w);
    } else {
      hide Run;
      StopIsHeeded(states[m], w);
    }
  }

  lemma StopIsHeeded(s: State, w: nat)
    requires Can(s, Go(w)) && w in s.stops
    requires StackOf(s, w) == [Top] || (StackOf(s, w) == [Want] && !Ready(s))
    ensures StackOf(Next(s, Go(w)), w) == [Exited]
  {
  }
}
