/** What it means that no thread of the scheduler can go on. */
module SchedulerProgress {
  import opened Wrappers
  import opened Scheduler
  import opened SchedulerCounts
  import opened SchedulerWakeups

  /** No thread in the middle of a call has a step; only new calls or spurious wake-ups remain. */
  predicate Stuck(s: State) {
    && (forall i :: 0 <= i < |s.threads| ==> !Can(s, Go(i)))
    && (forall i, w :: 0 <= i < |s.threads| && 0 <= w < |s.threads| ==> !Can(s, WakeWorker(i, w)))
  }

  /** The body of `t` has started and not ended. */
  predicate Busy(s: State, t: Task) {
    exists i :: 0 <= i < |s.threads| && Running(t) in s.threads[i]
  }

  ghost predicate NobodyBusy(s: State) {
    forall t :: !Busy(s, t)
  }

  ghost predicate AllZero(s: State) {
    forall k: nat :: Load(s, k) == 0
  }

  /** Every caller is done and every worker sleeps. */
  predicate AtRest(s: State) {
    && s.high == [] && s.normal == []
    && forall i :: 0 <= i < |s.threads| ==> s.threads[i] == [] || s.threads[i] == [Asleep]
  }

  lemma HolderCanGo(s: State)
    requires Shape(s) && s.lock.Some?
    ensures Can(s, Go(s.lock.value.owner))
  {
    var i := s.lock.value.owner;
    var st := s.threads[i];
    assert ThreadOk(s, i, st);
    InTwoParts(st, [], Sweeping);
    if Sweeping in Below(st) { SweepOnTop(st, i < s.workers); }
  }

  lemma StuckIsUnlocked(s: State)
    requires Shape(s) && Stuck(s)
    ensures s.lock == None
  {
    if s.lock.Some? { HolderCanGo(s); }
  }

  lemma NotifierCanGo(s: State, i: nat)
    requires i < |s.threads| && TopIs(s.threads[i], NotifyOne)
    ensures Can(s, Go(i)) || exists w :: 0 <= w < |s.threads| && Can(s, WakeWorker(i, w))
  {
    if !Can(s, Go(i)) {
      var w :| 0 <= w < |s.threads| && SleepingWorker(s, w);
      assert Can(s, WakeWorker(i, w));
    }
  }

  lemma StuckTop(s: State, i: nat)
    requires Shape(s) && Stuck(s) && i < |s.threads| && s.threads[i] != [] && s.stops == {}
    ensures var f := Active(s.threads[i]); f.Asleep? || f.WaitAsleep?
  {
    StuckIsUnlocked(s);
    var st, f := s.threads[i], Active(s.threads[i]);
    assert ThreadOk(s, i, st);
    assert !Can(s, Go(i));
    InTwoParts(st, [], f);
    if f.NotifyOne? { NotifierCanGo(s, i); }
    hide StackOk;
  }

  /** A thread that cannot go on holds no task but those whose body is running. */
  lemma {:induction false} OnlyRunning(st: seq<Frame>, key: Key)
    requires forall f :: f in st ==> Station(f) == 5
    ensures InStack(st, key, 5) == 0
  {
    if st != [] {
      InTwoParts(st, [], Active(st));
      assert forall f :: f in Below(st) ==> f in st;
      OnlyRunning(Below(st), key);
    }
  }

  lemma StuckFrame(s: State, i: nat, f: Frame)
    requires Shape(s) && Stuck(s) && s.stops == {} && i < |s.threads| && f in s.threads[i]
    ensures Station(f) == 5 || f.Running?
  {
    var st := s.threads[i];
    assert ThreadOk(s, i, st);
    StuckTop(s, i);
    var j :| 0 <= j < |st| && st[j] == f;
    assert j < |st| - 1 ==> MayHold(st[j], st[j + 1]);
  }

  lemma {:induction false} NoTaskHeld(threads: seq<seq<Frame>>, key: Key)
    requires forall i, f :: 0 <= i < |threads| && f in threads[i] ==> Station(f) == 5
    ensures InThreads(threads, key, 5) == 0
  {
    if threads != [] {
      var n := |threads| - 1;
      OnlyRunning(threads[n], key);
      NoTaskHeld(threads[..n], key);
    }
  }

  lemma {:induction false} HeldInStack(st: seq<Frame>, t: Task, key: Key)
    requires Running(t) in st && Matches(key, t)
    ensures InStack(st, key, 5) > 0
  {
    InTwoParts(st, [], Running(t));
    if Running(t) != Active(st) { HeldInStack(Below(st), t, key); }
  }

  lemma {:induction false} HeldInThreads(threads: seq<seq<Frame>>, i: nat, t: Task, key: Key)
    requires i < |threads| && Running(t) in threads[i] && Matches(key, t)
    ensures InThreads(threads, key, 5) > 0
  {
    var n := |threads| - 1;
    if i == n { HeldInStack(threads[n], t, key); } else { HeldInThreads(threads[..n], i, t, key); }
  }

  // ---- Work left in the queues ----

  /** The worker runs a task, and in it is blocked in a wait. */
  predicate BlockedInTask(st: seq<Frame>) {
    |st| > 2 && st[0] == Top && st[1].Running? && FamilyOf(st[2]) == WaitFrame && Active(st).WaitAsleep?
  }

  predicate AllWorkersWait(s: State) {
    forall w :: 0 <= w < s.workers && w < |s.threads| ==> BlockedInTask(s.threads[w])
  }

  lemma {:induction false} NoneDue(threads: seq<seq<Frame>>)
    requires forall i :: 0 <= i < |threads| ==> DueOf(threads[i]) == 0
    ensures Due(threads) == 0
  {
    if threads != [] { NoneDue(threads[..|threads| - 1]); }
  }

  /** A worker that cannot go on sleeps, or is inside a wait that a task body called. */
  lemma StuckWorker(s: State, w: nat)
    requires Shape(s) && Stuck(s) && s.stops == {} && w < s.workers
    ensures SleepingWorker(s, w) || BlockedInTask(s.threads[w])
  {
    var st := s.threads[w];
    assert ThreadOk(s, w, st);
    StuckTop(s, w);
    assert |st| > 1 ==> MayHold(st[0], st[1]);
    assert |st| > 2 ==> MayHold(st[1], st[2]);
    assert |st| > 3 ==> MayHold(st[2], st[3]);
    assert |st| > 4 ==> MayHold(st[3], st[4]);
  }

  lemma NobodyDue(s: State)
    requires Shape(s) && Stuck(s) && s.stops == {}
    ensures Due(s.threads) == 0
  {
    forall i | 0 <= i < |s.threads|
      ensures DueOf(s.threads[i]) == 0
    {
      if s.threads[i] != [] { StuckTop(s, i); }
    }
    NoneDue(s.threads);
  }

  lemma StuckWithWork(s: State)
    requires WakeInv(s) && Stuck(s) && s.stops == {} && Ready(s)
    ensures AllWorkersWait(s)
  {
    NobodyDue(s);
    forall w | 0 <= w < s.workers && w < |s.threads|
      ensures BlockedInTask(s.threads[w])
    {
      StuckWorker(s, w);
      if SleepingWorker(s, w) { assert SomeWorkerSleeps(s); }
    }
  }

  /**
   Before any stop is requested, work is left in a queue where no thread can go on only when every
   worker is blocked in a wait that the task it runs has called. One worker free of that is enough.
   */
  lemma StrandedOnlyIfAllWorkersWait(states: seq<State>, actions: seq<Action>, events: seq<Event>, n: nat)
    requires Run(states, actions, events) && n <= |events|
    requires Stuck(states[n]) && states[n].stops == {} && Ready(states[n])
    ensures AllWorkersWait(states[n])
  {
    NoLostWakeups(states, actions, events, n);
    hide Run;
    StuckWithWork(states[n]);
  }

  // ---- Counters that stay positive ----

  lemma BlockedIsBusy(s: State, w: nat)
    requires w < |s.threads| && BlockedInTask(s.threads[w])
    ensures Busy(s, s.threads[w][1].task)
  {
    assert Running(s.threads[w][1].task) in s.threads[w];
  }

  lemma QuietQueues(s: State)
    requires WakeInv(s) && Stuck(s) && s.stops == {} && s.workers > 0 && NobodyBusy(s)
    ensures !Ready(s)
  {
    if Ready(s) {
      StuckWithWork(s);
      BlockedIsBusy(s, 0);
    }
  }

  lemma QuietCounters(s: State, k: nat)
    requires WakeInv(s) && Stuck(s) && s.stops == {} && s.workers > 0 && NobodyBusy(s) && Exact(s, k)
    ensures Load(s, k) == 0
  {
    QuietQueues(s);
    forall i, f | 0 <= i < |s.threads| && f in s.threads[i]
      ensures Station(f) == 5
    {
      StuckFrame(s, i, f);
      if f.Running? { assert Busy(s, f.task); }
    }
    NoTaskHeld(s.threads, BySchedule(k));
  }

  lemma QuietThread(s: State, i: nat)
    requires WakeInv(s) && Stuck(s) && s.stops == {} && AllZero(s) && i < |s.threads| && s.threads[i] != []
    ensures s.threads[i] == [Asleep]
  {
    var st := s.threads[i];
    assert ThreadOk(s, i, st);
    StuckTop(s, i);
    if Active(st).WaitAsleep? {
      var k := Active(st).k;
      assert Heard(s, k) && Load(s, k) == 0;
      var j :| 0 <= j < |s.threads| && TopIs(s.threads[j], NotifyAll(k));
      StuckTop(s, j);
    }
  }

  /**
   Before any stop is requested, when no thread can go on: all counters are zero exactly when no
   task body has called a wait and is blocked in it, and then nothing is queued, no wait is
   blocked, and every worker sleeps; queued work is left only when every worker is in such a wait.
   */
  lemma StuckMeansDoneUnlessTasksWait(states: seq<State>, actions: seq<Action>, events: seq<Event>, n: nat)
    requires Run(states, actions, events) && n <= |events|
    requires Stuck(states[n]) && states[n].stops == {} && states[n].workers > 0
    ensures AllZero(states[n]) <==> NobodyBusy(states[n])
    ensures NobodyBusy(states[n]) ==> AtRest(states[n])
    ensures Ready(states[n]) ==> AllWorkersWait(states[n])
  {
    NoLostWakeups(states, actions, events, n);
    var s := states[n];
    forall k: nat ensures Exact(s, k) {
      CountersAreExact(states, actions, events, n, k);
    }
    hide Run;
    if Ready(s) { StuckWithWork(s); }
    WhenStuck(s);
  }

  lemma WhenStuck(s: State)
    requires WakeInv(s) && Stuck(s) && s.stops == {} && s.workers > 0 && forall k: nat :: Exact(s, k)
    ensures AllZero(s) <==> NobodyBusy(s)
    ensures NobodyBusy(s) ==> AtRest(s)
  {
    if NobodyBusy(s) {
      QuietQueues(s);
      forall k: nat ensures Load(s, k) == 0 {
        QuietCounters(s, k);
      }
      forall i | 0 <= i < |s.threads| && s.threads[i] != []
        ensures s.threads[i] == [Asleep]
      {
        QuietThread(s, i);
      }
    } else {
      var t :| Busy(s, t);
      var i :| 0 <= i < |s.threads| && Running(t) in s.threads[i];
      HeldInThreads(s.threads, i, t, BySchedule(t.schedule));
      assert Exact(s, t.schedule);
      assert Load(s, t.schedule) > 0;
    }
  }

  // ---- Which tasks wait ----

  predicate CallsFromTask(s: State, i: nat) {
    i < |s.threads| && s.threads[i] != [] && Active(s.threads[i]).Running?
  }

  function CallerTask(s: State, i: nat): Task
    requires CallsFromTask(s, i)
  {
    Active(s.threads[i]).task
  }

  /** The tasks whose bodies call a wait during the run. */
  function WaitingTasks(states: seq<State>, actions: seq<Action>): set<Task>
    requires |states| == |actions| + 1
  {
    set n | 0 <= n < |actions| && actions[n].Wait? && CallsFromTask(states[n], actions[n].i)
      :: CallerTask(states[n], actions[n].i)
  }

  /** A running body with a wait on top of it belongs to one of `tasks`. */
  predicate OnlyWaitIn(st: seq<Frame>, tasks: set<Task>) {
    forall j :: 0 <= j < |st| - 1 && st[j].Running? && FamilyOf(st[j + 1]) == WaitFrame ==> st[j].task in tasks
  }

  predicate AllWaitIn(s: State, tasks: set<Task>) {
    forall i :: 0 <= i < |s.threads| ==> OnlyWaitIn(s.threads[i], tasks)
  }

  lemma ReplaceKeepsWaits(st: seq<Frame>, top: seq<Frame>, tasks: set<Task>)
    requires st != [] && OnlyWaitIn(st, tasks) && Replaces(Active(st), top)
    ensures OnlyWaitIn(Below(st) + top, tasks)
  {
    var st', n := Below(st) + top, |st| - 1;
    forall j | 0 <= j < |st'| - 1 && st'[j].Running? && FamilyOf(st'[j + 1]) == WaitFrame
      ensures st'[j].task in tasks
    {
      if j < n - 1 {
        assert st'[j] == st[j] && st'[j + 1] == st[j + 1];
      } else if j == n - 1 {
        assert st'[j] == st[j] && st'[j + 1] == top[0];
      }
    }
  }

  lemma GoKeepsWaits(s: State, g: nat, i: nat, tasks: set<Task>)
    requires Can(s, Go(g)) && AllWaitIn(s, tasks) && i < |s.threads|
    ensures OnlyWaitIn(Next(s, Go(g)).threads[i], tasks)
  {
    var f := Active(s.threads[g]);
    if i == g {
      FramesReplace(s, g, f);
      ReplaceKeepsWaits(s.threads[g], Frames(s, g, f), tasks);
      hide Shared, Frames;
    } else if f.NotifyAll? {
      var st := s.threads[i];
      if st != [] && Active(st).WaitAsleep? && Active(st).k == f.k {
        ReplaceKeepsWaits(st, [WaitBlock(f.k, Active(st).v)], tasks);
      }
      hide Frames;
    } else {
      hide Shared, Frames;
    }
  }

  lemma CallKeepsWaits(s: State, a: Action, i: nat, tasks: set<Task>)
    requires Can(s, a) && !a.Go? && i < |s.threads| && OnlyWaitIn(s.threads[i], tasks)
    requires a.Wait? && CallsFromTask(s, a.i) ==> CallerTask(s, a.i) in tasks
    ensures OnlyWaitIn(Next(s, a).threads[i], tasks)
  {
    if a.Spurious? && a.i == i {
      ReplaceKeepsWaits(s.threads[i], [Woken(Active(s.threads[i]))], tasks);
    } else if a.WakeWorker? && a.i == i {
      ReplaceKeepsWaits(s.threads[i], [], tasks);
    }
  }

  lemma StepKeepsWaits(s: State, a: Action, tasks: set<Task>)
    requires Can(s, a) && AllWaitIn(s, tasks)
    requires a.Wait? && CallsFromTask(s, a.i) ==> CallerTask(s, a.i) in tasks
    ensures AllWaitIn(Next(s, a), tasks)
  {
    forall i | 0 <= i < |s.threads|
      ensures OnlyWaitIn(Next(s, a).threads[i], tasks)
    {
      assert OnlyWaitIn(s.threads[i], tasks);
      hide Next, OnlyWaitIn;
      if a.Go? { GoKeepsWaits(s, a.i, i, tasks); } else { CallKeepsWaits(s, a, i, tasks); }
    }
  }

  lemma {:induction false} RunKeepsWaits(states: seq<State>, actions: seq<Action>, events: seq<Event>, n: nat)
    requires Run(states, actions, events) && n <= |events|
    ensures AllWaitIn(states[n], WaitingTasks(states, actions))
  {
    if n > 0 {
      RunStep(states, actions, events, n - 1);
      RunKeepsWaits(states, actions, events, n - 1);
      var a, s := actions[n - 1], states[n - 1];
      assert a.Wait? && CallsFromTask(s, a.i) ==> CallerTask(s, a.i) in WaitingTasks(states, actions);
      hide Run, Next, Can, AllWaitIn, EventOf;
      StepKeepsWaits(s, a, WaitingTasks(states, actions));
    }
  }

  /** Above a running body that has called no wait, something can go on. */
  lemma RunningGoesOn(st: seq<Frame>, worker: bool, t: Task)
    requires StackOk(st, worker) && OnlyWaitIn(st, {}) && Running(t) in st
    ensures st != [] && !Active(st).WaitAsleep? && !Active(st).Asleep?
  {
    var j :| 0 <= j < |st| && st[j] == Running(t);
    assert j + 1 < |st| ==> MayHold(st[j], st[j + 1]);
    assert j + 2 < |st| ==> MayHold(st[j + 1], st[j + 2]);
    assert j + 3 < |st| ==> MayHold(st[j + 2], st[j + 3]);
  }

  lemma NoWaitNobodyBusy(s: State, t: Task)
    requires Shape(s) && Stuck(s) && s.stops == {} && AllWaitIn(s, {})
    ensures !Busy(s, t)
  {
    if Busy(s, t) {
      var i :| 0 <= i < |s.threads| && Running(t) in s.threads[i];
      assert ThreadOk(s, i, s.threads[i]);
      StuckTop(s, i);
      RunningGoesOn(s.threads[i], i < s.workers, t);
    }
  }

  /**
   When task bodies never wait, a scheduler that cannot go on has finished everything: both queues
   are empty, every counter is zero, every wait has returned.
   */
  lemma EverythingIsDoneInTheEnd(states: seq<State>, actions: seq<Action>, events: seq<Event>, n: nat)
    requires Run(states, actions, events) && n <= |events| && WaitingTasks(states, actions) == {}
    requires Stuck(states[n]) && states[n].stops == {} && states[n].workers > 0
    ensures AtRest(states[n]) && AllZero(states[n])
  {
    NoLostWakeups(states, actions, events, n);
    RunKeepsWaits(states, actions, events, n);
    StuckMeansDoneUnlessTasksWait(states, actions, events, n);
    hide Run, Stuck, Shape, AllWaitIn, WaitingTasks;
    forall t ensures !Busy(states[n], t) {
      NoWaitNobodyBusy(states[n], t);
    }
  }
}
