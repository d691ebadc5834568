/** As many waiting tasks as there are workers can leave work in a queue, however many workers there are. */
module SchedulerTightness {
  import opened Wrappers
  import opened Scheduler
  import opened SchedulerProgress

  /** The task all others wait for, of schedule 1. */
  const AWAITED := Task(0, 0, 1, false)

  /** The task worker `i` runs, of a schedule of its own. */
  function Waiter(i: nat): Task { Task(i + 1, 0, i + 2, false) }

  function WaitersBelow(j: nat): set<Task> { set i | 0 <= i < j :: Waiter(i) }

  lemma {:induction false} AsManyAsWorkers(j: nat)
    ensures |WaitersBelow(j)| == j
  {
    if j > 0 {
      AsManyAsWorkers(j - 1);
      assert WaitersBelow(j) == WaitersBelow(j - 1) + {Waiter(j - 1)};
    }
  }

  ghost predicate ReachesWith(s: State, tasks: set<Task>) {
    exists states, actions, events ::
      Run(states, actions, events) && states[|events|] == s && WaitingTasks(states, actions) == tasks
  }

  function MoreWaiting(s: State, a: Action): set<Task> {
    if a.Wait? && CallsFromTask(s, a.i) then {CallerTask(s, a.i)} else {}
  }

  lemma OneMoreWaiting(states: seq<State>, actions: seq<Action>, s': State, a: Action)
    requires |states| == |actions| + 1
    ensures WaitingTasks(states + [s'], actions + [a])
         == WaitingTasks(states, actions) + MoreWaiting(states[|actions|], a)
  {
    hide CallsFromTask;
    var states', actions' := states + [s'], actions + [a];
    forall t | t in WaitingTasks(states, actions) + MoreWaiting(states[|actions|], a)
      ensures t in WaitingTasks(states', actions')
    {
      if t in WaitingTasks(states, actions) {
        var n :| 0 <= n < |actions| && actions[n].Wait? && CallsFromTask(states[n], actions[n].i)
          && CallerTask(states[n], actions[n].i) == t;
        assert actions'[n] == actions[n] && states'[n] == states[n];
      } else {
        assert actions'[|actions|] == a && states'[|actions|] == states[|actions|];
      }
    }
  }

  lemma ReachesNext(s: State, tasks: set<Task>, a: Action, s': State)
    requires ReachesWith(s, tasks) && Can(s, a) && Next(s, a) == s'
    ensures ReachesWith(s', tasks + MoreWaiting(s, a))
  {
    hide Can, Next, EventOf, Init, WaitingTasks, MoreWaiting;
    var states, actions, events :|
      Run(states, actions, events) && states[|events|] == s && WaitingTasks(states, actions) == tasks;
    var states', actions', events' := states + [s'], actions + [a], events + [EventOf(s, a)];
    assert forall n :: 0 <= n < |states| ==> states'[n] == states[n];
    OneMoreWaiting(states, actions, s', a);
    assert Run(states', actions', events');
  }

  // ---- The states of the run ----

  /** Each of the first tasks is the one task of its schedule. */
  function Counters(n: nat): (m: map<nat, int>)
    ensures forall k :: k in m <==> 0 < k < n + 2
    ensures forall k :: k in m ==> m[k] == 1
  {
    if n == 0 then map[1 := 1] else Counters(n - 1)[n + 1 := 1]
  }

  function Blocked(i: nat): seq<Frame> {
    [Top, Running(Waiter(i)), WaitAsleep(1, 1)]
  }

  /** The first `j` of `w` workers are blocked; then come a submitter and the one with the awaited task. */
  function Threads(w: nat, j: nat): seq<seq<Frame>> {
    seq(w + 2, i requires 0 <= i < w + 2 =>
      if i < w then if i < j then Blocked(i) else [Top] else if i == w then [] else [Submitting(AWAITED)])
  }

  /** Worker `j` and the submitter are under way, with `n` of the waiting tasks announced. */
  function Mid(w: nat, j: nat, n: nat, normal: seq<Task>, worker: seq<Frame>, submitter: seq<Frame>): State
    requires j < w
  {
    State(Counters(n), [], normal, None, Threads(w, j)[j := worker][w := submitter], w, n + 1, {})
  }

  function Between(w: nat, j: nat): State {
    State(Counters(j), [], [], None, Threads(w, j), w, j + 1, {})
  }

  lemma WorkerGoes(s: State, i: nat, top: seq<Frame>, st: seq<Frame>)
    requires i < |s.threads| && s.threads[i] != [] && FrameCanGo(s, i, Active(s.threads[i]))
    requires Frames(s, i, Active(s.threads[i])) == top && Below(s.threads[i]) + top == st
    ensures Can(s, Go(i)) && Next(s, Go(i)) == SetStack(Shared(s, i, Active(s.threads[i])), i, st)
  {
    hide Shared, Frames;
  }

  /** A worker step in the middle: what it leaves is again such a state. */
  lemma MidStep(w: nat, j: nat, n: nat, normal: seq<Task>, worker: seq<Frame>, submitter: seq<Frame>, tasks: set<Task>,
                normal': seq<Task>, top: seq<Frame>, worker': seq<Frame>)
    requires j < w && worker != [] && Below(worker) + top == worker'
    requires var s := Mid(w, j, n, normal, worker, submitter);
      && ReachesWith(s, tasks) && FrameCanGo(s, j, Active(worker)) && Frames(s, j, Active(worker)) == top
      && Shared(s, j, Active(worker)) == s.(normal := normal')
    ensures ReachesWith(Mid(w, j, n, normal', worker', submitter), tasks)
  {
    var s, s' := Mid(w, j, n, normal, worker, submitter), Mid(w, j, n, normal', worker', submitter);
    hide ReachesWith, Shared, Frames, FrameCanGo;
    WorkerGoes(s, j, top, worker');
    assert SetStack(s.(normal := normal'), j, worker').threads == s'.threads;
    ReachesNext(s, tasks, Go(j), s');
    assert MoreWaiting(s, Go(j)) == {} && tasks + {} == tasks;
  }

  lemma Loads(w: nat, j: nat, n: nat, normal: seq<Task>, worker: seq<Frame>, submitter: seq<Frame>)
    requires j < w
    ensures Load(Mid(w, j, n, normal, worker, submitter), 1) == 1
  {
  }

  /** The submitter announces and queues the task of worker `j`; nobody sleeps, so nobody is notified. */
  lemma Submits(w: nat, j: nat, tasks: set<Task>)
    requires j < w && ReachesWith(Between(w, j), tasks)
    ensures ReachesWith(Mid(w, j, j + 1, [Waiter(j)], [Top], []), tasks)
  {
    hide ReachesWith;
    var s0 := Between(w, j);
    var s1 := Mid(w, j, j + 1, [], [Top], [Submitting(Waiter(j))]);
    var s2 := Mid(w, j, j + 1, [Waiter(j)], [Top], [NotifyOne]);
    var s3 := Mid(w, j, j + 1, [Waiter(j)], [Top], []);
    assert tasks + {} == tasks;
    FirstSubmitStep(w, j);
    ReachesNext(s0, tasks, Submit(w, 0, j + 2, false), s1);
    SecondSubmitStep(w, j);
    ReachesNext(s1, tasks, Go(w), s2);
    ThirdSubmitStep(w, j);
    ReachesNext(s2, tasks, Go(w), s3);
  }

  lemma FirstSubmitStep(w: nat, j: nat)
    requires j < w
    ensures var s, a := Between(w, j), Submit(w, 0, j + 2, false);
      Can(s, a) && Next(s, a) == Mid(w, j, j + 1, [], [Top], [Submitting(Waiter(j))])
  {
    var s, a := Between(w, j), Submit(w, 0, j + 2, false);
    var s' := Mid(w, j, j + 1, [], [Top], [Submitting(Waiter(j))]);
    assert s.threads[w] + [Submitting(Waiter(j))] == [Submitting(Waiter(j))];
    assert Next(s, a).threads == s'.threads;
    assert Next(s, a).counters == s'.counters;
  }

  lemma SecondSubmitStep(w: nat, j: nat)
    requires j < w
    ensures var s := Mid(w, j, j + 1, [], [Top], [Submitting(Waiter(j))]);
      Can(s, Go(w)) && Next(s, Go(w)) == Mid(w, j, j + 1, [Waiter(j)], [Top], [NotifyOne])
  {
    var s := Mid(w, j, j + 1, [], [Top], [Submitting(Waiter(j))]);
    var s' := Mid(w, j, j + 1, [Waiter(j)], [Top], [NotifyOne]);
    assert Active(s.threads[w]) == Submitting(Waiter(j)) && Below(s.threads[w]) + [NotifyOne] == [NotifyOne];
    assert Next(s, Go(w)).threads == s'.threads;
    assert [] + [Waiter(j)] == [Waiter(j)];
  }

  lemma ThirdSubmitStep(w: nat, j: nat)
    requires j < w
    ensures var s := Mid(w, j, j + 1, [Waiter(j)], [Top], [NotifyOne]);
      Can(s, Go(w)) && Next(s, Go(w)) == Mid(w, j, j + 1, [Waiter(j)], [Top], [])
  {
    var s := Mid(w, j, j + 1, [Waiter(j)], [Top], [NotifyOne]);
    var s' := Mid(w, j, j + 1, [Waiter(j)], [Top], []);
    assert Active(s.threads[w]) == NotifyOne && Below(s.threads[w]) + [] == [];
    assert forall i :: 0 <= i < |s.threads| ==> !SleepingWorker(s, i);
    assert Next(s, Go(w)).threads == s'.threads;
  }

  /** The worker takes the task, whose body runs. */
  lemma Takes(w: nat, j: nat, tasks: set<Task>)
    requires j < w && ReachesWith(Mid(w, j, j + 1, [Waiter(j)], [Top], []), tasks)
    ensures ReachesWith(Mid(w, j, j + 1, [], [Top, Running(Waiter(j))], []), tasks)
  {
    hide ReachesWith;
    var t := Waiter(j);
    assert RemoveAt([t], 0) == [];
    MidStep(w, j, j + 1, [t], [Top], [], tasks, [t], [Want], [Want]);
    MidStep(w, j, j + 1, [t], [Want], [], tasks, [], [Top, Popped(t)], [Top, Popped(t)]);
    MidStep(w, j, j + 1, [], [Top, Popped(t)], [], tasks, [], [Running(t)], [Top, Running(t)]);
  }

  /** The body waits for the awaited task's schedule: the queues are empty, so it blocks. */
  lemma Waits(w: nat, j: nat)
    requires j < w && ReachesWith(Mid(w, j, j + 1, [], [Top, Running(Waiter(j))], []), WaitersBelow(j))
    ensures ReachesWith(Mid(w, j, j + 1, [], Blocked(j), []), WaitersBelow(j + 1))
  {
    var t, tasks := Waiter(j), WaitersBelow(j + 1);
    var below := [Top, Running(t)];
    CallsWait(w, j);
    hide ReachesWith, Mid, WaitersBelow;
    WaitStep(w, j, WaitTop(1), WaitTryPop(1), tasks);
    WaitStep(w, j, WaitTryPop(1), WaitLoad(1), tasks);
    WaitStep(w, j, WaitLoad(1), WaitBlock(1, 1), tasks);
    WaitStep(w, j, WaitBlock(1, 1), WaitAsleep(1, 1), tasks);
  }

  lemma CallsWait(w: nat, j: nat)
    requires j < w && ReachesWith(Mid(w, j, j + 1, [], [Top, Running(Waiter(j))], []), WaitersBelow(j))
    ensures ReachesWith(Mid(w, j, j + 1, [], [Top, Running(Waiter(j)), WaitTop(1)], []), WaitersBelow(j + 1))
  {
    hide ReachesWith;
    var s := Mid(w, j, j + 1, [], [Top, Running(Waiter(j))], []);
    var s' := Mid(w, j, j + 1, [], [Top, Running(Waiter(j)), WaitTop(1)], []);
    assert s.threads[j] + [WaitTop(1)] == [Top, Running(Waiter(j)), WaitTop(1)];
    assert Next(s, Wait(j, 1)).threads == s'.threads;
    ReachesNext(s, WaitersBelow(j), Wait(j, 1), s');
    assert WaitersBelow(j) + {Waiter(j)} == WaitersBelow(j + 1);
  }

  lemma WaitStep(w: nat, j: nat, f: Frame, f': Frame, tasks: set<Task>)
    requires j < w && ReachesWith(Mid(w, j, j + 1, [], [Top, Running(Waiter(j)), f], []), tasks)
    requires (f, f') in {(WaitTop(1), WaitTryPop(1)), (WaitTryPop(1), WaitLoad(1)),
                         (WaitLoad(1), WaitBlock(1, 1)), (WaitBlock(1, 1), WaitAsleep(1, 1))}
    ensures ReachesWith(Mid(w, j, j + 1, [], [Top, Running(Waiter(j)), f'], []), tasks)
  {
    hide ReachesWith;
    var worker := [Top, Running(Waiter(j)), f];
    Loads(w, j, j + 1, [], worker, []);
    hide Load, Threads;
    assert Below(worker) + [f'] == [Top, Running(Waiter(j)), f'];
    MidStep(w, j, j + 1, [], worker, [], tasks, [], [f'], [Top, Running(Waiter(j)), f']);
  }

  lemma OneMoreBlocked(w: nat, j: nat)
    requires j < w && ReachesWith(Between(w, j), WaitersBelow(j))
    ensures ReachesWith(Between(w, j + 1), WaitersBelow(j + 1))
  {
    hide ReachesWith;
    Submits(w, j, WaitersBelow(j));
    Takes(w, j, WaitersBelow(j));
    Waits(w, j);
    assert Threads(w, j)[j := Blocked(j)][w := []] == Threads(w, j + 1);
  }

  lemma BeginsWithTheAwaited(w: nat)
    requires w > 0
    ensures ReachesWith(Between(w, 0), {})
  {
    var threads := seq(w + 2, i requires 0 <= i < w + 2 => if i < w then [Top] else []);
    var s := State(map[], [], [], None, threads, w, 0, {});
    assert Run([s], [], []) && WaitingTasks([s], []) == {};
    assert ReachesWith(s, {});
    hide ReachesWith;
    var a := Submit(w + 1, 0, 1, false);
    assert threads[w + 1] + [Submitting(AWAITED)] == [Submitting(AWAITED)];
    assert Next(s, a).threads == Threads(w, 0);
    assert Next(s, a).counters == Counters(0);
    ReachesNext(s, {}, a, Between(w, 0));
  }

  lemma {:induction false} AllBlocked(w: nat, j: nat)
    requires 0 < w && j <= w
    ensures ReachesWith(Between(w, j), WaitersBelow(j))
  {
    hide ReachesWith, Between;
    if j == 0 {
      BeginsWithTheAwaited(w);
      assert WaitersBelow(0) == {};
    } else {
      AllBlocked(w, j - 1);
      OneMoreBlocked(w, j - 1);
    }
  }

  /** At last the awaited task is queued, and its notification reaches nobody. */
  function AtTheEnd(w: nat): State {
    Between(w, w).(normal := [AWAITED], threads := Threads(w, w)[w + 1 := []])
  }

  lemma LastEnqueue(w: nat)
    ensures var s := Between(w, w);
      Can(s, Go(w + 1)) && Next(s, Go(w + 1)) == s.(normal := [AWAITED], threads := s.threads[w + 1 := [NotifyOne]])
  {
    var s := Between(w, w);
    assert Active(s.threads[w + 1]) == Submitting(AWAITED) && Below(s.threads[w + 1]) + [NotifyOne] == [NotifyOne];
    assert [] + [AWAITED] == [AWAITED];
  }

  lemma LastNotify(w: nat)
    ensures var s := Between(w, w);
      var s' := s.(normal := [AWAITED], threads := s.threads[w + 1 := [NotifyOne]]);
      Can(s', Go(w + 1)) && Next(s', Go(w + 1)) == AtTheEnd(w)
  {
    var s := Between(w, w);
    var s' := s.(normal := [AWAITED], threads := s.threads[w + 1 := [NotifyOne]]);
    assert Active(s'.threads[w + 1]) == NotifyOne && Below(s'.threads[w + 1]) + [] == [];
    assert forall i :: 0 <= i < |s'.threads| ==> !SleepingWorker(s', i);
    assert Next(s', Go(w + 1)).threads == AtTheEnd(w).threads;
  }

  lemma NobodyGoesOn(w: nat)
    ensures Stuck(AtTheEnd(w)) && Ready(AtTheEnd(w))
  {
    var s := AtTheEnd(w);
    forall i | 0 <= i < |s.threads|
      ensures !Can(s, Go(i)) && forall v :: 0 <= v < |s.threads| ==> !Can(s, WakeWorker(i, v))
    {
      if i < w { assert s.threads[i] == Blocked(i); }
    }
  }

  lemma ReachesTheEnd(w: nat)
    requires w > 0
    ensures ReachesWith(AtTheEnd(w), WaitersBelow(w))
  {
    AllBlocked(w, w);
    LastEnqueue(w);
    LastNotify(w);
    hide ReachesWith, WaitersBelow;
    var s, tasks := Between(w, w), WaitersBelow(w);
    var s' := s.(normal := [AWAITED], threads := s.threads[w + 1 := [NotifyOne]]);
    assert tasks + {} == tasks;
    ReachesNext(s, tasks, Go(w + 1), s');
    ReachesNext(s', tasks, Go(w + 1), AtTheEnd(w));
  }

  /**
   The bound on waiting tasks is exact for every number of workers: with as many waiting tasks as
   workers, some run leaves work in a queue where no thread can go on.
   */
  lemma AsManyWaitersCanStrand(w: nat) returns (states: seq<State>, actions: seq<Action>, events: seq<Event>)
    requires w > 0
    ensures Run(states, actions, events)
    ensures var s := states[|events|];
      s.workers == w && s.stops == {} && Stuck(s) && Ready(s)
    ensures |WaitingTasks(states, actions)| == w
  {
    ReachesTheEnd(w);
    NobodyGoesOn(w);
    AsManyAsWorkers(w);
    hide WaitersBelow, Stuck, Run, WaitingTasks;
    states, actions, events :|
      && Run(states, actions, events) && states[|events|] == AtTheEnd(w)
      && WaitingTasks(states, actions) == WaitersBelow(w);
  }

  /**
   In the smallest such run one worker's task blocks in a wait just before the awaited task is
   queued; its `notify_one` finds no sleeping worker, and it stays behind with its counter at one.
   */
  lemma WaitingTasksCanStrandWork() returns (s: State)
    ensures ReachesWith(s, {Waiter(0)}) && Stuck(s) && s.stops == {} && s.workers == 1
    ensures s.normal == [AWAITED] && Busy(s, Waiter(0)) && Load(s, AWAITED.schedule) == 1
  {
    s := AtTheEnd(1);
    ReachesTheEnd(1);
    NobodyGoesOn(1);
    assert WaitersBelow(1) == {Waiter(0)};
    assert Running(Waiter(0)) in s.threads[0];
  }
}
