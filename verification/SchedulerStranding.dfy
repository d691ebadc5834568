/** When a submission can be left in the queue, what takes it then, and how few waiting tasks rule it out. */
module SchedulerStranding {
  import opened Wrappers
  import opened Scheduler
  import opened SchedulerCounts
  import opened SchedulerTasks
  import opened SchedulerWakeups
  import opened SchedulerProgress

  /** One more submission by a thread outside the scheduler: the counter has been raised. */
  function Announcing(s: State, i: nat, tag: nat, k: nat, high: bool): State
    requires Can(s, Submit(i, tag, k, high))
  {
    Next(s, Submit(i, tag, k, high))
  }

  lemma AfterAnnouncing(s: State, i: nat, tag: nat, k: nat, high: bool)
    requires i < |s.threads| && s.threads[i] == [] && s.workers > 0 && Load(s, k) < I32_MAX
    ensures Can(s, Submit(i, tag, k, high))
    ensures var s1 := Announcing(s, i, tag, k, high);
      && s1.threads == s.threads[i := [Submitting(NewTask(s, tag, k, high))]]
      && s1.lock == s.lock && s1.stops == s.stops && s1.workers == s.workers
  {
    assert [] + [Submitting(NewTask(s, tag, k, high))] == [Submitting(NewTask(s, tag, k, high))];
  }

  lemma AfterEnqueuing(s: State, i: nat, t: Task)
    requires s.lock == None && i < |s.threads| && s.threads[i] == [Submitting(t)]
    ensures Can(s, Go(i))
    ensures var s' := Next(s, Go(i));
      && s'.threads == s.threads[i := [NotifyOne]] && Ready(s')
      && s'.lock == None && s'.stops == s.stops && s'.workers == s.workers
  {
    assert Active(s.threads[i]) == Submitting(t);
    assert Below(s.threads[i]) + [NotifyOne] == [NotifyOne];
  }

  lemma AfterSubmission(s: State, i: nat, tag: nat, k: nat, high: bool)
    requires s.lock == None && i < |s.threads| && s.threads[i] == [] && s.workers > 0 && Load(s, k) < I32_MAX
    ensures Can(s, Submit(i, tag, k, high)) && Can(Announcing(s, i, tag, k, high), Go(i))
    ensures var s2 := Next(Announcing(s, i, tag, k, high), Go(i));
      && s2.threads == s.threads[i := [NotifyOne]] && Ready(s2)
      && s2.lock == None && s2.stops == s.stops && s2.workers == s.workers
  {
    AfterAnnouncing(s, i, tag, k, high);
    hide Next, Can, Announcing;
    AfterEnqueuing(Announcing(s, i, tag, k, high), i, NewTask(s, tag, k, high));
  }

  /** Without a sleeping worker the notification is spent, and everybody is where they were. */
  lemma AfterNotify(s: State, s2: State, i: nat)
    requires i < |s.threads| && s.threads[i] == [] && s2.threads == s.threads[i := [NotifyOne]]
    requires s2.workers == s.workers <= i
    ensures Can(s2, Go(i)) <==> !SomeWorkerSleeps(s)
    ensures Can(s2, Go(i)) ==> Next(s2, Go(i)).threads == s.threads
    ensures Can(s2, Go(i)) ==> Next(s2, Go(i)) == s2.(threads := s.threads)
  {
    assert Active(s2.threads[i]) == NotifyOne;
    assert forall w :: 0 <= w < |s.threads| ==> (SleepingWorker(s2, w) <==> SleepingWorker(s, w));
    if Can(s2, Go(i)) {
      assert Below(s2.threads[i]) + [] == [];
      assert s2.threads[i := []] == s.threads;
    }
  }

  lemma StillStuck(s: State, s': State)
    requires Shape(s) && Stuck(s) && s.stops == {}
    requires s'.threads == s.threads && s'.lock == None && s'.stops == {} && s'.workers == s.workers
    ensures Stuck(s')
  {
    forall i | 0 <= i < |s.threads|
      ensures !Can(s', Go(i)) && forall w :: 0 <= w < |s.threads| ==> !Can(s', WakeWorker(i, w))
    {
      if s.threads[i] != [] { StuckTop(s, i); }
    }
  }

  /**
   And then always: where no thread can go on, one more submission stays in the queue, its
   `notify_one` spent on nobody, until some thread makes another call or wakes up unasked, if and
   only if every worker is blocked in a wait of its task.
   */
  lemma SubmissionIsStrandedExactly(states: seq<State>, actions: seq<Action>, events: seq<Event>, n: nat,
                                    i: nat, tag: nat, k: nat, high: bool)
    requires Run(states, actions, events) && n <= |events|
    requires var s := states[n];
      Stuck(s) && s.stops == {} && s.workers > 0 && i < |s.threads| && s.threads[i] == [] && Load(s, k) < I32_MAX
    ensures Can(states[n], Submit(i, tag, k, high)) && Can(Announcing(states[n], i, tag, k, high), Go(i))
    ensures var s2 := Next(Announcing(states[n], i, tag, k, high), Go(i));
      Can(s2, Go(i)) && Stuck(Next(s2, Go(i))) && Ready(Next(s2, Go(i))) <==> AllWorkersWait(states[n])
  {
    NoLostWakeups(states, actions, events, n);
    hide Run;
    var s := states[n];
    StuckIsUnlocked(s);
    AfterSubmission(s, i, tag, k, high);
    var s2 := Next(Announcing(s, i, tag, k, high), Go(i));
    assert ThreadOk(s, i, s.threads[i]);
    AfterNotify(s, s2, i);
    if !SomeWorkerSleeps(s) {
      StillStuck(s, s2.(threads := s.threads));
    }
    hide Next, Stuck, Announcing;
    WaitingOrSleeping(s);
  }

  lemma WaitingOrSleeping(s: State)
    requires Shape(s) && Stuck(s) && s.stops == {}
    ensures AllWorkersWait(s) <==> !SomeWorkerSleeps(s)
  {
    forall w | 0 <= w < s.workers && w < |s.threads|
      ensures SleepingWorker(s, w) <==> !BlockedInTask(s.threads[w])
    {
      StuckWorker(s, w);
    }
  }

  // ---- What takes the work that is left ----

  lemma AfterCallingWait(s: State, i: nat, k: nat)
    requires i < |s.threads| && s.threads[i] == [] && s.workers > 0
    ensures Can(s, Wait(i, k))
    ensures Next(s, Wait(i, k)) == s.(threads := s.threads[i := [WaitTop(k)]])
  {
    assert s.threads[i] + [WaitTop(k)] == [WaitTop(k)];
  }

  lemma AfterLookingAtCounter(s: State, i: nat, k: nat)
    requires i < |s.threads| && s.threads[i] == [WaitTop(k)] && Load(s, k) > 0
    ensures Can(s, Go(i)) && Next(s, Go(i)) == s.(threads := s.threads[i := [WaitTryPop(k)]])
  {
    assert Active(s.threads[i]) == WaitTop(k);
    assert Below(s.threads[i]) + [WaitTryPop(k)] == [WaitTryPop(k)];
  }

  lemma TakesNext(s: State, i: nat, k: nat)
    requires i < |s.threads| && s.threads[i] == [WaitTryPop(k)] && s.lock == None && Ready(s)
    ensures Can(s, Go(i)) && EventOf(s, Go(i)) == Taken(NextTask(s))
  {
    assert Active(s.threads[i]) == WaitTryPop(k);
  }

  /**
   Work left where no thread can go on is not lost: a wait that an outside thread calls on any
   positive counter takes the next task in its second step.
   */
  lemma OutsideWaitTakesTheWork(states: seq<State>, actions: seq<Action>, events: seq<Event>, n: nat, i: nat, k: nat)
    requires Run(states, actions, events) && n <= |events|
    requires Stuck(states[n]) && Ready(states[n]) && states[n].workers > 0
    requires i < |states[n].threads| && states[n].threads[i] == [] && Load(states[n], k) > 0
    ensures Can(states[n], Wait(i, k))
    ensures var s1 := Next(states[n], Wait(i, k));
      Can(s1, Go(i)) &&
      var s2 := Next(s1, Go(i));
      Can(s2, Go(i)) && EventOf(s2, Go(i)) == Taken(NextTask(states[n]))
  {
    NoLostWakeups(states, actions, events, n);
    hide Run;
    var s := states[n];
    StuckIsUnlocked(s);
    hide Stuck, Shape, WakeInv;
    AfterCallingWait(s, i, k);
    var s1 := s.(threads := s.threads[i := [WaitTop(k)]]);
    AfterLookingAtCounter(s1, i, k);
    var s2 := s1.(threads := s1.threads[i := [WaitTryPop(k)]]);
    assert NextTask(s2) == NextTask(s);
    hide Can, Next, EventOf;
    TakesNext(s2, i, k);
  }

  // ---- Fewer waiting tasks than workers ----

  /** A task whose body runs in two stacks counts twice. */
  lemma RunningTwice(threads: seq<seq<Frame>>, i: nat, j: nat, t: Task)
    requires i < |threads| && j < |threads| && i != j
    requires Running(t) in threads[i] && Running(t) in threads[j]
    ensures InThreads(threads, ByTask(t), 5) >= 2
  {
    ThreadsUpdate(threads, i, [], ByTask(t), 5);
    HeldInStack(threads[i], t, ByTask(t));
    HeldInThreads(threads[i := []], j, t, ByTask(t));
  }

  lemma RunsInOneThread(states: seq<State>, actions: seq<Action>, events: seq<Event>, n: nat, i: nat, j: nat, t: Task)
    requires Run(states, actions, events) && n <= |events|
    requires i < |states[n].threads| && j < |states[n].threads|
    requires Running(t) in states[n].threads[i] && Running(t) in states[n].threads[j]
    ensures i == j
  {
    if i != j {
      RunningTwice(states[n].threads, i, j, t);
      RunConserves(states, actions, events, n, ByTask(t), 5);
      AnnouncedOnce(states, actions, events, n, t);
      hide Run, Times, Crossed, InThreads, InQueue;
      TimesOfTask(events[..n], t);
    }
  }

  lemma {:induction false} DistinctFit(tasks: seq<Task>, room: set<Task>)
    requires forall i :: 0 <= i < |tasks| ==> tasks[i] in room
    requires forall i, j :: 0 <= i < j < |tasks| ==> tasks[i] != tasks[j]
    ensures |tasks| <= |room|
  {
    if tasks != [] {
      var last := tasks[|tasks| - 1];
      DistinctFit(tasks[..|tasks| - 1], room - {last});
    }
  }

  /**
   If fewer tasks call a wait during the run than there are workers, nothing is ever left in a
   queue where no thread can go on.
   */
  lemma FewWaitersStrandNothing(states: seq<State>, actions: seq<Action>, events: seq<Event>, n: nat)
    requires Run(states, actions, events) && n <= |events|
    requires Stuck(states[n]) && states[n].stops == {}
    requires |WaitingTasks(states, actions)| < states[n].workers
    ensures !Ready(states[n])
  {
    var s := states[n];
    if Ready(s) {
      StrandedOnlyIfAllWorkersWait(states, actions, events, n);
      RunKeepsWaits(states, actions, events, n);
      NoLostWakeups(states, actions, events, n);
      var tasks := seq(s.workers, w requires 0 <= w < s.workers => s.threads[w][1].task);
      forall w | 0 <= w < s.workers
        ensures tasks[w] in WaitingTasks(states, actions)
      {
        assert OnlyWaitIn(s.threads[w], WaitingTasks(states, actions));
      }
      forall v, w | 0 <= v < w < s.workers
        ensures tasks[v] != tasks[w]
      {
        if tasks[v] == tasks[w] {
          var t := tasks[v];
          assert s.threads[v][1] == Running(t) && s.threads[w][1] == Running(t);
          RunsInOneThread(states, actions, events, n, v, w, t);
        }
      }
      DistinctFit(tasks, WaitingTasks(states, actions));
    }
  }
}
