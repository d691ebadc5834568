/** What becomes of every task of a run: run at most once, never also cancelled, all settled when a wait returns. */
module SchedulerTasks {
  import opened Scheduler
  import opened SchedulerCounts

  function Times(log: seq<Event>, e: Event): nat {
    if log == [] then 0 else Times(log[..|log| - 1], e) + if log[|log| - 1] == e then 1 else 0
  }

  lemma {:induction false} TimesOfTask(log: seq<Event>, t: Task)
    ensures Crossed(log, ByTask(t), 0) == Times(log, Announced(t))
    ensures Crossed(log, ByTask(t), 1) == Times(log, Enqueued(t))
    ensures Crossed(log, ByTask(t), 2) == Times(log, Taken(t)) + Times(log, Cancelled(t))
    ensures Crossed(log, ByTask(t), 3) == Times(log, Started(t)) + Times(log, Cancelled(t))
    ensures Crossed(log, ByTask(t), 4) == Times(log, Ended(t)) + Times(log, Cancelled(t))
    ensures Crossed(log, ByTask(t), 5) == Times(log, Retired(t)) + Times(log, Cancelled(t))
  {
    if log != [] {
      TimesOfTask(log[..|log| - 1], t);
    }
  }

  lemma TimesAfter(log: seq<Event>, last: Event, e: Event)
    ensures Times([], e) == 0
    ensures Times(log + [last], e) == Times(log, e) + if last == e then 1 else 0
  {
    assert (log + [last])[..|log|] == log;
  }

  lemma {:induction false} HappenedIsTimes(log: seq<Event>, e: Event)
    ensures e in log <==> Times(log, e) > 0
  {
    if log != [] {
      HappenedIsTimes(log[..|log| - 1], e);
      assert log == log[..|log| - 1] + [log[|log| - 1]];
    }
  }

  lemma IdsGrow(s: State, a: Action, t: Task)
    requires Can(s, a)
    ensures Next(s, a).nextId >= s.nextId
    ensures EventOf(s, a) == Announced(t) ==> t.id == s.nextId < Next(s, a).nextId
  {
    hide Frames;
    if a.Go? {
      hide Shared;
    }
  }

  lemma {:induction false} AnnouncedOnce(states: seq<State>, actions: seq<Action>, events: seq<Event>, n: nat, t: Task)
    requires Run(states, actions, events) && n <= |events|
    ensures Times(events[..n], Announced(t)) <= 1
    ensures t.id >= states[n].nextId ==> Times(events[..n], Announced(t)) == 0
  {
    hide Next, Can, EventOf, Times;
    TimesAfter([], Silent, Announced(t));
    if n > 0 {
      RunStep(states, actions, events, n - 1);
      hide Run;
      AnnouncedOnce(states, actions, events, n - 1, t);
      IdsGrow(states[n - 1], actions[n - 1], t);
      TimesAfter(events[..n - 1], events[n - 1], Announced(t));
    }
  }

  /**
   Over any run no task body is started twice, and none is both started and cancelled; the later
   stations of a task are reached no more often than the earlier ones.
   */
  lemma TasksStartAtMostOnce(states: seq<State>, actions: seq<Action>, events: seq<Event>, t: Task)
    requires Run(states, actions, events)
    ensures Times(events, Started(t)) + Times(events, Cancelled(t)) <= Times(events, Announced(t)) <= 1
    ensures Times(events, Retired(t)) <= Times(events, Ended(t)) <= Times(events, Started(t))
         <= Times(events, Taken(t)) <= Times(events, Enqueued(t)) <= Times(events, Announced(t))
  {
    hide Run, Before, Times, Crossed;
    var n := LastState(states, actions, events);
    AnnouncedOnce(states, actions, events, n, t);
    BordersInOrder(states, actions, events, n, t, 1, 1);
    BordersInOrder(states, actions, events, n, t, 1, 2);
    BordersInOrder(states, actions, events, n, t, 2, 3);
    BordersInOrder(states, actions, events, n, t, 3, 4);
    BordersInOrder(states, actions, events, n, t, 4, 5);
    TimesOfTask(events, t);
  }

  lemma LastState(states: seq<State>, actions: seq<Action>, events: seq<Event>) returns (n: nat)
    requires Run(states, actions, events)
    ensures n == |events| && |states| == n + 1 && events[..n] == events
  {
    n := |events|;
  }

  /** A task crosses its borders in order. */
  lemma BordersInOrder(states: seq<State>, actions: seq<Action>, events: seq<Event>, n: nat, t: Task, b: nat, c: nat)
    requires Run(states, actions, events) && n <= |events| && 1 <= b <= c <= 5
    ensures Crossed(events[..n], ByTask(t), c) <= Crossed(events[..n], ByTask(t), b)
         <= Crossed(events[..n], ByTask(t), 0)
  {
    RunConserves(states, actions, events, n, ByTask(t), b);
    RunConserves(states, actions, events, n, ByTask(t), c);
    BeforeGrows(states[n], ByTask(t), ByTask(t), b, c);
  }

  predicate Covers(wide: Key, narrow: Key) {
    wide == narrow || (narrow.ByTask? && wide == BySchedule(narrow.task.schedule))
  }

  lemma {:induction false} StackGrows(st: seq<Frame>, key: Key, wide: Key, b: nat, c: nat)
    requires Covers(wide, key) && b <= c
    ensures InStack(st, key, b) <= InStack(st, wide, c)
  {
    if st != [] { StackGrows(st[..|st| - 1], key, wide, b, c); }
  }

  lemma {:induction false} ThreadsGrow(threads: seq<seq<Frame>>, key: Key, wide: Key, b: nat, c: nat)
    requires Covers(wide, key) && b <= c
    ensures InThreads(threads, key, b) <= InThreads(threads, wide, c)
  {
    if threads != [] {
      ThreadsGrow(threads[..|threads| - 1], key, wide, b, c);
      StackGrows(threads[|threads| - 1], key, wide, b, c);
    }
  }

  lemma {:induction false} QueueGrows(q: seq<Task>, key: Key, wide: Key)
    requires Covers(wide, key)
    ensures InQueue(q, key) <= InQueue(q, wide)
  {
    if q != [] { QueueGrows(q[..|q| - 1], key, wide); }
  }

  /** A later border, or a wider key, has more tasks before it. */
  lemma BeforeGrows(s: State, key: Key, wide: Key, b: nat, c: nat)
    requires Covers(wide, key) && b <= c
    ensures Before(s, key, b) <= Before(s, wide, c)
  {
    ThreadsGrow(s.threads, key, wide, b, c);
    QueueGrows(s.high, key, wide);
    QueueGrows(s.normal, key, wide);
  }

  lemma ReturnSawZero(s: State, a: Action, k: nat)
    requires Can(s, a) && EventOf(s, a) == WaitReturned(k)
    ensures Load(s, k) <= 0
  {
    hide Frames, Shared;
  }

  /**
   When a wait for schedule `k` returns, every task submitted to `k` before that moment has either
   run to its end or been cancelled, and not both: however the work was shared between workers
   and waiters, and whatever else the waiter ran.
   */
  lemma WaitSettlesEverything(states: seq<State>, actions: seq<Action>, events: seq<Event>, n: nat, k: nat, t: Task)
    requires Run(states, actions, events) && n < |events| && events[n] == WaitReturned(k)
    requires t.schedule == k && Announced(t) in events[..n]
    ensures Times(events[..n], Ended(t)) + Times(events[..n], Cancelled(t)) == 1
    ensures Times(events[..n], Started(t)) == Times(events[..n], Ended(t))
  {
    CountersAreExact(states, actions, events, n, k);
    ReturnSawZero(states[n], actions[n], k);
    RunConserves(states, actions, events, n, ByTask(t), 4);
    RunConserves(states, actions, events, n, ByTask(t), 3);
    AnnouncedOnce(states, actions, events, n, t);
    hide Run, Before, Times, Crossed;
    BeforeGrows(states[n], ByTask(t), BySchedule(k), 4, 5);
    BeforeGrows(states[n], ByTask(t), BySchedule(k), 3, 5);
    TimesOfTask(events[..n], t);
    HappenedIsTimes(events[..n], Announced(t));
  }
}
