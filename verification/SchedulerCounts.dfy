/** Where every task is, counted: nothing is lost, run twice, or both run and cancelled. */
module SchedulerCounts {
  import opened Scheduler

  /** What is counted: one task, all tasks of one schedule, or all tasks. */
  datatype Key = ByTask(task: Task) | BySchedule(k: nat) | AnyTask

  predicate Matches(key: Key, t: Task) {
    match key
    case ByTask(u) => t == u
    case BySchedule(k) => t.schedule == k
    case AnyTask => true
  }

  /**
   The stations of a task: announced (0), queued (1), popped (2), running (3), finished (4), and
   gone (5). An event takes its task from one station to another and so across the borders
   between them; border `b` lies just before station `b`. A cancelled task leaves from the queue.
   */
  function Station(f: Frame): int {
    match f
    case Submitting(_) => 0
    case Popped(_) => 2
    case Running(_) => 3
    case Finished(_) => 4
    case _ => 5
  }

  predicate Crosses(e: Event, border: nat) {
    match e
    case Announced(_) => border == 0
    case Enqueued(_) => border == 1
    case Taken(_) => border == 2
    case Started(_) => border == 3
    case Ended(_) => border == 4
    case Retired(_) => border == 5
    case Cancelled(_) => 2 <= border <= 5
    case _ => false
  }

  function Crossing(e: Event, key: Key, border: nat): nat {
    if Crosses(e, border) && Matches(key, e.task) then 1 else 0
  }

  /** How often `log` takes a task of `key` across `border`. */
  function Crossed(log: seq<Event>, key: Key, border: nat): nat {
    if log == [] then 0 else Crossed(log[..|log| - 1], key, border) + Crossing(log[|log| - 1], key, border)
  }

  function InFrame(f: Frame, key: Key, border: nat): nat {
    if Station(f) < border && Station(f) < 5 && Matches(key, f.task) then 1 else 0
  }

  function InStack(st: seq<Frame>, key: Key, border: nat): nat {
    if st == [] then 0 else InStack(st[..|st| - 1], key, border) + InFrame(st[|st| - 1], key, border)
  }

  function InThreads(threads: seq<seq<Frame>>, key: Key, border: nat): nat {
    if threads == [] then 0
    else InThreads(threads[..|threads| - 1], key, border) + InStack(threads[|threads| - 1], key, border)
  }

  function InQueue(q: seq<Task>, key: Key): nat {
    if q == [] then 0 else InQueue(q[..|q| - 1], key) + if Matches(key, q[|q| - 1]) then 1 else 0
  }

  function Queued(s: State, key: Key, border: nat): nat {
    if border > 1 then InQueue(s.high, key) + InQueue(s.normal, key) else 0
  }

  /** The tasks of `key` that have been announced and stand before `border`. */
  function Before(s: State, key: Key, border: nat): nat {
    InThreads(s.threads, key, border) + Queued(s, key, border)
  }

  // ---- Counting through the updates a step makes ----

  lemma {:induction false} StackAppend(below: seq<Frame>, top: seq<Frame>, key: Key, border: nat)
    ensures InStack(below + top, key, border) == InStack(below, key, border) + InStack(top, key, border)
  {
    if top == [] {
      assert below + top == below;
    } else {
      assert (below + top)[..|below + top| - 1] == below + top[..|top| - 1];
      StackAppend(below, top[..|top| - 1], key, border);
    }
  }

  lemma {:induction false} ThreadsUpdate(threads: seq<seq<Frame>>, i: nat, st: seq<Frame>, key: Key, border: nat)
    requires i < |threads|
    ensures InThreads(threads[i := st], key, border)
         == InThreads(threads, key, border) - InStack(threads[i], key, border) + InStack(st, key, border)
  {
    var n := |threads| - 1;
    if i == n {
      assert threads[i := st][..n] == threads[..n];
    } else {
      assert threads[i := st][..n] == threads[..n][i := st];
      ThreadsUpdate(threads[..n], i, st, key, border);
    }
  }

  lemma WokenCount(st: seq<Frame>, k: nat, key: Key, border: nat)
    ensures InStack(WokenStack(st, k), key, border) == InStack(st, key, border)
  {
    if st != [] && Active(st).WaitAsleep? && Active(st).k == k {
      StackAppend(Below(st), [WaitBlock(k, Active(st).v)], key, border);
      assert InStack([WaitBlock(k, Active(st).v)], key, border) == 0;
    }
  }

  lemma {:induction false} WakeCount(threads: seq<seq<Frame>>, k: nat, key: Key, border: nat)
    ensures InThreads(WakeWaiters(threads, k), key, border) == InThreads(threads, key, border)
  {
    if threads != [] {
      var n := |threads| - 1;
      WakeCount(threads[..n], k, key, border);
      WokenCount(threads[n], k, key, border);
      assert WakeWaiters(threads, k)[..n] == WakeWaiters(threads[..n], k);
    }
  }

  lemma {:induction false} QueueAppend(q: seq<Task>, r: seq<Task>, key: Key)
    ensures InQueue(q + r, key) == InQueue(q, key) + InQueue(r, key)
  {
    if r == [] {
      assert q + r == q;
    } else {
      assert (q + r)[..|q + r| - 1] == q + r[..|r| - 1];
      QueueAppend(q, r[..|r| - 1], key);
    }
  }

  lemma QueueRemove(q: seq<Task>, p: nat, key: Key)
    requires p < |q|
    ensures InQueue(RemoveAt(q, p), key) == InQueue(q, key) - if Matches(key, q[p]) then 1 else 0
  {
    QueueAppend(q[..p], q[p + 1..], key);
    QueueAppend(q[..p], [q[p]], key);
    QueueAppend(q[..p] + [q[p]], q[p + 1..], key);
    assert q == q[..p] + [q[p]] + q[p + 1..];
    assert InQueue([q[p]], key) == if Matches(key, q[p]) then 1 else 0;
  }

  // ---- One step moves one task, as its event says ----

  lemma PopBalance(s: State, key: Key)
    requires Ready(s)
    ensures InQueue(PopNext(s).high, key) + InQueue(PopNext(s).normal, key)
         == InQueue(s.high, key) + InQueue(s.normal, key) - if Matches(key, NextTask(s)) then 1 else 0
  {
    if s.high != [] { QueueRemove(s.high, 0, key); } else { QueueRemove(s.normal, 0, key); }
  }

  lemma AppendBalance(s: State, t: Task, key: Key)
    ensures InQueue(Append(s, t).high, key) + InQueue(Append(s, t).normal, key)
         == InQueue(s.high, key) + InQueue(s.normal, key) + if Matches(key, t) then 1 else 0
  {
    QueueAppend(s.high, [t], key);
    QueueAppend(s.normal, [t], key);
    assert InQueue([t], key) == if Matches(key, t) then 1 else 0;
  }

  lemma SweepBalance(s: State, sw: Sweep, key: Key)
    ensures var s' := SweepRound(s, sw);
      InQueue(s'.high, key) + InQueue(s'.normal, key) == InQueue(s.high, key) + InQueue(s.normal, key)
        - if SweepHits(s, sw) && Matches(key, SweptQueue(s, sw)[sw.at]) then 1 else 0
  {
    if SweepHits(s, sw) { QueueRemove(SweptQueue(s, sw), sw.at, key); }
  }

  lemma ShortStacks(f: Frame, g: Frame, key: Key, border: nat)
    ensures InStack([], key, border) == 0
    ensures InStack([f], key, border) == InFrame(f, key, border)
    ensures InStack([f, g], key, border) == InFrame(f, key, border) + InFrame(g, key, border)
  {
    assert [f, g][..1] == [f];
    assert InStack([], key, border) == 0;
  }

  lemma OwedCount(s: State, k: nat, key: Key, border: nat)
    ensures InStack(Owed(s, k), key, border) == 0
    ensures InStack([Sweeping] + Owed(s, k), key, border) == 0
  {
    ShortStacks(NotifyAll(k), NotifyAll(k), key, border);
    ShortStacks(Sweeping, NotifyAll(k), key, border);
    assert [Sweeping] + [NotifyAll(k)] == [Sweeping, NotifyAll(k)];
    assert [Sweeping] + [] == [Sweeping];
  }

  /** The frames a step leaves and the queues, against the frame it came from: one task moved on. */
  predicate Balanced(s: State, i: nat, f: Frame, key: Key, border: nat)
    requires FrameCanGo(s, i, f)
  {
    InStack(Frames(s, i, f), key, border) + Queued(Shared(s, i, f), key, border)
      + Crossing(FrameEvent(s, i, f), key, border)
    == InFrame(f, key, border) + Queued(s, key, border) + Crossing(FrameEvent(s, i, f), key, 0)
  }

  lemma TakingBalance(s: State, i: nat, f: Frame, key: Key, border: nat)
    requires FrameCanGo(s, i, f) && 1 <= border <= 5 && (f.Want? || f.WaitTryPop?)
    ensures Balanced(s, i, f, key, border)
  {
    hide InStack, InQueue, PopNext, NextTask;
    var base := if f.Want? then Top else WaitTop(f.k);
    if Ready(s) {
      PopBalance(s, key);
      ShortStacks(base, Popped(NextTask(s)), key, border);
    } else {
      ShortStacks(Frames(s, i, f)[0], Top, key, border);
    }
  }

  lemma SweepingBalance(s: State, i: nat, key: Key, border: nat)
    requires FrameCanGo(s, i, Sweeping) && 1 <= border <= 5
    ensures Balanced(s, i, Sweeping, key, border)
  {
    hide InStack, InQueue, Owed, SweepRound;
    var sw := s.lock.value;
    SweepBalance(s, sw, key);
    ShortStacks(Sweeping, Top, key, border);
    if SweepHits(s, sw) {
      OwedCount(s, SweptQueue(s, sw)[sw.at].schedule, key, border);
    }
  }

  lemma FrameBalance(s: State, i: nat, f: Frame, key: Key, border: nat)
    requires FrameCanGo(s, i, f) && 1 <= border <= 5
    ensures Balanced(s, i, f, key, border)
  {
    hide InStack, InQueue, Append, Owed;
    match f {
      case Want => TakingBalance(s, i, f, key, border);
      case WaitTryPop(_) => TakingBalance(s, i, f, key, border);
      case Sweeping => SweepingBalance(s, i, key, border);
      case Submitting(t) =>
        AppendBalance(s, t, key);
        ShortStacks(NotifyOne, Top, key, border);
      case Finished(t) => OwedCount(s, t.schedule, key, border);
      case _ => PlainBalance(s, i, f, key, border);
    }
  }

  lemma PlainBalance(s: State, i: nat, f: Frame, key: Key, border: nat)
    requires FrameCanGo(s, i, f) && 1 <= border <= 5
    requires !f.Want? && !f.WaitTryPop? && !f.Sweeping? && !f.Submitting? && !f.Finished?
    ensures Balanced(s, i, f, key, border)
  {
    hide InStack, InQueue, Load;
    ShortStacks(if Frames(s, i, f) == [] then Top else Frames(s, i, f)[0], Top, key, border);
    assert |Frames(s, i, f)| <= 1;
  }

  /** The count of threads when the stack of one thread changes from its top. */
  lemma TopUpdate(threads: seq<seq<Frame>>, i: nat, top: seq<Frame>, key: Key, border: nat)
    requires i < |threads| && threads[i] != []
    ensures InThreads(threads[i := Below(threads[i]) + top], key, border)
         == InThreads(threads, key, border) - InFrame(Active(threads[i]), key, border) + InStack(top, key, border)
  {
    var st := threads[i];
    ThreadsUpdate(threads, i, Below(st) + top, key, border);
    StackAppend(Below(st), top, key, border);
  }

  lemma PushUpdate(threads: seq<seq<Frame>>, i: nat, f: Frame, key: Key, border: nat)
    requires i < |threads|
    ensures InThreads(threads[i := threads[i] + [f]], key, border)
         == InThreads(threads, key, border) + InFrame(f, key, border)
  {
    ThreadsUpdate(threads, i, threads[i] + [f], key, border);
    StackAppend(threads[i], [f], key, border);
    ShortStacks(f, f, key, border);
  }

  lemma SharedThreads(s: State, i: nat, key: Key, border: nat)
    requires Can(s, Go(i))
    ensures var s' := Shared(s, i, Active(s.threads[i]));
      s'.threads[i] == s.threads[i] && InThreads(s'.threads, key, border) == InThreads(s.threads, key, border)
  {
    hide InThreads;
    var f := Active(s.threads[i]);
    if f.NotifyAll? {
      WakeCount(s.threads, f.k, key, border);
    } else {
      hide Shared;
    }
  }

  lemma GoStep(s: State, i: nat, key: Key, border: nat)
    requires Can(s, Go(i)) && 1 <= border <= 5
    ensures var e := EventOf(s, Go(i));
      Before(Next(s, Go(i)), key, border) + Crossing(e, key, border) == Before(s, key, border) + Crossing(e, key, 0)
  {
    hide InStack, InThreads, InQueue, Shared, Frames, FrameEvent, InFrame, FrameCanGo;
    var f := Active(s.threads[i]);
    var s' := Shared(s, i, f);
    FrameBalance(s, i, f, key, border);
    SharedThreads(s, i, key, border);
    TopUpdate(s'.threads, i, Frames(s, i, f), key, border);
    assert Next(s, Go(i)).threads == s'.threads[i := Below(s'.threads[i]) + Frames(s, i, f)];
  }

  lemma WakeWorkerStep(s: State, i: nat, w: nat, key: Key, border: nat)
    requires Can(s, WakeWorker(i, w)) && 1 <= border <= 5
    ensures Before(Next(s, WakeWorker(i, w)), key, border) == Before(s, key, border)
  {
    TopUpdate(s.threads, i, [], key, border);
    assert Below(s.threads[i]) + [] == Below(s.threads[i]);
    var threads := s.threads[i := Below(s.threads[i])];
    assert i != w && threads[w] == [Asleep];
    ThreadsUpdate(threads, w, [Want], key, border);
    ShortStacks(Asleep, Asleep, key, border);
    ShortStacks(Want, Want, key, border);
  }

  /** Every step moves at most one task, from one side to the other of the borders its event crosses. */
  lemma StepBalance(s: State, a: Action, key: Key, border: nat)
    requires Can(s, a) && 1 <= border <= 5
    ensures var e := EventOf(s, a);
      Before(Next(s, a), key, border) + Crossing(e, key, border) == Before(s, key, border) + Crossing(e, key, 0)
  {
    hide InStack, InThreads, InQueue, Shared, Frames, FrameEvent, FrameCanGo;
    match a {
      case Go(i) => GoStep(s, i, key, border);
      case WakeWorker(i, w) => WakeWorkerStep(s, i, w, key, border);
      case Submit(i, tag, k, high) => PushUpdate(s.threads, i, Submitting(NewTask(s, tag, k, high)), key, border);
      case Cancel(i, tag) => PushUpdate(s.threads, i, CancelWant(tag), key, border);
      case Wait(i, k) => PushUpdate(s.threads, i, WaitTop(k), key, border);
      case Spurious(i) =>
        var f := Woken(Active(s.threads[i]));
        TopUpdate(s.threads, i, [f], key, border);
        ShortStacks(f, f, key, border);
      case RequestStop(_) =>
    }
  }

  /** `fetch_add` and `fetch_sub` happen exactly at announcing, and at retiring or cancelling. */
  lemma CounterStep(s: State, a: Action, k: nat)
    requires Can(s, a)
    ensures var e := EventOf(s, a);
      Load(Next(s, a), k) == Load(s, k) + Crossing(e, BySchedule(k), 0) - Crossing(e, BySchedule(k), 5)
  {
    hide Frames;
    if a.Go? {
      var f := Active(s.threads[a.i]);
      if f.Sweeping? && SweepHits(s, s.lock.value) {
        assert Shared(s, a.i, f).counters
            == Add(s, SweptQueue(s, s.lock.value)[s.lock.value.at].schedule, -1).counters;
      }
    }
  }

  // ---- Over whole runs ----

  /** What has been announced either still stands before the border or has crossed it. */
  predicate Conserved(s: State, log: seq<Event>, key: Key, border: nat) {
    Before(s, key, border) + Crossed(log, key, border) == Crossed(log, key, 0)
  }

  predicate Exact(s: State, k: nat) {
    Load(s, k) == Before(s, BySchedule(k), 5)
  }

  lemma {:induction false} NothingAtFirst(threads: seq<seq<Frame>>, key: Key, border: nat)
    requires forall i :: 0 <= i < |threads| ==> threads[i] == [] || threads[i] == [Top]
    ensures InThreads(threads, key, border) == 0
  {
    if threads != [] {
      NothingAtFirst(threads[..|threads| - 1], key, border);
      ShortStacks(Top, Top, key, border);
    }
  }

  lemma InitCounts(s: State, key: Key, border: nat)
    requires Init(s)
    ensures Before(s, key, border) == 0
  {
    NothingAtFirst(s.threads, key, border);
  }

  lemma {:induction false} RunConserves(states: seq<State>, actions: seq<Action>, events: seq<Event>, n: nat,
                                        key: Key, border: nat)
    requires Run(states, actions, events) && n <= |events| && 1 <= border <= 5
    ensures Conserved(states[n], events[..n], key, border)
  {
    hide Before, Next, Can, EventOf;
    if n == 0 {
      InitCounts(states[0], key, border);
    } else {
      RunConserves(states, actions, events, n - 1, key, border);
      StepBalance(states[n - 1], actions[n - 1], key, border);
      assert events[..n][..n - 1] == events[..n - 1];
    }
  }

  /**
   In every reachable state the counter of every schedule is the number of its tasks announced
   but not yet queued, queued, or popped but not yet retired; so it is never negative.
   */
  lemma {:induction false} CountersAreExact(states: seq<State>, actions: seq<Action>, events: seq<Event>,
                                            n: nat, k: nat)
    requires Run(states, actions, events) && n <= |events|
    ensures Load(states[n], k) == Before(states[n], BySchedule(k), 5) >= 0
    ensures Load(states[n], k) == Crossed(events[..n], BySchedule(k), 0) - Crossed(events[..n], BySchedule(k), 5)
  {
    RunConserves(states, actions, events, n, BySchedule(k), 5);
    hide Before, Next, Can, EventOf;
    if n == 0 {
      InitCounts(states[0], BySchedule(k), 5);
    } else {
      CountersAreExact(states, actions, events, n - 1, k);
      StepBalance(states[n - 1], actions[n - 1], BySchedule(k), 5);
      CounterStep(states[n - 1], actions[n - 1], k);
    }
  }
}
