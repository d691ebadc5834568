/**
 How long the scheduler can go on by itself. While nobody makes a new call and nobody wakes up
 unasked, every step uses up work that was there before, so all threads come to a stop.
 */
module SchedulerTermination {
  import opened Wrappers
  import opened Scheduler
  import opened SchedulerCounts
  import opened SchedulerOrder
  import opened SchedulerProgress
  import opened SchedulerWakeups

  // ---- The work that is left ----

  /** Tasks a cancellation that starts now may have to look at. */
  function Open(s: State): nat {
    Before(s, AnyTask, 2)
  }

  /**
   The steps frame `f` can still take by itself. Comparing a stale value costs a waiter another
   round; a `notify_all` may send every thread into one.
   */
  function FrameCost(s: State, open: nat, f: Frame): nat {
    match f
    case Top => 2
    case Want => 1
    case NotifyOne => 2
    case NotifyAll(_) => 5 * |s.threads| + 1
    case WaitTop(k) => if Load(s, k) > 0 then 4 else 1
    case WaitTryPop(_) => 3
    case WaitLoad(_) => 2
    case WaitBlock(k, v) => if Load(s, k) == v then 1 else 5
    case CancelWant(_) => open + 3
    case _ => 0
  }

  function StackCost(s: State, open: nat, st: seq<Frame>): nat {
    if st == [] then 0 else StackCost(s, open, st[..|st| - 1]) + FrameCost(s, open, st[|st| - 1])
  }

  function ThreadsCost(s: State, open: nat, threads: seq<seq<Frame>>): nat {
    if threads == [] then 0
    else ThreadsCost(s, open, threads[..|threads| - 1]) + StackCost(s, open, threads[|threads| - 1])
  }

  /** What it takes to settle a task: its counter makes every blocked value stale, and may reach zero. */
  function SettleCost(s: State): nat { 9 * |s.threads| + 2 }

  function TaskCost(s: State): nat {
    3 * Before(s, AnyTask, 1) + 2 * Before(s, AnyTask, 2) + Before(s, AnyTask, 3) + Before(s, AnyTask, 4)
    + SettleCost(s) * Before(s, AnyTask, 5)
  }

  /** Rounds the sweep that holds the mutex has left. */
  function LockCost(s: State): int {
    match s.lock
    case None => 0
    case Some(sw) => if sw.inHigh then |s.high| - sw.at + |s.normal| + 2 else |s.normal| - sw.at + 1
  }

  function Work(s: State): int {
    ThreadsCost(s, Open(s), s.threads) + TaskCost(s) + LockCost(s)
  }

  lemma WorkIsLeft(s: State)
    requires SweepInv(s)
    ensures Work(s) >= 0
  {
    assert LockCost(s) >= 0;
    hide Before, ThreadsCost, SweepInv;
    assert SettleCost(s) * Before(s, AnyTask, 5) >= 0;
  }

  // ---- Costs through the updates a step makes ----

  lemma {:induction false} StackCostAppend(s: State, open: nat, below: seq<Frame>, top: seq<Frame>)
    ensures StackCost(s, open, below + top) == StackCost(s, open, below) + StackCost(s, open, top)
  {
    if top == [] {
      assert below + top == below;
    } else {
      assert (below + top)[..|below + top| - 1] == below + top[..|top| - 1];
      StackCostAppend(s, open, below, top[..|top| - 1]);
    }
  }

  lemma {:induction false} ThreadsCostUpdate(s: State, open: nat, threads: seq<seq<Frame>>, i: nat, st: seq<Frame>)
    requires i < |threads|
    ensures ThreadsCost(s, open, threads[i := st])
         == ThreadsCost(s, open, threads) - StackCost(s, open, threads[i]) + StackCost(s, open, st)
  {
    var n := |threads| - 1;
    if i == n {
      assert threads[i := st][..n] == threads[..n];
    } else {
      assert threads[i := st][..n] == threads[..n][i := st];
      ThreadsCostUpdate(s, open, threads[..n], i, st);
    }
  }

  /** Taking the active frame off leaves the rest; new frames add their cost to it. */
  lemma TopCost(s: State, open: nat, threads: seq<seq<Frame>>, i: nat, top: seq<Frame>)
    requires i < |threads| && threads[i] != []
    ensures ThreadsCost(s, open, threads[i := Below(threads[i]) + top])
         == ThreadsCost(s, open, threads[i := Below(threads[i])]) + StackCost(s, open, top)
    ensures ThreadsCost(s, open, threads)
         == ThreadsCost(s, open, threads[i := Below(threads[i])]) + FrameCost(s, open, Active(threads[i]))
  {
    var st := threads[i];
    ThreadsCostUpdate(s, open, threads, i, Below(st) + top);
    ThreadsCostUpdate(s, open, threads, i, Below(st));
    StackCostAppend(s, open, Below(st), top);
  }

  // ---- Costs when counters fall ----

  predicate SameLoads(s: State, s': State) {
    s'.counters == s.counters
  }

  /** Nothing grew, and no more than the counters fell. */
  ghost predicate Falls(s: State, s': State) {
    |s'.threads| == |s.threads| && forall k: nat :: Load(s', k) <= Load(s, k)
  }

  lemma {:induction false} StackCostFalls(s: State, s': State, open: nat, open': nat, st: seq<Frame>)
    requires Falls(s, s') && open' <= open
    requires SameLoads(s, s') || forall f :: f in st ==> !f.WaitBlock?
    ensures StackCost(s', open', st) <= StackCost(s, open, st)
  {
    if st != [] {
      var before, f := st[..|st| - 1], st[|st| - 1];
      assert f in st && forall g :: g in before ==> g in st;
      StackCostFalls(s, s', open, open', before);
      assert FrameCost(s', open', f) <= FrameCost(s, open, f);
    }
  }

  /** A fallen counter costs the one active frame of a thread another round. */
  lemma OneMoreRound(s: State, s': State, open: nat, open': nat, st: seq<Frame>, worker: bool)
    requires Falls(s, s') && open' <= open && StackOk(st, worker)
    ensures StackCost(s', open', st) <= StackCost(s, open, st) + 4
  {
    if st != [] {
      forall f | f in Below(st)
        ensures !f.WaitBlock?
      {
        var j :| 0 <= j < |st| - 1 && st[j] == f;
        assert MayHold(st[j], st[j + 1]);
      }
      StackCostFalls(s, s', open, open', Below(st));
      assert FrameCost(s', open', Active(st)) <= FrameCost(s, open, Active(st)) + 4;
    }
  }

  lemma {:induction false} ThreadsCostFalls(s: State, s': State, open: nat, open': nat, threads: seq<seq<Frame>>)
    requires Falls(s, s') && SameLoads(s, s') && open' <= open
    ensures ThreadsCost(s', open', threads) <= ThreadsCost(s, open, threads)
  {
    if threads != [] {
      ThreadsCostFalls(s, s', open, open', threads[..|threads| - 1]);
      StackCostFalls(s, s', open, open', threads[|threads| - 1]);
    }
  }

  lemma {:induction false} MoreRounds(s: State, s': State, open: nat, open': nat, threads: seq<seq<Frame>>)
    requires Falls(s, s') && open' <= open
    requires forall i :: 0 <= i < |threads| ==> StackOk(threads[i], false) || StackOk(threads[i], true)
    ensures ThreadsCost(s', open', threads) <= ThreadsCost(s, open, threads) + 4 * |threads|
  {
    if threads != [] {
      var n := |threads| - 1;
      MoreRounds(s, s', open, open', threads[..n]);
      OneMoreRound(s, s', open, open', threads[n], StackOk(threads[n], true));
    }
  }

  lemma {:induction false} WokenCost(s: State, open: nat, threads: seq<seq<Frame>>, k: nat)
    ensures ThreadsCost(s, open, WakeWaiters(threads, k)) <= ThreadsCost(s, open, threads) + 5 * |threads|
  {
    if threads != [] {
      var n := |threads| - 1;
      WokenCost(s, open, threads[..n], k);
      WokenStackCost(s, open, threads[n], k);
      assert WakeWaiters(threads, k)[..n] == WakeWaiters(threads[..n], k);
    }
  }

  lemma WokenStackCost(s: State, open: nat, st: seq<Frame>, k: nat)
    ensures StackCost(s, open, WokenStack(st, k)) <= StackCost(s, open, st) + 5
  {
    if st != [] && Active(st).WaitAsleep? && Active(st).k == k {
      var f := WaitBlock(k, Active(st).v);
      StackCostAppend(s, open, Below(st), [f]);
      ShortCosts(s, open, f, f);
    }
  }

  lemma ShortCosts(s: State, open: nat, f: Frame, g: Frame)
    ensures StackCost(s, open, []) == 0
    ensures StackCost(s, open, [f]) == FrameCost(s, open, f)
    ensures StackCost(s, open, [f, g]) == FrameCost(s, open, f) + FrameCost(s, open, g)
  {
    assert [f, g][..1] == [f];
  }

  // ---- What a step uses up of the tasks ----

  predicate ByItself(a: Action) {
    a.Go? || a.WakeWorker?
  }

  /** What an event takes off the cost of the tasks. */
  function Spent(s: State, e: Event): nat {
    match e
    case Enqueued(_) => 3
    case Taken(_) => 2
    case Started(_) => 1
    case Ended(_) => 1
    case Retired(_) => SettleCost(s)
    case Cancelled(_) => SettleCost(s) + 4
    case _ => 0
  }

  lemma NothingAnnounced(s: State, a: Action)
    requires Can(s, a) && ByItself(a)
    ensures !EventOf(s, a).Announced?
    ensures |Next(s, a).threads| == |s.threads|
  {
    hide Frames, Shared;
  }

  /** Without new tasks a border has fewer tasks before it by one exactly when the event crosses it. */
  lemma BorderSpends(s: State, a: Action, border: nat)
    requires Can(s, a) && ByItself(a) && 1 <= border <= 5
    ensures Before(Next(s, a), AnyTask, border)
         == Before(s, AnyTask, border) - if Crosses(EventOf(s, a), border) then 1 else 0
  {
    hide Before, Next, Can, EventOf;
    StepBalance(s, a, AnyTask, border);
    NothingAnnounced(s, a);
  }

  lemma SettledOne(cost: nat, before: nat, after: nat, settled: bool)
    requires before - after == if settled then 1 else 0
    ensures cost * after == cost * before - if settled then cost else 0
  {
    if settled { assert cost * (after + 1) == cost * after + cost; }
  }

  lemma TasksSpend(s: State, a: Action)
    requires Can(s, a) && ByItself(a)
    ensures TaskCost(Next(s, a)) == TaskCost(s) - Spent(s, EventOf(s, a))
    ensures Open(Next(s, a)) <= Open(s)
  {
    hide Before, Next, Can, EventOf;
    BorderSpends(s, a, 1);
    BorderSpends(s, a, 2);
    BorderSpends(s, a, 3);
    BorderSpends(s, a, 4);
    BorderSpends(s, a, 5);
    NothingAnnounced(s, a);
    SettledOne(SettleCost(s), Before(s, AnyTask, 5), Before(Next(s, a), AnyTask, 5), Crosses(EventOf(s, a), 5));
    hide SettleCost;
    assert SettleCost(Next(s, a)) == SettleCost(s) by { SameSettleCost(s, Next(s, a)); }
  }

  lemma SameSettleCost(s: State, s': State)
    requires |s'.threads| == |s.threads|
    ensures SettleCost(s') == SettleCost(s)
  {
  }

  lemma {:induction false} AllCounted(q: seq<Task>)
    ensures InQueue(q, AnyTask) == |q|
  {
    if q != [] { AllCounted(q[..|q| - 1]); }
  }

  lemma QueuesAreOpen(s: State)
    ensures |s.high| + |s.normal| <= Open(s)
  {
    AllCounted(s.high);
    AllCounted(s.normal);
  }

  // ---- What a step uses up of the frames ----

  predicate Settles(e: Event) {
    e.Retired? || e.Cancelled?
  }

  /** The frames a step leaves cost less than the one it came from and what it spent of the tasks. */
  predicate Pays(s: State, s': State, i: nat, f: Frame, open': nat)
    requires FrameCanGo(s, i, f)
  {
    StackCost(s', open', Frames(s, i, f)) + LockCost(Shared(s, i, f))
      + (if Settles(FrameEvent(s, i, f)) then 4 * |s.threads| else 0)
    < FrameCost(s, Open(s), f) + LockCost(s) + Spent(s, FrameEvent(s, i, f))
  }

  /** Costs in `s'` are those after the shared part of the step. */
  predicate AfterShared(s: State, s': State, i: nat, f: Frame)
    requires FrameCanGo(s, i, f)
  {
    s'.counters == Shared(s, i, f).counters && |s'.threads| == |s.threads|
  }

  lemma TakingPays(s: State, s': State, i: nat, f: Frame, open': nat)
    requires FrameCanGo(s, i, f) && (f.Want? || f.WaitTryPop?) && AfterShared(s, s', i, f)
    ensures Pays(s, s', i, f, open')
  {
    hide StackCost, Before, NextTask, Open;
    if Ready(s) {
      ShortCosts(s', open', if f.Want? then Top else WaitTop(f.k), Popped(NextTask(s)));
    } else {
      ShortCosts(s', open', Frames(s, i, f)[0], Top);
    }
  }

  lemma OwedCost(s: State, s': State, open': nat, k: nat)
    requires |s'.threads| == |s.threads|
    ensures StackCost(s', open', Owed(s, k)) <= 5 * |s.threads| + 1
    ensures StackCost(s', open', [Sweeping] + Owed(s, k)) <= 5 * |s.threads| + 1
  {
    hide Load;
    ShortCosts(s', open', NotifyAll(k), NotifyAll(k));
    ShortCosts(s', open', Sweeping, NotifyAll(k));
    assert [Sweeping] + [NotifyAll(k)] == [Sweeping, NotifyAll(k)];
    assert [Sweeping] + [] == [Sweeping];
  }

  lemma SweepInRange(s: State)
    requires SweepInv(s) && s.lock.Some?
    ensures s.lock.value.at <= |SweptQueue(s, s.lock.value)|
  {
  }

  lemma SweepingPays(s: State, s': State, i: nat, open': nat)
    requires FrameCanGo(s, i, Sweeping) && SweepInv(s) && AfterShared(s, s', i, Sweeping)
    ensures Pays(s, s', i, Sweeping, open')
  {
    SweepInRange(s);
    hide StackCost, Before, Open, Owed, SweepInv;
    var sw := s.lock.value;
    ShortCosts(s', open', Sweeping, Top);
    if SweepHits(s, sw) {
      OwedCost(s, s', open', SweptQueue(s, sw)[sw.at].schedule);
    }
  }

  lemma FramePays(s: State, s': State, i: nat, f: Frame, open': nat)
    requires FrameCanGo(s, i, f) && SweepInv(s) && !f.NotifyAll? && AfterShared(s, s', i, f)
    ensures Pays(s, s', i, f, open')
  {
    match f {
      case Want => TakingPays(s, s', i, f, open');
      case WaitTryPop(_) => TakingPays(s, s', i, f, open');
      case Sweeping => SweepingPays(s, s', i, open');
      case Finished(t) =>
        hide StackCost, Before, Open, Owed, Load, SweepInv;
        OwedCost(s, s', open', t.schedule);
      case CancelWant(_) =>
        QueuesAreOpen(s);
        hide StackCost, Before, Open, SweepInv;
        ShortCosts(s', open', Sweeping, Top);
      case _ =>
        hide SweepInv;
        PlainPays(s, s', i, f, open');
    }
  }

  lemma PlainPays(s: State, s': State, i: nat, f: Frame, open': nat)
    requires FrameCanGo(s, i, f) && AfterShared(s, s', i, f)
    requires !f.Want? && !f.WaitTryPop? && !f.Sweeping? && !f.Finished? && !f.CancelWant? && !f.NotifyAll?
    ensures Pays(s, s', i, f, open')
  {
    hide StackCost, Before, Open;
    ShortCosts(s', open', if Frames(s, i, f) == [] then Top else Frames(s, i, f)[0], Top);
    assert |Frames(s, i, f)| <= 1;
  }

  // ---- Every step by itself uses up work ----

  /** Only settling a task makes a counter fall. */
  lemma SharedFalls(s: State, i: nat)
    requires Can(s, Go(i))
    ensures var f := Active(s.threads[i]);
      Falls(s, Next(s, Go(i))) && (Settles(FrameEvent(s, i, f)) || SameLoads(s, Next(s, Go(i))))
      && AfterShared(s, Next(s, Go(i)), i, f)
  {
    hide Frames;
  }

  lemma RestFalls(s: State, s': State, i: nat, open': nat, settles: bool)
    requires Shape(s) && i < |s.threads| && s.threads[i] != []
    requires Falls(s, s') && (settles || SameLoads(s, s')) && open' <= Open(s)
    ensures var rest := s.threads[i := Below(s.threads[i])];
      ThreadsCost(s', open', rest)
      <= ThreadsCost(s, Open(s), rest) + if settles then 4 * |s.threads| else 0
  {
    var rest := s.threads[i := Below(s.threads[i])];
    hide Open;
    if settles {
      forall j | 0 <= j < |rest|
        ensures StackOk(rest[j], false) || StackOk(rest[j], true)
      {
        assert ThreadOk(s, j, s.threads[j]);
        if j == i { ShorterOk(s.threads[i], i < s.workers); }
      }
      hide Shape, StackOk;
      MoreRounds(s, s', Open(s), open', rest);
    } else {
      hide Shape;
      ThreadsCostFalls(s, s', Open(s), open', rest);
    }
  }

  lemma ShorterOk(st: seq<Frame>, worker: bool)
    requires st != [] && StackOk(st, worker)
    ensures StackOk(Below(st), false) || StackOk(Below(st), true)
  {
    if |st| == 1 {
      assert StackOk(Below(st), false);
    } else {
      assert Below(st)[0] == st[0];
      assert StackOk(Below(st), worker);
    }
  }

  lemma NotifyAllSpends(s: State, i: nat)
    requires Can(s, Go(i)) && Active(s.threads[i]).NotifyAll?
    ensures Work(Next(s, Go(i))) < Work(s)
  {
    var st, f := s.threads[i], Active(s.threads[i]);
    var s' := Next(s, Go(i));
    TasksSpend(s, Go(i));
    SharedFalls(s, i);
    var woken := WakeWaiters(s.threads, f.k);
    assert s'.threads == woken[i := Below(woken[i]) + []] && woken[i] == st && s'.lock == s.lock;
    assert LockCost(s') == LockCost(s) && EventOf(s, Go(i)) == Silent;
    hide Next, Can, Open, TaskCost, LockCost, EventOf, WakeWaiters;
    ThreadsCostFalls(s, s', Open(s), Open(s'), s.threads);
    WokenCost(s', Open(s'), s.threads, f.k);
    TopCost(s', Open(s'), woken, i, []);
  }

  lemma GoSpends(s: State, i: nat)
    requires Shape(s) && SweepInv(s) && Can(s, Go(i)) && !Active(s.threads[i]).NotifyAll?
    ensures Work(Next(s, Go(i))) < Work(s)
  {
    var st, f := s.threads[i], Active(s.threads[i]);
    var s' := Next(s, Go(i));
    TasksSpend(s, Go(i));
    SharedFalls(s, i);
    FramePays(s, s', i, f, Open(s'));
    assert s'.threads == s.threads[i := Below(st) + Frames(s, i, f)] by { hide Frames, Shared; }
    assert LockCost(s') == LockCost(Shared(s, i, f)) && EventOf(s, Go(i)) == FrameEvent(s, i, f) by {
      hide Frames, Shared, FrameEvent;
    }
    hide Next, Can, Open, TaskCost, LockCost, EventOf, Frames, Shared, FrameEvent, FrameCost, SweepInv, Spent, Shape;
    RestFalls(s, s', i, Open(s'), Settles(FrameEvent(s, i, f)));
    TopCost(s, Open(s), s.threads, i, []);
    TopCost(s', Open(s'), s.threads, i, Frames(s, i, f));
  }

  lemma WakeWorkerSpends(s: State, i: nat, w: nat)
    requires Can(s, WakeWorker(i, w))
    ensures Work(Next(s, WakeWorker(i, w))) < Work(s)
  {
    var s' := Next(s, WakeWorker(i, w));
    TasksSpend(s, WakeWorker(i, w));
    var once := s.threads[i := Below(s.threads[i])];
    assert s'.threads == once[w := [Want]] && once[w] == [Asleep];
    assert EventOf(s, WakeWorker(i, w)) == Silent && LockCost(s') == LockCost(s) && SameLoads(s, s') && Falls(s, s');
    var f := Active(s.threads[i]);
    assert f == NotifyOne;
    hide Next, Can, Open, TaskCost, LockCost, EventOf;
    ThreadsCostFalls(s, s', Open(s), Open(s'), s.threads);
    TopCost(s', Open(s'), s.threads, i, []);
    ThreadsCostUpdate(s', Open(s'), once, w, [Want]);
    ShortCosts(s', Open(s'), Want, Want);
    ShortCosts(s', Open(s'), Asleep, Asleep);
  }

  /** A step that no new call and no unasked wake-up causes leaves less work than there was. */
  lemma StepSpends(s: State, a: Action)
    requires Shape(s) && SweepInv(s) && Can(s, a) && ByItself(a)
    ensures Work(Next(s, a)) < Work(s)
  {
    if a.WakeWorker? {
      WakeWorkerSpends(s, a.i, a.w);
    } else if Active(s.threads[a.i]).NotifyAll? {
      NotifyAllSpends(s, a.i);
    } else {
      GoSpends(s, a.i);
    }
  }

  // ---- All threads come to a stop ----

  /** From `m` on nobody makes a new call, wakes up unasked, or requests a stop. */
  predicate QuietFrom(actions: seq<Action>, m: nat) {
    forall n :: m <= n < |actions| ==> ByItself(actions[n])
  }

  lemma ReachableWork(states: seq<State>, actions: seq<Action>, events: seq<Event>, n: nat)
    requires Run(states, actions, events) && n <= |events|
    ensures Shape(states[n]) && SweepInv(states[n]) && Work(states[n]) >= 0
  {
    NoLostWakeups(states, actions, events, n);
    RunSweepInv(states, actions, events, n);
    hide Run;
    WorkIsLeft(states[n]);
  }

  /** However it goes on by itself, it goes on for no more steps than there was work. */
  lemma {:induction false} QuietStretchEnds(states: seq<State>, actions: seq<Action>, events: seq<Event>,
                                            m: nat, n: nat)
    requires Run(states, actions, events) && m <= n <= |events| && QuietFrom(actions, m)
    ensures n - m + Work(states[n]) <= Work(states[m])
    decreases n
  {
    hide Next, Can, Work, Shape, SweepInv, EventOf;
    if m < n {
      QuietStretchEnds(states, actions, events, m, n - 1);
      RunStep(states, actions, events, n - 1);
      ReachableWork(states, actions, events, n - 1);
      hide Run;
      StepSpends(states[n - 1], actions[n - 1]);
    }
  }

  lemma OneMoreStep(states: seq<State>, actions: seq<Action>, events: seq<Event>, a: Action)
    requires Run(states, actions, events) && Can(states[|events|], a)
    ensures var s := states[|events|];
      Run(states + [Next(s, a)], actions + [a], events + [EventOf(s, a)])
  {
    hide Can, Next, EventOf, Init;
    var s := states[|events|];
    var states' := states + [Next(s, a)];
    assert forall n :: 0 <= n < |states| ==> states'[n] == states[n];
  }

  lemma StepOfItsOwn(s: State) returns (a: Action)
    requires !Stuck(s)
    ensures ByItself(a) && Can(s, a)
  {
    if i :| 0 <= i < |s.threads| && Can(s, Go(i)) {
      a := Go(i);
    } else {
      var i, w :| 0 <= i < |s.threads| && 0 <= w < |s.threads| && Can(s, WakeWorker(i, w));
      a := WakeWorker(i, w);
    }
  }

  /** Every run can be continued by itself until no thread can go on. */
  lemma {:induction false} RunToStop(states: seq<State>, actions: seq<Action>, events: seq<Event>)
      returns (states': seq<State>, actions': seq<Action>, events': seq<Event>)
    requires Run(states, actions, events)
    ensures Run(states', actions', events') && Stuck(states'[|events'|])
    ensures states <= states' && actions <= actions' && events <= events' && QuietFrom(actions', |actions|)
    decreases Work(states[|events|])
  {
    var s := states[|events|];
    ReachableWork(states, actions, events, |events|);
    if Stuck(s) {
      states', actions', events' := states, actions, events;
    } else {
      var a := StepOfItsOwn(s);
      OneMoreStep(states, actions, events, a);
      StepSpends(s, a);
      hide Run, Next, Can, Work, Shape, SweepInv, EventOf, Stuck;
      states', actions', events' := RunToStop(states + [Next(s, a)], actions + [a], events + [EventOf(s, a)]);
      assert actions' [|actions|] == a;
    }
  }

  lemma QuietKeepsSettings(s: State, a: Action)
    requires Can(s, a) && ByItself(a)
    ensures Next(s, a).stops == s.stops && Next(s, a).workers == s.workers
  {
    hide Frames;
    if a.Go? { hide Shared; }
  }

  lemma {:induction false} QuietRunKeepsSettings(states: seq<State>, actions: seq<Action>, events: seq<Event>,
                                                 m: nat, n: nat)
    requires Run(states, actions, events) && m <= n <= |events| && QuietFrom(actions, m)
    ensures states[n].stops == states[m].stops && states[n].workers == states[m].workers
    decreases n
  {
    if m < n {
      QuietRunKeepsSettings(states, actions, events, m, n - 1);
      RunStep(states, actions, events, n - 1);
      hide Run, Next, Can, EventOf;
      QuietKeepsSettings(states[n - 1], actions[n - 1]);
    }
  }

  lemma QuietAddsNoWaits(states: seq<State>, actions: seq<Action>, states': seq<State>, actions': seq<Action>)
    requires |states| == |actions| + 1 && |states'| == |actions'| + 1
    requires states <= states' && actions <= actions' && QuietFrom(actions', |actions|)
    ensures WaitingTasks(states', actions') == WaitingTasks(states, actions)
  {
    hide CallsFromTask;
    forall t | t in WaitingTasks(states', actions')
      ensures t in WaitingTasks(states, actions)
    {
      var n :| 0 <= n < |actions'| && actions'[n].Wait? && CallsFromTask(states'[n], actions'[n].i)
        && CallerTask(states'[n], actions'[n].i) == t;
      assert actions'[n] == actions[n] && states'[n] == states[n];
    }
    forall t | t in WaitingTasks(states, actions)
      ensures t in WaitingTasks(states', actions')
    {
      var n :| 0 <= n < |actions| && actions[n].Wait? && CallsFromTask(states[n], actions[n].i)
        && CallerTask(states[n], actions[n].i) == t;
      assert actions'[n] == actions[n] && states'[n] == states[n];
    }
  }

  /**
   When task bodies never wait and no stop has been requested, the scheduler finishes by itself
   from every reachable state, within the steps its work allows: every task announced is settled,
   every wait returns, every worker sleeps.
   */
  lemma FinishesByItself(states: seq<State>, actions: seq<Action>, events: seq<Event>)
      returns (states': seq<State>, actions': seq<Action>, events': seq<Event>)
    requires Run(states, actions, events) && WaitingTasks(states, actions) == {}
    requires states[|events|].stops == {} && states[|events|].workers > 0
    ensures Run(states', actions', events') && states <= states' && actions <= actions' && events <= events'
    ensures QuietFrom(actions', |actions|) && |actions'| - |actions| <= Work(states[|events|])
    ensures AtRest(states'[|events'|]) && AllZero(states'[|events'|])
  {
    states', actions', events' := RunToStop(states, actions, events);
    var m, n := |events|, |events'|;
    assert states'[m] == states[m];
    QuietStretchEnds(states', actions', events', m, n);
    ReachableWork(states', actions', events', n);
    QuietRunKeepsSettings(states', actions', events', m, n);
    QuietAddsNoWaits(states, actions, states', actions');
    hide Stuck, WaitingTasks, Work, Shape, SweepInv;
    EverythingIsDoneInTheEnd(states', actions', events', n);
  }
}
