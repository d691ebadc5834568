/** No notification is lost; what it means when no thread can go on. */
module SchedulerWakeups {
  import opened Wrappers
  import opened Scheduler

  datatype Family = WorkerFrame | TaskFrame | SubmitFrame | WaitFrame | CancelFrame

  function FamilyOf(f: Frame): Family {
    match f
    case Top => WorkerFrame
    case Want => WorkerFrame
    case Asleep => WorkerFrame
    case Exited => WorkerFrame
    case Submitting(_) => SubmitFrame
    case NotifyOne => SubmitFrame
    case CancelWant(_) => CancelFrame
    case Sweeping => CancelFrame
    case Popped(_) => TaskFrame
    case Running(_) => TaskFrame
    case Finished(_) => TaskFrame
    case NotifyAll(_) => TaskFrame
    case _ => WaitFrame
  }

  /** Which frame may stand directly on which. */
  predicate MayHold(f: Frame, g: Frame) {
    match f
    case Top => FamilyOf(g) == TaskFrame
    case WaitTop(_) => FamilyOf(g) == TaskFrame
    case Running(_) => FamilyOf(g) != TaskFrame && FamilyOf(g) != WorkerFrame
    case Sweeping => g.NotifyAll?
    case _ => false
  }

  predicate StackOk(st: seq<Frame>, worker: bool) {
    && (worker ==> st != [])
    && (forall j :: 0 <= j < |st| ==> (FamilyOf(st[j]) == WorkerFrame <==> worker && j == 0))
    && (forall j :: 0 <= j < |st| - 1 ==> MayHold(st[j], st[j + 1]))
  }

  /** The sweep of a cancellation is under way in this stack. */
  predicate Sweeps(st: seq<Frame>) {
    Sweeping in st
  }

  /** Thread `i` is well stacked, sweeps exactly while it holds the mutex, and left only when told to. */
  predicate ThreadOk(s: State, i: nat, st: seq<Frame>) {
    && StackOk(st, i < s.workers)
    && (Sweeps(st) <==> s.lock.Some? && s.lock.value.owner == i)
    && (Exited in st ==> i in s.stops)
  }

  predicate Shape(s: State) {
    && s.workers <= |s.threads|
    && (forall i :: 0 <= i < |s.threads| ==> ThreadOk(s, i, s.threads[i]))
    && (s.lock.Some? ==> s.lock.value.owner < |s.threads|)
  }

  // ---- The shape of the stacks stays as it is ----

  predicate Replaces(f: Frame, top: seq<Frame>) {
    && |top| <= 2
    && (top == [] ==> FamilyOf(f) != WorkerFrame)
    && (|top| > 0 ==> FamilyOf(top[0]) == FamilyOf(f))
    && (|top| > 1 ==> MayHold(top[0], top[1]) && !top[0].Running? && FamilyOf(top[1]) != WorkerFrame)
  }

  lemma ReplaceTop(st: seq<Frame>, top: seq<Frame>, worker: bool)
    requires st != [] && StackOk(st, worker) && Replaces(Active(st), top)
    requires Active(st).NotifyAll? ==> top == []
    ensures StackOk(Below(st) + top, worker)
  {
    var st' := Below(st) + top;
    var n := |st| - 1;
    assert forall j :: 0 <= j < n ==> st'[j] == st[j];
    assert forall j :: 0 <= j < |top| ==> st'[n + j] == top[j];
    forall j | 0 <= j < |st'| - 1
      ensures MayHold(st'[j], st'[j + 1])
    {
      if j < n - 1 {
        assert MayHold(st[j], st[j + 1]);
      } else if j == n - 1 {
        assert MayHold(st[j], st[j + 1]);
        assert st'[j + 1] == top[0];
      }
    }
  }

  lemma FramesReplace(s: State, i: nat, f: Frame)
    requires FrameCanGo(s, i, f)
    ensures Replaces(f, Frames(s, i, f))
    ensures f.NotifyAll? ==> Frames(s, i, f) == []
    ensures Sweeping in Frames(s, i, f) <==> f.CancelWant? || (f.Sweeping? && Shared(s, i, f).lock.Some?)
    ensures Exited in Frames(s, i, f) ==> i in s.stops
  {
  }

  lemma SweepOnTop(st: seq<Frame>, worker: bool)
    requires st != [] && StackOk(st, worker) && Sweeping in Below(st)
    ensures Active(st).NotifyAll?
  {
    var j :| 0 <= j < |st| - 1 && st[j] == Sweeping;
    assert MayHold(st[j], st[j + 1]);
    assert j + 1 < |st| - 1 ==> MayHold(st[j + 1], st[j + 2]);
  }

  lemma InTwoParts(st: seq<Frame>, top: seq<Frame>, f: Frame)
    requires st != []
    ensures f in st <==> f in Below(st) || f == Active(st)
    ensures f in Below(st) + top <==> f in Below(st) || f in top
  {
    assert st == Below(st) + [Active(st)];
  }

  lemma GoShape(s: State, i: nat)
    requires Shape(s) && Can(s, Go(i))
    ensures var f := Active(s.threads[i]);
      ThreadOk(Shared(s, i, f), i, Below(s.threads[i]) + Frames(s, i, f))
  {
    hide StackOk, Frames;
    var st, f := s.threads[i], Active(s.threads[i]);
    assert ThreadOk(s, i, st);
    FramesReplace(s, i, f);
    ReplaceTop(st, Frames(s, i, f), i < s.workers);
    InTwoParts(st, Frames(s, i, f), Sweeping);
    InTwoParts(st, Frames(s, i, f), Exited);
    if Sweeping in Below(st) { SweepOnTop(st, i < s.workers); }
    SharedLock(s, i, f);
    hide Shared, FrameCanGo, Replaces;
  }

  lemma SharedLock(s: State, i: nat, f: Frame)
    requires FrameCanGo(s, i, f)
    ensures f.CancelWant? ==> s.lock == None && Shared(s, i, f).lock.Some? && Shared(s, i, f).lock.value.owner == i
    ensures f.Sweeping? ==> s.lock.Some? && s.lock.value.owner == i
    ensures f.Sweeping? && Shared(s, i, f).lock.Some? ==> Shared(s, i, f).lock.value.owner == i
    ensures !f.CancelWant? && !f.Sweeping? ==> Shared(s, i, f).lock == s.lock
  {
  }

  lemma WokenOk(s: State, i: nat, st: seq<Frame>, k: nat)
    requires ThreadOk(s, i, st)
    ensures ThreadOk(s, i, WokenStack(st, k))
  {
    if st != [] && Active(st).WaitAsleep? && Active(st).k == k {
      var top := [WaitBlock(k, Active(st).v)];
      ReplaceTop(st, top, i < s.workers);
      InTwoParts(st, top, Sweeping);
      InTwoParts(st, top, Exited);
    }
  }

  /** Another thread is untouched, or woken. */
  lemma OtherOk(s: State, g: nat, i: nat)
    requires Shape(s) && Can(s, Go(g)) && i < |s.threads| && i != g
    ensures ThreadOk(Next(s, Go(g)), i, Next(s, Go(g)).threads[i])
  {
    var f := Active(s.threads[g]);
    assert ThreadOk(s, i, s.threads[i]);
    SharedLock(s, g, f);
    hide StackOk, Frames, Sweeps;
    if f.NotifyAll? { WokenOk(s, i, s.threads[i], f.k); } else { hide Shared; }
  }

  /** A stack whose top changes without touching the mutex. */
  lemma TopOk(s: State, i: nat, st: seq<Frame>, top: seq<Frame>)
    requires st != [] && ThreadOk(s, i, st) && Replaces(Active(st), top) && (Active(st).NotifyAll? ==> top == [])
    requires Sweeping !in top && Exited !in top && !Active(st).Sweeping?
    ensures ThreadOk(s, i, Below(st) + top)
  {
    ReplaceTop(st, top, i < s.workers);
    InTwoParts(st, top, Sweeping);
    InTwoParts(st, top, Exited);
  }

  lemma CallOk(s: State, i: nat, st: seq<Frame>, f: Frame)
    requires ThreadOk(s, i, st) && MayCall(st)
    requires FamilyOf(f) != WorkerFrame && FamilyOf(f) != TaskFrame && !f.Sweeping?
    ensures ThreadOk(s, i, st + [f])
  {
    assert forall j :: 0 <= j < |st| ==> (st + [f])[j] == st[j];
    assert forall g :: g in st + [f] <==> g in st || g == f;
  }

  lemma StepShape(s: State, a: Action)
    requires Shape(s) && Can(s, a)
    ensures Shape(Next(s, a))
  {
    var s' := Next(s, a);
    if a.Go? {
      GoShapeAll(s, a.i);
    } else {
      forall i | 0 <= i < |s.threads|
        ensures ThreadOk(s', i, s'.threads[i])
      {
        assert ThreadOk(s, i, s.threads[i]);
        CallShape(s, a, i);
      }
    }
  }

  lemma GoShapeAll(s: State, g: nat)
    requires Shape(s) && Can(s, Go(g))
    ensures Shape(Next(s, Go(g)))
  {
    var f := Active(s.threads[g]);
    GoShape(s, g);
    SharedLock(s, g, f);
    forall i | 0 <= i < |s.threads| && i != g
      ensures ThreadOk(Next(s, Go(g)), i, Next(s, Go(g)).threads[i])
    {
      OtherOk(s, g, i);
    }
    hide Shared, Frames, StackOk, Sweeps, FrameCanGo;
  }

  lemma CallShape(s: State, a: Action, i: nat)
    requires Can(s, a) && !a.Go? && i < |s.threads| && ThreadOk(s, i, s.threads[i])
    ensures ThreadOk(Next(s, a), i, Next(s, a).threads[i])
  {
    hide StackOk;
    match a {
      case Submit(g, tag, k, high) => if i == g { CallOk(s, i, s.threads[i], Submitting(NewTask(s, tag, k, high))); }
      case Cancel(g, tag) => if i == g { CallOk(s, i, s.threads[i], CancelWant(tag)); }
      case Wait(g, k) => if i == g { CallOk(s, i, s.threads[i], WaitTop(k)); }
      case Spurious(g) => if i == g { TopOk(s, i, s.threads[i], [Woken(Active(s.threads[i]))]); }
      case WakeWorker(g, w) =>
        if i == g {
          TopOk(s, i, s.threads[i], []);
          assert Below(s.threads[i]) + [] == Below(s.threads[i]);
        } else if i == w {
          TopOk(s, i, s.threads[i], [Want]);
          assert Below(s.threads[i]) + [Want] == [Want];
        }
      case _ =>
    }
  }

  // ---- No notification is lost ----

  predicate TopIs(st: seq<Frame>, f: Frame) {
    st != [] && Active(st) == f
  }

  predicate Someone(s: State, f: Frame) {
    exists j :: 0 <= j < |s.threads| && TopIs(s.threads[j], f)
  }

  /** Whoever blocks on counter `k` need not: it is positive, or somebody is about to notify. */
  predicate Heard(s: State, k: nat) {
    Load(s, k) > 0 || Someone(s, NotifyAll(k))
  }

  predicate WaitersHeard(s: State) {
    forall i :: 0 <= i < |s.threads| && s.threads[i] != [] && Active(s.threads[i]).WaitAsleep?
      ==> Heard(s, Active(s.threads[i]).k)
  }

  /** A thread that is about to look at the queues, or to make a sleeping worker look. */
  predicate WillLook(f: Frame) {
    f.NotifyOne? || f.Top? || f.Want?
  }

  function DueOf(st: seq<Frame>): nat {
    if st != [] && WillLook(Active(st)) then 1 else 0
  }

  function Due(threads: seq<seq<Frame>>): nat {
    if threads == [] then 0 else Due(threads[..|threads| - 1]) + DueOf(threads[|threads| - 1])
  }

  predicate SomeWorkerSleeps(s: State) {
    exists w :: 0 <= w < |s.threads| && SleepingWorker(s, w)
  }

  /** While some worker sleeps, every queued task has a look at the queues of its own still to come. */
  predicate WorkersHeard(s: State) {
    s.stops == {} && SomeWorkerSleeps(s) ==> |s.high| + |s.normal| <= Due(s.threads)
  }

  predicate Sleeps(f: Frame) {
    f.Asleep? || f.WaitAsleep?
  }

  /** A frame that sleeps is never uncovered: only a step of its own thread puts it on top. */
  lemma TopAfter(st: seq<Frame>, top: seq<Frame>, worker: bool)
    requires st != [] && StackOk(st, worker)
    ensures top != [] ==> Active(Below(st) + top) == Active(top)
    ensures top == [] && Below(st) + top != [] ==> !Sleeps(Active(Below(st) + top))
  {
    if top == [] && |st| > 1 {
      assert Below(st) + top == Below(st);
      assert MayHold(st[|st| - 2], st[|st| - 1]);
    }
  }

  /** What a step of frame `f` does to counter `k`, and the debt it takes on when it reaches zero. */
  lemma CounterDebt(s: State, i: nat, f: Frame, k: nat)
    requires FrameCanGo(s, i, f) && Load(s, k) > 0
    ensures Load(Shared(s, i, f), k) > 0 || (Frames(s, i, f) != [] && Active(Frames(s, i, f)) == NotifyAll(k))
  {
  }

  lemma NewSleeper(s: State, i: nat, f: Frame, k: nat, v: positive)
    requires FrameCanGo(s, i, f) && Frames(s, i, f) != [] && Active(Frames(s, i, f)) == WaitAsleep(k, v)
    ensures Load(Shared(s, i, f), k) > 0
  {
  }

  lemma GoKeepsHeard(s: State, g: nat, k: nat)
    requires Shape(s) && Can(s, Go(g)) && Heard(s, k) && Active(s.threads[g]) != NotifyAll(k)
    ensures Heard(Next(s, Go(g)), k)
  {
    var f := Active(s.threads[g]);
    var s' := Next(s, Go(g));
    if Load(s, k) > 0 {
      CounterDebt(s, g, f, k);
      hide Shared, Frames, FrameCanGo;
      assert Load(s', k) == Load(Shared(s, g, f), k);
      assert TopIs(s'.threads[g], NotifyAll(k)) || Load(s', k) > 0;
    } else {
      var j :| 0 <= j < |s.threads| && TopIs(s.threads[j], NotifyAll(k));
      NotifierStays(s, g, j, k);
      assert TopIs(s'.threads[j], NotifyAll(k));
    }
  }

  lemma NotifierStays(s: State, g: nat, j: nat, k: nat)
    requires Can(s, Go(g)) && j < |s.threads| && j != g && TopIs(s.threads[j], NotifyAll(k))
    ensures Next(s, Go(g)).threads[j] == s.threads[j]
  {
    hide Frames;
    if !Active(s.threads[g]).NotifyAll? { hide Shared; }
  }

  /** A thread asleep after a step of thread `g` was asleep before, or has just seen a positive counter. */
  lemma SleeperBefore(s: State, g: nat, i: nat, k: nat, v: positive)
    requires Shape(s) && Can(s, Go(g)) && i < |s.threads| && TopIs(Next(s, Go(g)).threads[i], WaitAsleep(k, v))
    ensures (i == g && Load(Next(s, Go(g)), k) > 0)
         || (i != g && s.threads[i] == Next(s, Go(g)).threads[i] && Active(s.threads[g]) != NotifyAll(k))
  {
    var st, f := s.threads[g], Active(s.threads[g]);
    if i == g {
      assert ThreadOk(s, g, st);
      TopAfter(st, Frames(s, g, f), g < s.workers);
      if Frames(s, g, f) != [] {
        NewSleeper(s, g, f, k, v);
        hide Shared, Frames;
      }
    } else {
      hide Frames;
      if !f.NotifyAll? { hide Shared; }
    }
  }

  lemma GoKeepsWaitersHeard(s: State, g: nat)
    requires Shape(s) && Can(s, Go(g)) && WaitersHeard(s)
    ensures WaitersHeard(Next(s, Go(g)))
  {
    var s' := Next(s, Go(g));
    forall i | 0 <= i < |s'.threads| && s'.threads[i] != [] && Active(s'.threads[i]).WaitAsleep?
      ensures Heard(s', Active(s'.threads[i]).k)
    {
      var k, v := Active(s'.threads[i]).k, Active(s'.threads[i]).v;
      SleeperBefore(s, g, i, k, v);
      hide Next, Shape;
      if i != g { GoKeepsHeard(s, g, k); }
    }
  }

  lemma CallKeepsHeard(s: State, a: Action, k: nat)
    requires Can(s, a) && !a.Go? && Heard(s, k)
    ensures Heard(Next(s, a), k)
  {
    if Load(s, k) > 0 {
      assert Load(Next(s, a), k) > 0;
    } else {
      var j :| 0 <= j < |s.threads| && TopIs(s.threads[j], NotifyAll(k));
      assert TopIs(Next(s, a).threads[j], NotifyAll(k));
    }
  }

  lemma CallSleeperBefore(s: State, a: Action, i: nat)
    requires Shape(s) && Can(s, a) && !a.Go? && i < |s.threads|
    requires Next(s, a).threads[i] != [] && Active(Next(s, a).threads[i]).WaitAsleep?
    ensures s.threads[i] == Next(s, a).threads[i]
  {
    assert ThreadOk(s, i, s.threads[i]);
    if a.WakeWorker? && a.i == i {
      assert Below(s.threads[i]) + [] == Below(s.threads[i]);
      TopAfter(s.threads[i], [], i < s.workers);
    }
  }

  lemma StepKeepsWaitersHeard(s: State, a: Action)
    requires Shape(s) && Can(s, a) && WaitersHeard(s)
    ensures WaitersHeard(Next(s, a))
  {
    if a.Go? {
      GoKeepsWaitersHeard(s, a.i);
    } else {
      var s' := Next(s, a);
      forall i | 0 <= i < |s'.threads| && s'.threads[i] != [] && Active(s'.threads[i]).WaitAsleep?
        ensures Heard(s', Active(s'.threads[i]).k)
      {
        CallSleeperBefore(s, a, i);
        CallKeepsHeard(s, a, Active(s'.threads[i]).k);
      }
    }
  }

  // ---- Workers ----

  lemma {:induction false} DueUpdate(threads: seq<seq<Frame>>, i: nat, st: seq<Frame>)
    requires i < |threads|
    ensures Due(threads[i := st]) == Due(threads) - DueOf(threads[i]) + DueOf(st)
  {
    var n := |threads| - 1;
    if i == n {
      assert threads[i := st][..n] == threads[..n];
    } else {
      assert threads[i := st][..n] == threads[..n][i := st];
      DueUpdate(threads[..n], i, st);
    }
  }

  lemma {:induction false} DueWoken(threads: seq<seq<Frame>>, k: nat)
    ensures Due(WakeWaiters(threads, k)) == Due(threads)
  {
    if threads != [] {
      var n := |threads| - 1;
      DueWoken(threads[..n], k);
      assert WakeWaiters(threads, k)[..n] == WakeWaiters(threads[..n], k);
    }
  }

  lemma SharedDue(s: State, g: nat)
    requires Can(s, Go(g))
    ensures var s' := Shared(s, g, Active(s.threads[g]));
      Due(s'.threads) == Due(s.threads) && s'.threads[g] == s.threads[g]
  {
    hide Due;
    var f := Active(s.threads[g]);
    if f.NotifyAll? { DueWoken(s.threads, f.k); } else { hide Shared; }
  }

  function Size(s: State): nat { |s.high| + |s.normal| }

  lemma QueueSizes(s: State, sw: Sweep)
    ensures Ready(s) ==> Size(PopNext(s)) == Size(s) - 1
    ensures forall t :: Size(Append(s, t)) == Size(s) + 1
    ensures Size(SweepRound(s, sw)) <= Size(s)
  {
  }

  /** A step pays for the task it queues, and uses up its own look only to take one or to find none. */
  lemma FrameDue(s: State, i: nat, f: Frame)
    requires FrameCanGo(s, i, f) && s.stops == {} && !f.NotifyOne? && (f.Want? ==> Ready(s))
    ensures Size(Shared(s, i, f)) + DueOf([f]) <= Size(s) + DueOf(Frames(s, i, f))
  {
    hide Size, PopNext, Append, SweepRound, NextTask, SweepHits, Owed, Load;
    match f {
      case Want => QueueSizes(s, Sweep(0, 0, true, 0, [], []));
      case WaitTryPop(_) => QueueSizes(s, Sweep(0, 0, true, 0, [], []));
      case Submitting(_) => QueueSizes(s, Sweep(0, 0, true, 0, [], []));
      case Sweeping => QueueSizes(s, s.lock.value);
      case _ => OtherDue(s, i, f);
    }
  }

  lemma OtherDue(s: State, i: nat, f: Frame)
    requires FrameCanGo(s, i, f) && s.stops == {}
    requires !f.NotifyOne? && !f.Want? && !f.WaitTryPop? && !f.Submitting? && !f.Sweeping?
    ensures Size(Shared(s, i, f)) == Size(s) && DueOf([f]) <= DueOf(Frames(s, i, f))
  {
    hide Load, Owed;
  }

  lemma DueOfTop(below: seq<Frame>, top: seq<Frame>)
    ensures DueOf(below + top) >= DueOf(top)
    ensures top != [] ==> DueOf(below + top) == DueOf(top)
  {
    if top != [] { assert Active(below + top) == Active(top); }
  }

  lemma GoKeepsDue(s: State, g: nat)
    requires Can(s, Go(g)) && s.stops == {} && Size(s) <= Due(s.threads)
    requires !Active(s.threads[g]).NotifyOne? && (Active(s.threads[g]).Want? ==> Ready(s))
    ensures Size(Next(s, Go(g))) <= Due(Next(s, Go(g)).threads)
  {
    var st, f := s.threads[g], Active(s.threads[g]);
    FrameDue(s, g, f);
    SharedDue(s, g);
    DueUpdate(Shared(s, g, f).threads, g, Below(st) + Frames(s, g, f));
    DueOfTop(Below(st), Frames(s, g, f));
    DueOfTop(Below(st), [f]);
    assert st == Below(st) + [f];
    hide Shared, Frames, FrameCanGo, DueOf, Due;
  }

  /** A worker asleep after a step slept before, unless it has just found both queues empty. */
  lemma WorkerSleptBefore(s: State, g: nat, w: nat)
    requires Shape(s) && Can(s, Go(g)) && SleepingWorker(Next(s, Go(g)), w)
    ensures w != g ==> SleepingWorker(s, w)
    ensures w == g ==> Active(s.threads[g]).Want? && !Ready(s)
  {
    var st, f := s.threads[g], Active(s.threads[g]);
    assert ThreadOk(s, g, st);
    if w == g {
      var top := Frames(s, g, f);
      TopAfter(st, top, g < s.workers);
      if top != [] {
        OnlyWantSleeps(s, g, f);
      }
    } else {
      hide Frames;
      if !f.NotifyAll? { hide Shared; }
    }
  }

  lemma OnlyWantSleeps(s: State, i: nat, f: Frame)
    requires FrameCanGo(s, i, f) && Frames(s, i, f) != [] && Active(Frames(s, i, f)) == Asleep
    ensures f.Want? && !Ready(s)
  {
  }

  lemma GoKeepsWorkersHeard(s: State, g: nat)
    requires Shape(s) && Can(s, Go(g)) && WorkersHeard(s)
    ensures WorkersHeard(Next(s, Go(g)))
  {
    var s' := Next(s, Go(g));
    var f := Active(s.threads[g]);
    if s'.stops == {} && SomeWorkerSleeps(s') {
      var w :| 0 <= w < |s'.threads| && SleepingWorker(s', w);
      WorkerSleptBefore(s, g, w);
      if f.Want? && !Ready(s) {
        assert Size(s') == 0;
      } else {
        assert SleepingWorker(s, w);
        hide Next, Shape, Due;
        GoKeepsDue(s, g);
      }
    }
  }

  lemma CallKeepsWorkersHeard(s: State, a: Action)
    requires Can(s, a) && !a.Go? && WorkersHeard(s)
    ensures WorkersHeard(Next(s, a))
  {
    var s' := Next(s, a);
    if s'.stops == {} && SomeWorkerSleeps(s') {
      var w :| 0 <= w < |s'.threads| && SleepingWorker(s', w);
      CallerSleptBefore(s, a, w);
      hide Due;
      match a {
        case Submit(i, tag, k, high) => DueUpdate(s.threads, i, s'.threads[i]);
        case Cancel(i, _) => DueUpdate(s.threads, i, s'.threads[i]);
        case Wait(i, _) => DueUpdate(s.threads, i, s'.threads[i]);
        case Spurious(i) => DueUpdate(s.threads, i, s'.threads[i]);
        case WakeWorker(i, v) =>
          DueUpdate(s.threads, i, Below(s.threads[i]));
          DueUpdate(s.threads[i := Below(s.threads[i])], v, [Want]);
        case RequestStop(_) =>
      }
    }
  }

  lemma CallerSleptBefore(s: State, a: Action, w: nat)
    requires Can(s, a) && !a.Go? && SleepingWorker(Next(s, a), w)
    ensures SomeWorkerSleeps(s)
  {
    if a.WakeWorker? {
      assert SleepingWorker(s, a.w);
    } else {
      assert Active(Next(s, a).threads[w]) == Asleep;
      assert SleepingWorker(s, w);
    }
  }

  lemma StepKeepsWorkersHeard(s: State, a: Action)
    requires Shape(s) && Can(s, a) && WorkersHeard(s)
    ensures WorkersHeard(Next(s, a))
  {
    if a.Go? { GoKeepsWorkersHeard(s, a.i); } else { CallKeepsWorkersHeard(s, a); }
  }

  predicate WakeInv(s: State) {
    Shape(s) && WaitersHeard(s) && WorkersHeard(s)
  }

  lemma InitWakeInv(s: State)
    requires Init(s)
    ensures WakeInv(s)
  {
  }

  /**
   In every reachable state no wake-up is lost: a thread blocked on a counter faces a positive
   counter or a `notify_all` still to come, and before any stop is requested a worker sleeps only
   while the queued tasks are no more than the threads about to look at the queues or to notify.
   */
  lemma {:induction false} NoLostWakeups(states: seq<State>, actions: seq<Action>, events: seq<Event>, n: nat)
    requires Run(states, actions, events) && n <= |events|
    ensures WakeInv(states[n])
  {
    hide Next, Can, EventOf, Shape, WaitersHeard, WorkersHeard;
    if n == 0 {
      InitWakeInv(states[0]);
    } else {
      RunStep(states, actions, events, n - 1);
      hide Run;
      NoLostWakeups(states, actions, events, n - 1);
      StepShape(states[n - 1], actions[n - 1]);
      StepKeepsWaitersHeard(states[n - 1], actions[n - 1]);
      StepKeepsWorkersHeard(states[n - 1], actions[n - 1]);
    }
  }

  lemma {:induction false} SomeoneDue(threads: seq<seq<Frame>>) returns (j: nat)
    requires Due(threads) > 0
    ensures j < |threads| && threads[j] != [] && WillLook(Active(threads[j]))
  {
    var n := |threads| - 1;
    if DueOf(threads[n]) > 0 { j := n; } else { j := SomeoneDue(threads[..n]); }
  }

  /** In particular, queued work with every worker asleep has a `notify_one` still to come. */
  lemma SomebodyNotifies(states: seq<State>, actions: seq<Action>, events: seq<Event>, n: nat)
    requires Run(states, actions, events) && n <= |events|
    requires Ready(states[n]) && states[n].stops == {} && states[n].workers > 0
    requires forall w :: 0 <= w < states[n].workers && w < |states[n].threads| ==> SleepingWorker(states[n], w)
    ensures Someone(states[n], NotifyOne)
  {
    NoLostWakeups(states, actions, events, n);
    hide Run;
    var s := states[n];
    assert SleepingWorker(s, 0);
    var j := SomeoneDue(s.threads);
    var st := s.threads[j];
    assert ThreadOk(s, j, st);
    assert j < s.workers ==> SleepingWorker(s, j);
    assert TopIs(st, NotifyOne);
  }
}
