/** In which order tasks leave the queues, and what a cancellation leaves in them. */
module SchedulerOrder {
  import opened Wrappers
  import opened Scheduler
  import opened SchedulerCounts
  import opened SchedulerTasks
  import opened TaggedQueues

  function Queue(s: State, high: bool): seq<Task> {
    if high then s.high else s.normal
  }

  function EnqueuedBy(log: seq<Event>, high: bool): seq<Task> {
    if log == [] then []
    else
      var e := log[|log| - 1];
      EnqueuedBy(log[..|log| - 1], high) + if e.Enqueued? && e.task.high == high then [e.task] else []
  }

  function TakenBy(log: seq<Event>, high: bool): seq<Task> {
    if log == [] then []
    else
      var e := log[|log| - 1];
      TakenBy(log[..|log| - 1], high) + if e.Taken? && e.task.high == high then [e.task] else []
  }

  /** `a` is `b` with some elements left out. */
  predicate IsSubsequence(a: seq<Task>, b: seq<Task>)
    decreases |b|
  {
    a == [] ||
    (b != [] &&
     ((a[|a| - 1] == b[|b| - 1] && IsSubsequence(a[..|a| - 1], b[..|b| - 1])) || IsSubsequence(a, b[..|b| - 1])))
  }

  lemma SubsequenceAppend(a: seq<Task>, b: seq<Task>, t: Task)
    requires IsSubsequence(a, b)
    ensures IsSubsequence(a + [t], b + [t])
  {
    assert (a + [t])[..|a|] == a && (b + [t])[..|b|] == b;
  }

  lemma RemoveBeforeLast(a: seq<Task>, p: nat)
    requires p < |a| - 1
    ensures RemoveAt(a, p) == RemoveAt(a[..|a| - 1], p) + [a[|a| - 1]]
  {
  }

  lemma {:induction false} SubsequenceRemove(a: seq<Task>, b: seq<Task>, p: nat)
    requires IsSubsequence(a, b) && p < |a|
    ensures IsSubsequence(RemoveAt(a, p), b)
    decreases |b|
  {
    var a', b' := a[..|a| - 1], b[..|b| - 1];
    if a[|a| - 1] == b[|b| - 1] && IsSubsequence(a', b') {
      if p == |a| - 1 {
        assert RemoveAt(a, p) == a';
      } else {
        SubsequenceRemove(a', b', p);
        RemoveBeforeLast(a, p);
        SubsequenceAppend(RemoveAt(a', p), b', a[|a| - 1]);
        assert b == b' + [b[|b| - 1]];
      }
    } else {
      SubsequenceRemove(a, b', p);
    }
  }

  // ---- What a step does to one queue ----

  predicate AllOf(q: seq<Task>, high: bool) {
    forall i :: 0 <= i < |q| ==> q[i].high == high
  }

  predicate Classed(s: State) {
    AllOf(s.high, true) && AllOf(s.normal, false)
  }

  predicate QueueEffect(q: seq<Task>, q': seq<Task>, high: bool, e: Event, p: nat) {
    match e
    case Enqueued(t) => q' == if t.high == high then q + [t] else q
    case Taken(t) => if t.high == high then q != [] && q[0] == t && q' == RemoveAt(q, 0) else q' == q
    case Cancelled(t) => if t.high == high then p < |q| && q[p] == t && q' == RemoveAt(q, p) else q' == q
    case _ => q' == q
  }

  lemma TakeEffect(s: State, high: bool)
    requires Classed(s) && Ready(s)
    ensures QueueEffect(Queue(s, high), Queue(PopNext(s), high), high, Taken(NextTask(s)), 0)
    ensures NextTask(s).high <==> s.high != []
  {
    assert Queue(s, true) == s.high && Queue(s, false) == s.normal;
  }

  lemma SweepEffect(s: State, sw: Sweep, high: bool)
    requires Classed(s)
    ensures SweepHits(s, sw) ==>
      QueueEffect(Queue(s, high), Queue(SweepRound(s, sw), high), high, Cancelled(SweptQueue(s, sw)[sw.at]), sw.at)
    ensures !SweepHits(s, sw) ==> Queue(SweepRound(s, sw), high) == Queue(s, high)
  {
    assert Queue(s, sw.inHigh) == SweptQueue(s, sw);
  }

  lemma FrameEffect(s: State, i: nat, f: Frame, high: bool) returns (p: nat)
    requires Classed(s) && FrameCanGo(s, i, f)
    ensures QueueEffect(Queue(s, high), Queue(Shared(s, i, f), high), high, FrameEvent(s, i, f), p)
    ensures FrameEvent(s, i, f).Taken? && !FrameEvent(s, i, f).task.high ==> s.high == []
  {
    hide Classed, Queue, PopNext, NextTask, SweepRound, SweepHits;
    p := 0;
    match f {
      case Want => if Ready(s) { TakeEffect(s, high); }
      case WaitTryPop(_) => if Ready(s) { TakeEffect(s, high); }
      case Sweeping =>
        p := s.lock.value.at;
        SweepEffect(s, s.lock.value, high);
      case _ => OtherEffect(s, i, f, high, p);
    }
  }

  lemma OtherEffect(s: State, i: nat, f: Frame, high: bool, p: nat)
    requires FrameCanGo(s, i, f) && !f.Want? && !f.WaitTryPop? && !f.Sweeping?
    ensures QueueEffect(Queue(s, high), Queue(Shared(s, i, f), high), high, FrameEvent(s, i, f), p)
    ensures !FrameEvent(s, i, f).Taken?
  {
  }

  lemma StepEffect(s: State, a: Action, high: bool) returns (p: nat)
    requires Classed(s) && Can(s, a)
    ensures QueueEffect(Queue(s, high), Queue(Next(s, a), high), high, EventOf(s, a), p)
    ensures EventOf(s, a).Taken? && !EventOf(s, a).task.high ==> s.high == []
  {
    hide Shared, Frames, FrameEvent, FrameCanGo, Classed;
    p := 0;
    if a.Go? {
      hide QueueEffect;
      p := FrameEffect(s, a.i, Active(s.threads[a.i]), high);
    }
  }

  lemma EffectStaysClassed(q: seq<Task>, q': seq<Task>, high: bool, e: Event, p: nat)
    requires AllOf(q, high) && QueueEffect(q, q', high, e, p)
    ensures AllOf(q', high)
  {
  }

  lemma StaysClassed(s: State, a: Action)
    requires Classed(s) && Can(s, a)
    ensures Classed(Next(s, a))
  {
    hide Next, Can, EventOf, AllOf, QueueEffect;
    var p := StepEffect(s, a, true);
    EffectStaysClassed(Queue(s, true), Queue(Next(s, a), true), true, EventOf(s, a), p);
    p := StepEffect(s, a, false);
    EffectStaysClassed(Queue(s, false), Queue(Next(s, a), false), false, EventOf(s, a), p);
  }

  // ---- First in, first out, high before normal ----

  predicate InOrder(s: State, log: seq<Event>, high: bool) {
    IsSubsequence(TakenBy(log, high) + Queue(s, high), EnqueuedBy(log, high))
  }

  lemma OneMore(log: seq<Event>, e: Event, high: bool)
    ensures TakenBy(log + [e], high)
         == if e.Taken? && e.task.high == high then TakenBy(log, high) + [e.task] else TakenBy(log, high)
    ensures EnqueuedBy(log + [e], high)
         == if e.Enqueued? && e.task.high == high then EnqueuedBy(log, high) + [e.task] else EnqueuedBy(log, high)
  {
    assert (log + [e])[..|log|] == log;
  }

  lemma StepKeepsOrder(q: seq<Task>, q': seq<Task>, log: seq<Event>, e: Event, high: bool, p: nat)
    requires IsSubsequence(TakenBy(log, high) + q, EnqueuedBy(log, high)) && QueueEffect(q, q', high, e, p)
    ensures IsSubsequence(TakenBy(log + [e], high) + q', EnqueuedBy(log + [e], high))
  {
    var taken, enqueued := TakenBy(log, high), EnqueuedBy(log, high);
    var taken', enqueued' := TakenBy(log + [e], high), EnqueuedBy(log + [e], high);
    OneMore(log, e, high);
    hide TakenBy, EnqueuedBy, IsSubsequence;
    if e.Enqueued? && e.task.high == high {
      SubsequenceAppend(taken + q, enqueued, e.task);
      assert taken + q' == taken + q + [e.task];
    } else if e.Taken? && e.task.high == high {
      assert taken' + q' == taken + q;
    } else if e.Cancelled? && e.task.high == high {
      SubsequenceRemove(taken + q, enqueued, |taken| + p);
      assert taken + q' == RemoveAt(taken + q, |taken| + p);
    }
  }

  lemma {:induction false} RunStaysClassed(states: seq<State>, actions: seq<Action>, events: seq<Event>, n: nat)
    requires Run(states, actions, events) && n <= |events|
    ensures Classed(states[n])
  {
    if n > 0 {
      RunStep(states, actions, events, n - 1);
      RunStaysClassed(states, actions, events, n - 1);
      hide Run, Next, Can, EventOf, Classed;
      StaysClassed(states[n - 1], actions[n - 1]);
    }
  }

  lemma NothingInOrder(s: State, high: bool)
    requires Init(s)
    ensures InOrder(s, [], high)
  {
  }

  /**
   At every moment of every run the tasks taken from a queue so far, followed by those still in
   it, are the tasks put into it, in the same order, less some that were cancelled.
   */
  lemma {:induction false} FirstInFirstOut(states: seq<State>, actions: seq<Action>, events: seq<Event>,
                                           n: nat, high: bool)
    requires Run(states, actions, events) && n <= |events|
    ensures InOrder(states[n], events[..n], high)
  {
    hide Next, Can, EventOf, Classed, Queue, QueueEffect, TakenBy, EnqueuedBy, IsSubsequence;
    if n == 0 {
      NothingInOrder(states[0], high);
    } else {
      RunStep(states, actions, events, n - 1);
      hide Run;
      RunStaysClassed(states, actions, events, n - 1);
      FirstInFirstOut(states, actions, events, n - 1, high);
      var p := StepEffect(states[n - 1], actions[n - 1], high);
      StepKeepsOrder(Queue(states[n - 1], high), Queue(states[n], high), events[..n - 1], events[n - 1], high, p);
    }
  }

  lemma {:induction false} ClassedQueue(q: seq<Task>, t: Task)
    requires forall i :: 0 <= i < |q| ==> q[i].high != t.high
    ensures InQueue(q, ByTask(t)) == 0
  {
    if q != [] { ClassedQueue(q[..|q| - 1], t); }
  }

  /** What left a queue was taken or cancelled; what did not is still in it. */
  lemma QueueHoldsTheRest(states: seq<State>, actions: seq<Action>, events: seq<Event>, n: nat, t: Task)
    requires Run(states, actions, events) && n <= |events|
    ensures Times(events[..n], Enqueued(t))
         == Times(events[..n], Taken(t)) + Times(events[..n], Cancelled(t))
            + InQueue(Queue(states[n], t.high), ByTask(t))
  {
    RunStaysClassed(states, actions, events, n);
    RunConserves(states, actions, events, n, ByTask(t), 1);
    RunConserves(states, actions, events, n, ByTask(t), 2);
    hide Run, Times, Crossed, InThreads, InQueue;
    TimesOfTask(events[..n], t);
    assert InThreads(states[n].threads, ByTask(t), 1) == InThreads(states[n].threads, ByTask(t), 2) by {
      ThreadsSkipQueue(states[n].threads, ByTask(t));
    }
    assert Queue(states[n], true) == states[n].high && Queue(states[n], false) == states[n].normal;
    ClassedQueue(Queue(states[n], !t.high), t);
  }

  lemma {:induction false} StackSkipsQueue(st: seq<Frame>, key: Key)
    ensures InStack(st, key, 1) == InStack(st, key, 2)
  {
    if st != [] { StackSkipsQueue(st[..|st| - 1], key); }
  }

  lemma {:induction false} ThreadsSkipQueue(threads: seq<seq<Frame>>, key: Key)
    ensures InThreads(threads, key, 1) == InThreads(threads, key, 2)
  {
    if threads != [] {
      ThreadsSkipQueue(threads[..|threads| - 1], key);
      StackSkipsQueue(threads[|threads| - 1], key);
    }
  }

  lemma {:induction false} TakenTimes(log: seq<Event>, t: Task)
    ensures InQueue(TakenBy(log, t.high), ByTask(t)) == Times(log, Taken(t))
  {
    if log != [] {
      var before, e := log[..|log| - 1], log[|log| - 1];
      TakenTimes(before, t);
      if e.Taken? && e.task.high == t.high {
        QueueAppend(TakenBy(before, t.high), [e.task], ByTask(t));
        assert InQueue([e.task], ByTask(t)) == if e.task == t then 1 else 0;
      } else {
        assert TakenBy(before, t.high) + [] == TakenBy(before, t.high);
      }
    }
  }

  /** What `FirstInFirstOut` leaves out of the tasks put into a queue are exactly the cancelled ones. */
  lemma OnlyCancelledAreMissing(states: seq<State>, actions: seq<Action>, events: seq<Event>, n: nat, t: Task)
    requires Run(states, actions, events) && n <= |events|
    ensures InQueue(EnqueuedBy(events[..n], t.high), ByTask(t))
         == InQueue(TakenBy(events[..n], t.high) + Queue(states[n], t.high), ByTask(t))
            + Times(events[..n], Cancelled(t))
  {
    QueueHoldsTheRest(states, actions, events, n, t);
    hide Run, Times, TakenBy, EnqueuedBy, InQueue, Queue;
    EnqueuedTimes(events[..n], t);
    TakenTimes(events[..n], t);
    QueueAppend(TakenBy(events[..n], t.high), Queue(states[n], t.high), ByTask(t));
  }

  /** A normal task is taken only when every high task enqueued so far was taken or cancelled before. */
  lemma HighBeforeNormal(states: seq<State>, actions: seq<Action>, events: seq<Event>, n: nat, u: Task, t: Task)
    requires Run(states, actions, events) && n < |events| && events[n] == Taken(u) && !u.high && t.high
    ensures Times(events[..n], Enqueued(t)) == Times(events[..n], Taken(t)) + Times(events[..n], Cancelled(t))
  {
    RunStep(states, actions, events, n);
    RunStaysClassed(states, actions, events, n);
    QueueHoldsTheRest(states, actions, events, n, t);
    hide Run, Next, Can, EventOf, Times;
    var p := StepEffect(states[n], actions[n], true);
  }

  // ---- No overtaking ----

  /** `t` stands somewhere before `u`. */
  predicate Precedes(q: seq<Task>, t: Task, u: Task) {
    exists x, y :: 0 <= x < y < |q| && q[x] == t && q[y] == u
  }

  lemma PrecedesIn(q: seq<Task>, x: nat, y: nat)
    requires x < y < |q|
    ensures Precedes(q, q[x], q[y])
  {
  }

  /** Leaving elements out keeps the order of the others. */
  lemma {:induction false} SubsequencePrecedes(a: seq<Task>, b: seq<Task>, t: Task, u: Task)
    requires IsSubsequence(a, b) && Precedes(a, t, u)
    ensures Precedes(b, t, u)
    decreases |b|
  {
    var x, y :| 0 <= x < y < |a| && a[x] == t && a[y] == u;
    var a', b' := a[..|a| - 1], b[..|b| - 1];
    if a[|a| - 1] == b[|b| - 1] && IsSubsequence(a', b') {
      if y < |a| - 1 {
        assert a'[x] == t && a'[y] == u;
        SubsequencePrecedes(a', b', t, u);
        WiderPrecedes(b, t, u);
      } else {
        assert t in a' by { assert a'[x] == t; }
        SubsequenceIn(a', b', t);
        var z :| 0 <= z < |b'| && b'[z] == t;
        assert b[z] == t;
        PrecedesIn(b, z, |b| - 1);
      }
    } else {
      SubsequencePrecedes(a, b', t, u);
      WiderPrecedes(b, t, u);
    }
  }

  lemma WiderPrecedes(b: seq<Task>, t: Task, u: Task)
    requires b != [] && Precedes(b[..|b| - 1], t, u)
    ensures Precedes(b, t, u)
  {
    var b' := b[..|b| - 1];
    var x, y :| 0 <= x < y < |b'| && b'[x] == t && b'[y] == u;
    assert b[x] == t && b[y] == u;
  }

  lemma {:induction false} SubsequenceIn(a: seq<Task>, b: seq<Task>, t: Task)
    requires IsSubsequence(a, b) && t in a
    ensures t in b
    decreases |b|
  {
    var a', b' := a[..|a| - 1], b[..|b| - 1];
    assert a == a' + [a[|a| - 1]] && b == b' + [b[|b| - 1]];
    if a[|a| - 1] == b[|b| - 1] && IsSubsequence(a', b') {
      if t in a' { SubsequenceIn(a', b', t); }
    } else {
      SubsequenceIn(a, b', t);
    }
  }

  /** Two places of the same task count twice. */
  lemma TwoPlaces(q: seq<Task>, x: nat, y: nat, t: Task)
    requires x < y < |q| && q[x] == q[y] == t
    ensures InQueue(q, ByTask(t)) >= 2
  {
    QueueRemove(q, y, ByTask(t));
    QueueRemove(RemoveAt(q, y), x, ByTask(t));
  }

  lemma OneOrder(q: seq<Task>, t: Task, u: Task)
    requires InQueue(q, ByTask(t)) <= 1 && InQueue(q, ByTask(u)) <= 1 && Precedes(q, t, u)
    ensures !Precedes(q, u, t)
  {
    var x, y :| 0 <= x < y < |q| && q[x] == t && q[y] == u;
    forall x', y' | 0 <= x' < y' < |q| && q[x'] == u
      ensures q[y'] != t
    {
      if q[y'] == t {
        if x < y' { TwoPlaces(q, x, y', t); }
        if y' < x { TwoPlaces(q, y', x, t); }
        if x' < y { TwoPlaces(q, x', y, u); }
      }
    }
  }

  lemma {:induction false} EnqueuedTimes(log: seq<Event>, t: Task)
    ensures InQueue(EnqueuedBy(log, t.high), ByTask(t)) == Times(log, Enqueued(t))
  {
    if log != [] {
      var before, e := log[..|log| - 1], log[|log| - 1];
      EnqueuedTimes(before, t);
      if e.Enqueued? && e.task.high == t.high {
        QueueAppend(EnqueuedBy(before, t.high), [e.task], ByTask(t));
        assert InQueue([e.task], ByTask(t)) == if e.task == t then 1 else 0;
      } else {
        assert EnqueuedBy(before, t.high) + [] == EnqueuedBy(before, t.high);
      }
    }
  }

  lemma {:induction false} EnqueuedIn(log: seq<Event>, i: nat, high: bool)
    requires i < |log| && log[i].Enqueued? && log[i].task.high == high
    ensures log[i].task in EnqueuedBy(log, high)
  {
    if i < |log| - 1 { EnqueuedIn(log[..|log| - 1], i, high); }
  }

  lemma {:induction false} EnqueuedInOrder(log: seq<Event>, i: nat, j: nat, high: bool)
    requires i < j < |log| && log[i].Enqueued? && log[j].Enqueued?
    requires log[i].task.high == high && log[j].task.high == high
    ensures Precedes(EnqueuedBy(log, high), log[i].task, log[j].task)
  {
    var before, q := log[..|log| - 1], EnqueuedBy(log, high);
    if j < |log| - 1 {
      EnqueuedInOrder(before, i, j, high);
      if q != EnqueuedBy(before, high) {
        assert q[..|q| - 1] == EnqueuedBy(before, high);
        WiderPrecedes(q, log[i].task, log[j].task);
      }
    } else {
      EnqueuedIn(before, i, high);
      var q' := EnqueuedBy(before, high);
      var x :| 0 <= x < |q'| && q'[x] == log[i].task;
      assert q == q' + [log[j].task] && q[x] == log[i].task;
      PrecedesIn(q, x, |q| - 1);
    }
  }

  lemma FrontPrecedes(taken: seq<Task>, q: seq<Task>, t: Task)
    requires q != [] && t in q && t != q[0]
    ensures Precedes(taken + q, q[0], t)
  {
    var y :| 0 <= y < |q| && q[y] == t;
    assert (taken + q)[|taken|] == q[0] && (taken + q)[|taken| + y] == t;
  }

  lemma {:induction false} CountedIsIn(q: seq<Task>, t: Task)
    ensures t in q <==> InQueue(q, ByTask(t)) > 0
  {
    if q != [] {
      CountedIsIn(q[..|q| - 1], t);
      assert q == q[..|q| - 1] + [q[|q| - 1]];
    }
  }

  /**
   No task overtakes another of its priority: when one is taken, every task of the same priority
   put into the queue before it has been taken or cancelled, exactly once.
   */
  lemma NoOvertaking(states: seq<State>, actions: seq<Action>, events: seq<Event>,
                     n: nat, i: nat, j: nat, t: Task, u: Task)
    requires Run(states, actions, events) && i < j < n < |events|
    requires events[i] == Enqueued(t) && events[j] == Enqueued(u) && events[n] == Taken(u) && t.high == u.high
    ensures Times(events[..n], Taken(t)) + Times(events[..n], Cancelled(t)) == 1
  {
    var log, high := events[..n], t.high;
    EnqueuedOnce(states, actions, events, n, t);
    EnqueuedOnce(states, actions, events, n, u);
    QueueHoldsTheRest(states, actions, events, n, t);
    var q := Queue(states[n], high);
    TakenFromFront(states, actions, events, n, u);
    FirstInFirstOut(states, actions, events, n, high);
    assert log[i] == Enqueued(t) && log[j] == Enqueued(u);
    hide Run, Times, TakenBy, EnqueuedBy, IsSubsequence, Precedes;
    var enqueued := EnqueuedBy(log, high);
    EnqueuedInOrder(log, i, j, high);
    EnqueuedTimes(log, t);
    EnqueuedTimes(log, u);
    OneOrder(enqueued, t, u);
    HappenedIsTimes(log, Enqueued(t));
    CountedIsIn(q, t);
    if t in q {
      if t == u {
        OneOrder(enqueued, t, t);
      } else {
        FrontPrecedes(TakenBy(log, high), q, t);
        SubsequencePrecedes(TakenBy(log, high) + q, enqueued, u, t);
      }
    }
  }

  lemma EnqueuedOnce(states: seq<State>, actions: seq<Action>, events: seq<Event>, n: nat, t: Task)
    requires Run(states, actions, events) && n <= |events|
    ensures Times(events[..n], Enqueued(t)) <= 1
  {
    AnnouncedOnce(states, actions, events, n, t);
    BordersInOrder(states, actions, events, n, t, 1, 1);
    hide Run, Times, Crossed;
    TimesOfTask(events[..n], t);
  }

  lemma TakenFromFront(states: seq<State>, actions: seq<Action>, events: seq<Event>, n: nat, u: Task)
    requires Run(states, actions, events) && n < |events| && events[n] == Taken(u)
    ensures Queue(states[n], u.high) != [] && Queue(states[n], u.high)[0] == u
  {
    RunStep(states, actions, events, n);
    RunStaysClassed(states, actions, events, n);
    hide Run, Next, Can, EventOf, Classed, Queue;
    var p := StepEffect(states[n], actions[n], u.high);
  }

  // ---- Cancellation ----

  function TagOf(t: Task): nat { t.tag }

  predicate Clean(q: seq<Task>, tag: nat) {
    forall i :: 0 <= i < |q| ==> q[i].tag != tag
  }

  lemma {:induction false} CleanStays(q: seq<Task>, tag: nat)
    requires Clean(q, tag)
    ensures Without(q, TagOf, tag) == q
  {
    if q != [] { CleanStays(q[..|q| - 1], tag); }
  }

  lemma RemoveTagged(q: seq<Task>, p: nat, tag: nat)
    requires p < |q| && q[p].tag == tag
    ensures Without(RemoveAt(q, p), TagOf, tag) == Without(q, TagOf, tag)
  {
    WithoutConcat(q[..p], q[p + 1..], TagOf, tag);
    WithoutConcat(q[..p], [q[p]], TagOf, tag);
    WithoutConcat(q[..p] + [q[p]], q[p + 1..], TagOf, tag);
    assert q == q[..p] + [q[p]] + q[p + 1..];
    assert Without([q[p]], TagOf, tag) == [];
  }

  /** While the mutex is held: what is left to remove is ahead, and nothing else has changed. */
  predicate SweepInv(s: State) {
    match s.lock
    case None => true
    case Some(sw) =>
      && sw.at <= |SweptQueue(s, sw)|
      && Clean(SweptQueue(s, sw)[..sw.at], sw.tag)
      && (if sw.inHigh
          then Without(s.high, TagOf, sw.tag) == Without(sw.highBefore, TagOf, sw.tag) && s.normal == sw.normalBefore
          else s.high == Without(sw.highBefore, TagOf, sw.tag)
               && Without(s.normal, TagOf, sw.tag) == Without(sw.normalBefore, TagOf, sw.tag))
  }

  lemma SweepRoundInv(s: State, sw: Sweep)
    requires SweepInv(s) && s.lock == Some(sw)
    ensures SweepInv(SweepRound(s, sw))
  {
    var q := SweptQueue(s, sw);
    if SweepHits(s, sw) {
      RemoveTagged(q, sw.at, sw.tag);
      assert RemoveAt(q, sw.at)[..sw.at] == q[..sw.at];
    } else if sw.at < |q| {
      assert q[..sw.at + 1] == q[..sw.at] + [q[sw.at]];
    } else if sw.inHigh {
      assert q[..sw.at] == q;
      CleanStays(q, sw.tag);
    }
    hide Without;
  }

  /** While a cancellation holds the mutex, no step but its own changes either queue. */
  lemma OthersLeaveTheQueues(s: State, a: Action)
    requires Can(s, a) && s.lock.Some? && a != Go(s.lock.value.owner)
    ensures Next(s, a).high == s.high && Next(s, a).normal == s.normal && Next(s, a).lock == s.lock
  {
    hide Frames;
  }

  /** Its own steps leave the queues as they are, or erase the one task its event names. */
  lemma SweepTouchesItsTagOnly(s: State, a: Action)
    requires Can(s, a) && s.lock.Some?
    ensures var sw := s.lock.value;
      if EventOf(s, a).Cancelled?
      then sw.at < |SweptQueue(s, sw)| && EventOf(s, a).task == SweptQueue(s, sw)[sw.at]
           && EventOf(s, a).task.tag == sw.tag
           && Queue(Next(s, a), sw.inHigh) == RemoveAt(SweptQueue(s, sw), sw.at)
           && Queue(Next(s, a), !sw.inHigh) == Queue(s, !sw.inHigh)
      else Next(s, a).high == s.high && Next(s, a).normal == s.normal
  {
    hide Frames;
  }

  lemma StepKeepsSweep(s: State, a: Action)
    requires SweepInv(s) && Can(s, a)
    ensures SweepInv(Next(s, a))
  {
    hide Frames;
    if a.Go? && Active(s.threads[a.i]).Sweeping? {
      SweepRoundInv(s, s.lock.value);
      hide SweepRound, Without, Clean;
    } else {
      hide Without, Clean, SweepRound;
    }
  }

  lemma {:induction false} RunSweepInv(states: seq<State>, actions: seq<Action>, events: seq<Event>, n: nat)
    requires Run(states, actions, events) && n <= |events|
    ensures SweepInv(states[n])
  {
    if n > 0 {
      RunStep(states, actions, events, n - 1);
      RunSweepInv(states, actions, events, n - 1);
      hide Run, Next, Can, EventOf, SweepInv;
      StepKeepsSweep(states[n - 1], actions[n - 1]);
    }
  }

  /**
   A cancellation that returns has removed from both queues exactly the tasks of its tag that were
   in them when it took the mutex, and kept all others in their order.
   */
  lemma CancelRemovesExactlyTheTag(states: seq<State>, actions: seq<Action>, events: seq<Event>, n: nat, sw: Sweep)
    requires Run(states, actions, events) && n < |events| && events[n] == CancelReturned(sw)
    ensures states[n + 1].high == Without(sw.highBefore, TagOf, sw.tag)
    ensures states[n + 1].normal == Without(sw.normalBefore, TagOf, sw.tag)
    ensures states[n + 1].lock == None
  {
    RunStep(states, actions, events, n);
    RunSweepInv(states, actions, events, n);
    hide Run;
    SweepEnd(states[n], actions[n], sw);
  }

  lemma SweepEnd(s: State, a: Action, sw: Sweep)
    requires SweepInv(s) && Can(s, a) && EventOf(s, a) == CancelReturned(sw)
    ensures var s' := Next(s, a);
      && s'.high == Without(sw.highBefore, TagOf, sw.tag)
      && s'.normal == Without(sw.normalBefore, TagOf, sw.tag) && s'.lock == None
  {
    hide Frames, Without;
    assert s.lock == Some(sw);
    assert SweptQueue(s, sw)[..sw.at] == s.normal;
    CleanStays(s.normal, sw.tag);
  }

  /** What a cancellation finds is what the queues hold when it takes the mutex. */
  lemma SweepStartsWithTheQueues(s: State, a: Action, sw: Sweep)
    requires Can(s, a) && s.lock == None && Next(s, a).lock == Some(sw)
    ensures sw.highBefore == s.high && sw.normalBefore == s.normal && sw.inHigh && sw.at == 0
  {
    hide Frames;
  }
}
