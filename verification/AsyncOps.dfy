/**
 The scheduler's data in place: two deques, and schedule objects that queued tasks share. Each
 method is what one call does while it holds the queue mutex, together with its counter updates;
 how calls interleave is the subject of `Scheduler`.
 */
module AsyncOperations {
  import opened TaggedQueues
  import opened Wrappers
  import Scheduler
  import SchedulerOrder

  class Schedule {
    var counter: int

    constructor ()
      ensures counter == 0
    {
      counter := 0;
    }
  }

  /** `body` stands for the function to call. */
  datatype ScheduledTask = ScheduledTask(tag: nat, schedule: Schedule, body: nat)

  datatype Priority = High | Normal

  function TagOf(t: ScheduledTask): nat { t.tag }

  /** How many tasks of the tag belong to schedule `s`. */
  function Share(queue: seq<ScheduledTask>, tag: nat, s: Schedule): nat {
    if queue == [] then 0
    else
      var last := queue[|queue| - 1];
      Share(queue[..|queue| - 1], tag, s) + if last.tag == tag && last.schedule == s then 1 else 0
  }

  function Schedules(queue: seq<ScheduledTask>): set<Schedule> {
    set t | t in queue :: t.schedule
  }

  lemma KeptStep(queue: seq<ScheduledTask>, k: nat, tag: nat)
    requires k < |queue|
    ensures Without(queue[..k + 1], TagOf, tag)
         == Without(queue[..k], TagOf, tag) + if queue[k].tag == tag then [] else [queue[k]]
    ensures forall s :: Share(queue[..k + 1], tag, s)
                     == Share(queue[..k], tag, s) + if queue[k].tag == tag && queue[k].schedule == s then 1 else 0
  {
    assert queue[..k + 1][..k] == queue[..k];
  }

  lemma {:induction false} ShareElsewhere(queue: seq<ScheduledTask>, tag: nat, s: Schedule)
    requires s !in Schedules(queue)
    ensures Share(queue, tag, s) == 0
  {
    if queue != [] {
      var n := |queue| - 1;
      assert queue[n] in queue && forall t :: t in queue[..n] ==> t in queue;
      ShareElsewhere(queue[..n], tag, s);
    }
  }

  /** What is kept has no task of the tag left, and loses nothing else. */
  lemma {:induction false} KeptExactly(queue: seq<ScheduledTask>, tag: nat)
    ensures forall t :: t in Without(queue, TagOf, tag) <==> t in queue && t.tag != tag
    ensures multiset(Without(queue, TagOf, tag)) <= multiset(queue)
    ensures forall t: ScheduledTask :: t.tag != tag ==> multiset(Without(queue, TagOf, tag))[t] == multiset(queue)[t]
  {
    if queue != [] {
      var n := |queue| - 1;
      KeptExactly(queue[..n], tag);
      assert queue == queue[..n] + [queue[n]];
    }
  }

  /** A queued task as the state machine sees it, given names for the schedule objects. */
  function Named(t: ScheduledTask, names: Schedule -> nat, high: bool): Scheduler.Task {
    Scheduler.Task(t.body, t.tag, names(t.schedule), high)
  }

  /** What the loops leave in a deque is what the state machine says a cancellation leaves. */
  lemma KeptAsInStateMachine(queue: seq<ScheduledTask>, names: Schedule -> nat, high: bool, tag: nat)
    ensures var asTask := (t: ScheduledTask) => Named(t, names, high);
      Mapped(Without(queue, TagOf, tag), asTask) == Without(Mapped(queue, asTask), SchedulerOrder.TagOf, tag)
  {
    WithoutMapped(queue, (t: ScheduledTask) => Named(t, names, high), TagOf, SchedulerOrder.TagOf, tag);
  }

  class AsyncOps {
    var highQueue: seq<ScheduledTask>
    var normalQueue: seq<ScheduledTask>
    var workers: nat

    /** `schedule_task` up to its `notify_one`. */
    method ScheduleTask(body: nat, tag: nat, schedule: Schedule, priority: Priority)
      requires workers > 0
      modifies this`highQueue, this`normalQueue, schedule
      ensures schedule.counter == old(schedule.counter) + 1
      ensures priority.High? ==>
        highQueue == old(highQueue) + [ScheduledTask(tag, schedule, body)] && normalQueue == old(normalQueue)
      ensures priority.Normal? ==>
        normalQueue == old(normalQueue) + [ScheduledTask(tag, schedule, body)] && highQueue == old(highQueue)
    {
      schedule.counter := schedule.counter + 1;
      if priority == High {
        highQueue := highQueue + [ScheduledTask(tag, schedule, body)];
      } else {
        normalQueue := normalQueue + [ScheduledTask(tag, schedule, body)];
      }
    }

    /** The critical section workers and waiters share: the front of the first queue that has one. */
    method TakeNext() returns (task: Option<ScheduledTask>)
      modifies this`highQueue, this`normalQueue
      ensures task.None? <==> old(highQueue + normalQueue) == []
      ensures task.None? ==> highQueue == old(highQueue) && normalQueue == old(normalQueue)
      ensures task.Some? ==> [task.value] + highQueue + normalQueue == old(highQueue + normalQueue)
      ensures old(highQueue) != [] ==> normalQueue == old(normalQueue)
    {
      if highQueue != [] {
        task := Some(highQueue[0]);
        highQueue := highQueue[1..];
      } else if normalQueue != [] {
        task := Some(normalQueue[0]);
        normalQueue := normalQueue[1..];
      } else {
        task := None;
      }
    }

    /** `fetch_sub`, and whether `notify_all` is due. */
    static method Retire(task: ScheduledTask) returns (notify: bool)
      modifies task.schedule
      ensures task.schedule.counter == old(task.schedule.counter) - 1
      ensures notify <==> task.schedule.counter == 0
    {
      var before := task.schedule.counter;
      task.schedule.counter := before - 1;
      notify := before == 1;
    }

    /** One of the two loops of a cancellation. */
    static method SweepQueue(queue: seq<ScheduledTask>, tag: nat)
        returns (rest: seq<ScheduledTask>, notified: set<Schedule>)
      modifies Schedules(queue)
      ensures rest == Without(queue, TagOf, tag)
      ensures forall s :: s in Schedules(queue) ==> s.counter == old(s.counter) - Share(queue, tag, s)
      ensures forall s :: s in notified <==> s in Schedules(queue) && 1 <= old(s.counter) <= Share(queue, tag, s)
    {
      rest, notified := queue, {};
      var it := 0;
      ghost var k := 0;
      assert queue[..0] == [];
      while it < |rest|
        invariant 0 <= it <= |rest| && k == it + |queue| - |rest| <= |queue|
        invariant rest[..it] == Without(queue[..k], TagOf, tag) && rest[it..] == queue[k..]
        invariant forall s :: s in Schedules(queue) ==> s.counter == old(s.counter) - Share(queue[..k], tag, s)
        invariant forall s :: s in notified <==>
                    s in Schedules(queue) && 1 <= old(s.counter) <= Share(queue[..k], tag, s)
        decreases |rest| - it
      {
        var task := rest[it];
        KeptStep(queue, k, tag);
        assert task == queue[k] && task.schedule in Schedules(queue);
        k := k + 1;
        if task.tag == tag {
          var notify := Retire(task);
          if notify {
            notified := notified + {task.schedule};
          }
          rest := rest[..it] + rest[it + 1..];
        } else {
          it := it + 1;
        }
      }
      assert queue[..k] == queue;
      assert rest[..it] == rest;
    }

    /**
     Removes exactly the queued tasks of the tag, keeps the rest in order, lowers every counter by
     exactly its share, and notifies exactly the schedules whose counter this brings to zero.
     */
    method CancelTasksOfTag(tag: nat) returns (notified: set<Schedule>)
      modifies this`highQueue, this`normalQueue, Schedules(highQueue + normalQueue)
      ensures highQueue == Without(old(highQueue), TagOf, tag) && normalQueue == Without(old(normalQueue), TagOf, tag)
      ensures forall s :: s in old(Schedules(highQueue + normalQueue)) ==>
        s.counter == old(s.counter) - Share(old(highQueue), tag, s) - Share(old(normalQueue), tag, s)
      ensures forall s :: s in notified <==>
        s in old(Schedules(highQueue + normalQueue))
        && 1 <= old(s.counter) <= Share(old(highQueue), tag, s) + Share(old(normalQueue), tag, s)
    {
      ghost var high, normal := highQueue, normalQueue;
      var rest, first := SweepQueue(highQueue, tag);
      highQueue := rest;
      var second;
      rest, second := SweepQueue(normalQueue, tag);
      normalQueue := rest;
      notified := first + second;
      assert forall s :: s in old(Schedules(highQueue + normalQueue)) <==>
               s in Schedules(high) || s in Schedules(normal);
      forall s | s in old(Schedules(highQueue + normalQueue))
        ensures s !in Schedules(high) ==> Share(high, tag, s) == 0
        ensures s !in Schedules(normal) ==> Share(normal, tag, s) == 0
      {
        if s !in Schedules(high) { ShareElsewhere(high, tag, s); }
        if s !in Schedules(normal) { ShareElsewhere(normal, tag, s); }
      }
    }
  }
}
