/** What holds of every run of the ring protocol, in every interleaving of the two sides. */
module RingTheorems {
  import opened Integers
  import opened RingFrames
  import opened RingProtocol

  predicate Run(states: seq<State>, actions: seq<Action>, events: seq<Event>) {
    && |states| == |events| + 1 == |actions| + 1
    && Init(states[0])
    && forall i :: 0 <= i < |events| ==> Step(states[i], actions[i], events[i], states[i + 1])
  }

  lemma {:induction false} RunInv(states: seq<State>, actions: seq<Action>, events: seq<Event>, i: nat)
    requires Run(states, actions, events) && i <= |events|
    ensures Inv(states[i], events[..i])
  {
    if i == 0 {
      InitInv(states[0]);
    } else {
      RunInv(states, actions, events, i - 1);
      StepInv(states[i - 1], events[..i - 1], actions[i - 1], events[i - 1], states[i]);
      assert events[..i] == events[..i - 1] + [events[i - 1]];
    }
  }

  /**
   The byte ring refines a FIFO queue: the packets delivered so far, ids and payloads, are
   a prefix of the packets accepted so far, and equal offsets always mean an empty queue.
   */
  lemma FifoRefinement(states: seq<State>, actions: seq<Action>, events: seq<Event>)
    requires Run(states, actions, events)
    ensures DeliveredBy(events) <= AcceptedBy(events)
    ensures states[|events|].readOffset == states[|events|].writeOffset <==> AcceptedBy(events) == DeliveredBy(events)
  {
    RunInv(states, actions, events, |events|);
    assert events[..|events|] == events;
    OffsetsShowTheQueue(states[|events|], events);
  }

  /** The framed bytes of the packets not yet delivered fill exactly the span between the offsets. */
  lemma SpanHoldsThePending(states: seq<State>, actions: seq<Action>, events: seq<Event>)
    requires Run(states, actions, events)
    ensures Holds(states[|events|], Pending(events))
  {
    RunInv(states, actions, events, |events|);
    assert events[..|events|] == events;
  }

  lemma OffsetsShowTheQueue(s: State, log: seq<Event>)
    requires Inv(s, log)
    ensures s.readOffset == s.writeOffset <==> AcceptedBy(log) == DeliveredBy(log)
  {
    FreeSpaceTest(s.readOffset, s.writeOffset, 0, |s.mem|);
    assert AcceptedBy(log) == DeliveredBy(log) + Pending(log);
    NoBytesNoPackets(Pending(log));
  }

  lemma NoBytesNoPackets(q: seq<Packet>)
    ensures |Frames(q)| == 0 <==> q == []
  {
  }

  // ---- Memory safety and data-race freedom ----

  /** The buffer position the next `CopyByte(k)` writes, if the producer may take it. */
  ghost predicate MayWrite(s: State, i: int) {
    && s.producer.Copying? && |s.mem| > 0
    && exists k: nat :: k < |Frame(s.producer.packet)| && k !in s.producer.done
         && i == FrameIndex(s.producer.write, |s.producer.packet.payload|, k, |s.mem|)
  }

  /** The buffer position a consumer copy step may read. */
  ghost predicate MayRead(s: State, i: int) {
    && |s.mem| > 0
    && match s.consumer
       case InHeader(_, r, got) =>
         exists k: nat :: k < HEADER_SIZE && k !in got && i == WrappedIndex(r, HEADER_SIZE, k, |s.mem|)
       case InPayload(_, size, r, got) =>
         exists k: nat :: k < size && k !in got && i == WrappedIndex((r + HEADER_SIZE) % |s.mem|, size, k, |s.mem|)
       case _ => false
  }

  /** A step changes no byte but one that the producer may write. */
  lemma WritesOnlyWhatItMay(s: State, a: Action, e: Event, s': State, i: nat)
    requires Step(s, a, e, s') && i < |s.mem|
    ensures |s'.mem| == |s.mem| && (s'.mem[i] != s.mem[i] ==> ByProducer(a) && MayWrite(s, i))
  {
    if a.CopyByte? {
      var Copying(p, w, done) := s.producer;
      assert FrameIndex(w, |p.payload|, a.k, |s.mem|) == i ==> MayWrite(s, i);
    }
    hide Frame, FrameIndex, FreeSpace, PushedOffset, PoppedOffset, WrappedIndex, Fetch, Collected;
  }

  /** A step that copies nothing in depends on no byte but those that the consumer may read. */
  lemma ReadsOnlyWhatItMay(s: State, a: Action, e: Event, s': State, mem: seq<u8>)
    requires Step(s, a, e, s') && !a.CopyByte? && |mem| == |s.mem|
    requires forall i: int :: MayRead(s, i) ==> Fetch(mem, i) == Fetch(s.mem, i)
    ensures Step(s.(mem := mem), a, e, s'.(mem := mem))
  {
    hide Frame, FrameIndex, FreeSpace, PushedOffset, PoppedOffset, WrappedIndex, Fetch, Collected;
    if a.ReadHeaderByte? {
      assert MayRead(s, WrappedIndex(s.consumer.read, HEADER_SIZE, a.k, |s.mem|));
    } else if a.ReadPayloadByte? {
      var InPayload(_, size, r, _) := s.consumer;
      assert MayRead(s, WrappedIndex((r + HEADER_SIZE) % |s.mem|, size, a.k, |s.mem|));
    }
  }

  /** The circle positions that hold published, unconsumed bytes. */
  predicate Live(s: State, i: int) {
    exists j: nat :: j < Used(s.readOffset, s.writeOffset, |s.mem|) && i == Wrap(s.readOffset, j, |s.mem|)
  }

  lemma WritesAvoidLive(s: State, q: seq<Packet>, i: int)
    requires SafeCapacity(|s.mem|) && Holds(s, q) && ProducerInv(s) && MayWrite(s, i)
    ensures 0 <= i < |s.mem| && !Live(s, i)
  {
    var Copying(p, w, done) := s.producer;
    var cap, used := |s.mem|, Used(s.readOffset, w, |s.mem|);
    var k: nat :| k < |Frame(p)| && i == FrameIndex(w, |p.payload|, k, cap);
    FreeSpaceTest(s.readOffset, w, 0, cap);
    FrameLayout(w, |p.payload|, cap);
    forall j: nat | j < used
      ensures i != Wrap(s.readOffset, j, cap)
    {
      FreshPosition(s.readOffset, used, k, j, cap);
    }
  }

  lemma ReadsAreLive(s: State, q: seq<Packet>, i: int)
    requires SafeCapacity(|s.mem|) && Holds(s, q) && ConsumerInv(s, q) && MayRead(s, i)
    ensures 0 <= i < |s.mem| && Live(s, i)
  {
    var cap, r, n := |s.mem|, s.readOffset, |q[0].payload|;
    var k: nat;
    if s.consumer.InHeader? {
      k :| k < HEADER_SIZE && i == WrappedIndex(r, HEADER_SIZE, k, cap);
    } else {
      var j: nat :| j < n && i == WrappedIndex((r + HEADER_SIZE) % cap, n, j, cap);
      k := HEADER_SIZE + j;
    }
    assert k < |Frame(q[0])| && i == FrameIndex(r, n, k, cap);
    assert |Frame(q[0])| <= Used(r, s.writeOffset, cap) < cap by { HeadFrame(s, q); }
    FrameLayout(r, n, cap);
    assert i == Wrap(r, k, cap);
  }

  /**
   In every reachable state each copy step stays inside the buffer, an in-progress push
   writes no published unconsumed byte, and so no producer write and consumer read that
   are both enabled touch the same byte.
   */
  lemma CopiesStayInsideAndNeverRace(states: seq<State>, actions: seq<Action>, events: seq<Event>, m: nat, i: int)
    requires Run(states, actions, events) && m <= |events|
    ensures MayWrite(states[m], i) ==> 0 <= i < |states[m].mem| && !Live(states[m], i)
    ensures MayRead(states[m], i) ==> 0 <= i < |states[m].mem| && Live(states[m], i)
    ensures !(MayWrite(states[m], i) && MayRead(states[m], i))
  {
    RunInv(states, actions, events, m);
    var q := Pending(events[..m]);
    if MayWrite(states[m], i) { WritesAvoidLive(states[m], q, i); }
    if MayRead(states[m], i) { ReadsAreLive(states[m], q, i); }
  }

  // ---- Every failure was true at some moment during the call ----

  /**
   The state whose consumer offset a waiting producer holds lies inside the same call: the
   call began there and the producer has not moved on since.
   */
  lemma {:induction false} PushLoadMoment(states: seq<State>, actions: seq<Action>, events: seq<Event>, j: nat)
      returns (i: nat)
    requires Run(states, actions, events) && j <= |events| && states[j].producer.Loaded?
    ensures i < j && actions[i] == BeginPush(states[j].producer.packet.id, states[j].producer.packet.payload)
    ensures forall m :: i < m <= j ==> states[m].producer == states[j].producer
    ensures states[i].readOffset == states[j].producer.read && states[i].writeOffset == states[j].writeOffset
    ensures |states[i].mem| == |states[j].mem|
  {
    if actions[j - 1].BeginPush? && events[j - 1] == Silent {
      i := j - 1;
    } else {
      i := PushLoadMoment(states, actions, events, j - 1);
    }
  }

  lemma {:induction false} PopLoadMoment(states: seq<State>, actions: seq<Action>, events: seq<Event>, j: nat)
      returns (i: nat)
    requires Run(states, actions, events) && j <= |events| && states[j].consumer.Checked?
    ensures i < j && actions[i] == BeginPop(states[j].consumer.room)
    ensures forall m :: i < m <= j ==> states[m].consumer == states[j].consumer
    ensures states[i].writeOffset == states[j].consumer.write && states[i].readOffset == states[j].readOffset
    ensures |states[i].mem| == |states[j].mem|
  {
    if actions[j - 1].BeginPop? {
      i := j - 1;
    } else {
      i := PopLoadMoment(states, actions, events, j - 1);
    }
  }

  /** A push is refused only if, at a moment during the call, its frame really did not fit. */
  lemma RefusedPushWasFull(states: seq<State>, actions: seq<Action>, events: seq<Event>, j: nat) returns (i: nat)
    requires Run(states, actions, events) && j < |events| && events[j].Refused?
    ensures i < j && actions[i] == BeginPush(events[j].packet.id, events[j].packet.payload)
    ensures forall m :: i < m < j ==> !ByProducer(actions[m])
    ensures |Frames(Pending(events[..i]))| + |Frame(events[j].packet)| >= |states[0].mem|
  {
    assert Step(states[j], actions[j], events[j], states[j + 1]);
    i := PushLoadMoment(states, actions, events, j);
    assert Inv(states[i], events[..i]) by { RunInv(states, actions, events, i); }
    FreeSpaceTest(states[i].readOffset, states[i].writeOffset, |Frame(events[j].packet)|, |states[i].mem|);
    SameMemory(states, actions, events, i);
    forall m | i < m < j
      ensures !ByProducer(actions[m])
    {
      assert Step(states[m], actions[m], events[m], states[m + 1]);
    }
  }

  lemma {:induction false} SameMemory(states: seq<State>, actions: seq<Action>, events: seq<Event>, i: nat)
    requires Run(states, actions, events) && i <= |events|
    ensures |states[i].mem| == |states[0].mem|
  {
    if i > 0 {
      SameMemory(states, actions, events, i - 1);
      assert Step(states[i - 1], actions[i - 1], events[i - 1], states[i]);
    }
  }

  /** A pop reports empty only if, at a moment during the call, the queue was empty. */
  lemma EmptyPopWasEmpty(states: seq<State>, actions: seq<Action>, events: seq<Event>, j: nat) returns (i: nat)
    requires Run(states, actions, events) && j < |events| && events[j].Empty?
    ensures i < j && actions[i].BeginPop?
    ensures forall m :: i < m < j ==> ByProducer(actions[m])
    ensures Pending(events[..i]) == []
  {
    assert Step(states[j], actions[j], events[j], states[j + 1]);
    i := PopLoadMoment(states, actions, events, j);
    RunInv(states, actions, events, i);
    var s := states[i];
    FreeSpaceTest(s.readOffset, s.writeOffset, 0, |s.mem|);
    NoBytesNoPackets(Pending(events[..i]));
    forall m | i < m < j
      ensures ByProducer(actions[m])
    {
      assert Step(states[m], actions[m], events[m], states[m + 1]);
    }
  }

  /**
   A pop refused for a small buffer names the size of the packet at the head and loses
   nothing: the next packet delivered, however much is pushed meanwhile, is that packet.
   */
  lemma {:induction false} TooSmallKeepsThePacket(states: seq<State>, actions: seq<Action>, events: seq<Event>,
                                                  j: nat, m: nat)
    requires Run(states, actions, events) && j < m < |events|
    requires events[j].TooSmall? && events[m].Delivered?
    requires forall i :: j < i < m ==> !events[i].Delivered?
    ensures events[j].room < events[j].needed == |events[m].packet.payload|
    ensures Pending(events[..j]) != [] && events[m].packet == Pending(events[..j])[0]
  {
    TooSmallNamesTheHead(states, actions, events, j);
    HeadStays(states, actions, events, j, m);
    DeliveryTakesTheHead(states, actions, events, m);
  }

  lemma TooSmallNamesTheHead(states: seq<State>, actions: seq<Action>, events: seq<Event>, j: nat)
    requires Run(states, actions, events) && j < |events| && events[j].TooSmall?
    ensures var q := Pending(events[..j]);
            q != [] && events[j].room < events[j].needed == |q[0].payload|
  {
    RunInv(states, actions, events, j);
    assert Step(states[j], actions[j], events[j], states[j + 1]);
    DecodeHeaderInv(states[j], events[j], states[j + 1], Pending(events[..j]));
  }

  lemma DeliveryTakesTheHead(states: seq<State>, actions: seq<Action>, events: seq<Event>, m: nat)
    requires Run(states, actions, events) && m < |events| && events[m].Delivered?
    ensures Pending(events[..m]) != [] && events[m].packet == Pending(events[..m])[0]
  {
    RunInv(states, actions, events, m);
    assert Step(states[m], actions[m], events[m], states[m + 1]);
    ConsumerStepInv(states[m], actions[m], events[m], states[m + 1], Pending(events[..m]));
  }

  lemma {:induction false} HeadStays(states: seq<State>, actions: seq<Action>, events: seq<Event>, j: nat, m: nat)
    requires Run(states, actions, events) && j <= m <= |events|
    requires forall i :: j <= i < m ==> !events[i].Delivered?
    ensures Pending(events[..j]) <= Pending(events[..m])
  {
    hide Pending;
    if j < m {
      HeadStays(states, actions, events, j, m - 1);
      QueueGrows(states, actions, events, m - 1);
      hide Run;
    }
  }

  lemma QueueGrows(states: seq<State>, actions: seq<Action>, events: seq<Event>, i: nat)
    requires Run(states, actions, events) && i < |events| && !events[i].Delivered?
    ensures Pending(events[..i]) <= Pending(events[..i + 1])
  {
    RunInv(states, actions, events, i);
    assert events[..i + 1] == events[..i] + [events[i]];
    PendingStep(events[..i], events[i]);
  }

  // ---- Wait-freedom ----

  /** Steps a push has left, whatever the consumer does. */
  function PushWork(s: State): int {
    match s.producer
    case Idle => 0
    case Loaded(p, _) => |Frame(p)| + 2
    case Copying(p, _, done) => |Frame(p)| - |done| + 1
  }

  function PopWork(s: State): int {
    match s.consumer
    case Resting => 0
    case Checked(_, _) => HEADER_SIZE + U16_MAX + 4
    case InHeader(_, _, got) => HEADER_SIZE - |got| + U16_MAX + 3
    case InPayload(_, size, _, got) => size - |got| + 1
  }

  lemma {:induction false} SizeBelow(done: set<nat>, n: nat)
    requires forall k :: k in done ==> k < n
    ensures |done| <= n
  {
    if n > 0 {
      if n - 1 in done {
        SizeBelow(done - {n - 1}, n - 1);
      } else {
        SizeBelow(done, n - 1);
      }
    }
  }

  /**
   Both operations are wait-free. Each step of a call under way lowers that call's remaining
   work, which is never negative, and no step of the other side changes it.
   */
  lemma WorkShrinks(states: seq<State>, actions: seq<Action>, events: seq<Event>, m: nat)
    requires Run(states, actions, events) && m < |events|
    ensures PushWork(states[m]) >= 0 && PopWork(states[m]) >= 0
    ensures ByProducer(actions[m]) && states[m].producer != Idle ==>
              PushWork(states[m + 1]) < PushWork(states[m])
    ensures !ByProducer(actions[m]) ==> PushWork(states[m + 1]) == PushWork(states[m])
    ensures !ByProducer(actions[m]) && states[m].consumer != Resting ==>
              PopWork(states[m + 1]) < PopWork(states[m])
    ensures ByProducer(actions[m]) ==> PopWork(states[m + 1]) == PopWork(states[m])
  {
    RunInv(states, actions, events, m);
    assert Step(states[m], actions[m], events[m], states[m + 1]);
    WorkShrinksByStep(states[m], actions[m], events[m], states[m + 1], Pending(events[..m]));
  }

  lemma WorkShrinksByStep(s: State, a: Action, e: Event, s': State, q: seq<Packet>)
    requires ProducerInv(s) && ConsumerInv(s, q) && Step(s, a, e, s')
    ensures PushWork(s) >= 0 && PopWork(s) >= 0
    ensures ByProducer(a) && s.producer != Idle ==> PushWork(s') < PushWork(s)
    ensures !ByProducer(a) ==> PushWork(s') == PushWork(s)
    ensures !ByProducer(a) && s.consumer != Resting ==> PopWork(s') < PopWork(s)
    ensures ByProducer(a) ==> PopWork(s') == PopWork(s)
  {
    WorkLeft(s, q);
    hide Frame;
    if ByProducer(a) { PushShrinks(s, a, e, s'); } else { PopShrinks(s, a, e, s'); }
  }

  lemma WorkLeft(s: State, q: seq<Packet>)
    requires ProducerInv(s) && ConsumerInv(s, q)
    ensures if s.producer == Idle then PushWork(s) == 0 else PushWork(s) > 0
    ensures if s.consumer == Resting then PopWork(s) == 0 else PopWork(s) > 0
    ensures s.consumer.InHeader? ==> PopWork(s) > U16_MAX + 2
  {
    hide Frame;
    if s.producer.Copying? { SizeBelow(s.producer.done, |Frame(s.producer.packet)|); }
    if s.consumer.InHeader? { SizeBelow(s.consumer.got.Keys, HEADER_SIZE); }
    if s.consumer.InPayload? { SizeBelow(s.consumer.got.Keys, s.consumer.size); }
  }

  lemma PushShrinks(s: State, a: Action, e: Event, s': State)
    requires Step(s, a, e, s') && ByProducer(a) && (s.producer != Idle ==> PushWork(s) > 0)
    ensures s.producer != Idle ==> PushWork(s') < PushWork(s)
    ensures s'.consumer == s.consumer
  {
    hide Frame, Store;
  }

  lemma PopShrinks(s: State, a: Action, e: Event, s': State)
    requires Step(s, a, e, s') && !ByProducer(a) && (s.consumer != Resting ==> PopWork(s) > 0)
    requires s.consumer.InHeader? ==> PopWork(s) > U16_MAX + 2
    ensures s.consumer != Resting ==> PopWork(s') < PopWork(s)
    ensures s'.producer == s.producer
  {
    hide Fetch, WrappedIndex, HeaderPayloadSize, HeaderId, PoppedOffset, Collected;
    match a {
      case ReadHeaderByte(k) => ReadHeaderShrinks(s, k, s');
      case ReadPayloadByte(k) => ReadPayloadShrinks(s, k, s');
      case _ => hide Frame, FreeSpace, Used, FrameIndex;
    }
  }

  lemma ReadHeaderShrinks(s: State, k: nat, s': State)
    requires Step(s, ReadHeaderByte(k), Silent, s')
    ensures PopWork(s') == PopWork(s) - 1
  {
    hide Fetch, WrappedIndex;
    assert s'.consumer.got.Keys == s.consumer.got.Keys + {k};
  }

  lemma ReadPayloadShrinks(s: State, k: nat, s': State)
    requires Step(s, ReadPayloadByte(k), Silent, s')
    ensures PopWork(s') == PopWork(s) - 1
  {
    hide Fetch, WrappedIndex;
    assert s'.consumer.got.Keys == s.consumer.got.Keys + {k};
  }

  /** How many of the actions `first`, ..., `last - 1` belong to one side. */
  function OwnSteps(actions: seq<Action>, first: nat, last: nat, pushes: bool): nat
    requires first <= last <= |actions|
    decreases last
  {
    if first == last then 0
    else OwnSteps(actions, first, last - 1, pushes) + (if ByProducer(actions[last - 1]) == pushes then 1 else 0)
  }

  lemma {:induction false} OwnStepsAreCounted(actions: seq<Action>, first: nat, last: nat, pushes: bool)
    requires first <= last <= |actions|
    ensures OwnSteps(actions, first, last, pushes)
         == |set i | first <= i < last && ByProducer(actions[i]) == pushes|
    decreases last
  {
    hide ByProducer;
    var own := set i | first <= i < last && ByProducer(actions[i]) == pushes;
    if first < last {
      OwnStepsAreCounted(actions, first, last - 1, pushes);
      var before := set i | first <= i < last - 1 && ByProducer(actions[i]) == pushes;
      assert own == if ByProducer(actions[last - 1]) == pushes then before + {last - 1} else before;
    } else {
      assert own == {};
    }
  }

  /** A push of n bytes is over after at most n + 7 steps of its own, the first included. */
  lemma {:induction false} PushEndsInTime(states: seq<State>, actions: seq<Action>, events: seq<Event>, a: nat, b: nat)
    requires Run(states, actions, events) && a < b <= |events|
    requires actions[a].BeginPush? && forall m :: a < m < b ==> states[m].producer != Idle
    ensures OwnSteps(actions, a, b, true) + PushWork(states[b]) <= |actions[a].data| + 7
    ensures PushWork(states[b]) >= 0
    decreases b
  {
    WorkShrinks(states, actions, events, b - 1);
    if b == a + 1 {
      assert Step(states[a], actions[a], events[a], states[b]);
      assert OwnSteps(actions, a, a, true) == 0;
    } else {
      PushEndsInTime(states, actions, events, a, b - 1);
    }
    WorkIsLeft(states, actions, events, b);
  }

  /** A pop is over after at most 65544 steps of its own: a byte step for each of the longest payload, and nine. */
  lemma {:induction false} PopEndsInTime(states: seq<State>, actions: seq<Action>, events: seq<Event>, a: nat, b: nat)
    requires Run(states, actions, events) && a < b <= |events|
    requires actions[a].BeginPop? && forall m :: a < m < b ==> states[m].consumer != Resting
    ensures OwnSteps(actions, a, b, false) + PopWork(states[b]) <= U16_MAX + 9
    ensures PopWork(states[b]) >= 0
    decreases b
  {
    WorkShrinks(states, actions, events, b - 1);
    if b == a + 1 {
      assert Step(states[a], actions[a], events[a], states[b]);
      assert OwnSteps(actions, a, a, false) == 0;
    } else {
      PopEndsInTime(states, actions, events, a, b - 1);
    }
    WorkIsLeft(states, actions, events, b);
  }

  lemma WorkIsLeft(states: seq<State>, actions: seq<Action>, events: seq<Event>, m: nat)
    requires Run(states, actions, events) && m <= |events|
    ensures PushWork(states[m]) >= 0 && PopWork(states[m]) >= 0
  {
    RunInv(states, actions, events, m);
    hide Run;
    WorkLeft(states[m], Pending(events[..m]));
  }

  /** A call under way never has to wait for the other side: one of its own steps is enabled. */
  lemma PushNeverWaits(s: State) returns (a: Action, e: Event, s': State)
    requires |s.mem| > 0 && s.producer != Idle
    ensures ByProducer(a) && Step(s, a, e, s')
  {
    match s.producer
    case Loaded(p, read) =>
      a := DecidePush;
      if FreeSpace(read, s.writeOffset, |s.mem|) <= HEADER_SIZE + |p.payload| {
        e, s' := Refused(p), s.(producer := Idle);
      } else {
        e, s' := Silent, s.(producer := Copying(p, s.writeOffset, {}));
      }
    case Copying(p, w, done) =>
      if k: nat :| k < |Frame(p)| && k !in done {
        a, e := CopyByte(k), Silent;
        s' := s.(mem := Store(s.mem, FrameIndex(w, |p.payload|, k, |s.mem|), Frame(p)[k]),
                 producer := Copying(p, w, done + {k}));
      } else {
        a, e := PublishPush, Accepted(p);
        s' := s.(writeOffset := PushedOffset(w, |p.payload|, |s.mem|), producer := Idle);
      }
  }

  lemma PopNeverWaits(s: State) returns (a: Action, e: Event, s': State)
    requires |s.mem| > 0 && s.consumer != Resting
    ensures !ByProducer(a) && Step(s, a, e, s')
  {
    match s.consumer
    case Checked(room, write) =>
      a := DecidePop;
      if s.readOffset == write {
        e, s' := Empty, s.(consumer := Resting);
      } else {
        e, s' := Silent, s.(consumer := InHeader(room, s.readOffset, map[]));
      }
    case InHeader(room, r, got) =>
      e := Silent;
      if k: nat :| k < HEADER_SIZE && k !in got {
        a := ReadHeaderByte(k);
        s' := s.(consumer := InHeader(room, r, got[k := Fetch(s.mem, WrappedIndex(r, HEADER_SIZE, k, |s.mem|))]));
      } else {
        a := DecodeHeader;
        var header := Collected(got, HEADER_SIZE);
        var size := HeaderPayloadSize(header);
        if size > room {
          e, s' := TooSmall(size, room), s.(consumer := Resting);
        } else {
          s' := s.(consumer := InPayload(HeaderId(header), size, r, map[]));
        }
      }
    case InPayload(id, size, r, got) =>
      if k: nat :| k < size && k !in got {
        a, e := ReadPayloadByte(k), Silent;
        var i := WrappedIndex((r + HEADER_SIZE) % |s.mem|, size, k, |s.mem|);
        s' := s.(consumer := InPayload(id, size, r, got[k := Fetch(s.mem, i)]));
      } else {
        a, e := PublishPop, Delivered(Packet(id, Collected(got, size)));
        s' := s.(readOffset := PoppedOffset(r, size, |s.mem|), consumer := Resting);
      }
  }
}
