/** What each call of the ring protocol answers, from its arguments and the queue it finds. */
module RingOutcomes {
  import opened Integers
  import opened RingFrames
  import opened RingProtocol
  import opened RingTheorems

  // ---- Calls may begin ----

  /** A side that is not in a call can begin one with any arguments. */
  lemma PushMayBegin(s: State, id: u16, data: seq<u8>) returns (e: Event, s': State)
    requires |s.mem| > 0 && s.producer == Idle
    ensures Step(s, BeginPush(id, data), e, s')
  {
    e, s' := Oversize, s;
    if |data| <= U16_MAX {
      e, s' := Silent, s.(producer := Loaded(Packet(id, data), s.readOffset));
    }
  }

  lemma PopMayBegin(s: State, room: nat) returns (e: Event, s': State)
    requires |s.mem| > 0 && s.consumer == Resting
    ensures Step(s, BeginPop(room), e, s')
  {
    e, s' := Silent, s.(consumer := Checked(room, s.writeOffset));
  }

  // ---- Push ----

  /** A push is answered as oversize exactly when its payload does not fit the u16 size field. */
  lemma OversizeExactly(states: seq<State>, actions: seq<Action>, events: seq<Event>, j: nat)
    requires Run(states, actions, events) && j < |events|
    ensures events[j] == Oversize <==> actions[j].BeginPush? && |actions[j].data| > 65535
    ensures events[j] == Oversize ==> states[j + 1] == states[j]
  {
    assert Step(states[j], actions[j], events[j], states[j + 1]);
    hide Run, Frame, FreeSpace, FrameIndex, Store, PushedOffset, PoppedOffset, WrappedIndex, Fetch, Collected;
  }

  /** The queue leaves room for the frame of an `n`-byte payload and one unused byte. */
  predicate Fits(q: seq<Packet>, n: nat, cap: nat) {
    |Frames(q)| + 4 + n < cap
  }

  /** What the producer holds during a push of `p` that began in state `s`. */
  predicate Pushing(s: State, p: Packet, s': State) {
    match s'.producer
    case Idle => false
    case Loaded(q, read) => q == p && read == s.readOffset && s'.writeOffset == s.writeOffset
    case Copying(q, _, _) => q == p && FreeSpace(s.readOffset, s.writeOffset, |s.mem|) > HEADER_SIZE + |p.payload|
  }

  lemma PushStep(s: State, p: Packet, s1: State, a: Action, e: Event, s2: State)
    requires Pushing(s, p, s1) && Step(s1, a, e, s2) && |s1.mem| == |s.mem|
    ensures s2.producer != Idle ==> Pushing(s, p, s2) && (ByProducer(a) ==> e == Silent)
    ensures s2.producer == Idle ==>
      e == if FreeSpace(s.readOffset, s.writeOffset, |s.mem|) > HEADER_SIZE + |p.payload|
           then Accepted(p) else Refused(p)
  {
    hide Frame, FreeSpace, FrameIndex, Store, PushedOffset, PoppedOffset, WrappedIndex, Fetch, Collected;
  }

  lemma {:induction false} PushUnderWay(states: seq<State>, actions: seq<Action>, events: seq<Event>,
                                        j: nat, n: nat, p: Packet)
    requires Run(states, actions, events) && j < n <= |events| && actions[j] == BeginPush(p.id, p.payload)
    requires forall m :: j < m <= n ==> states[m].producer != Idle
    ensures Pushing(states[j], p, states[n]) && |states[n].mem| == |states[j].mem|
    ensures forall m :: j <= m < n && ByProducer(actions[m]) ==> events[m] == Silent
    decreases n
  {
    assert Step(states[n - 1], actions[n - 1], events[n - 1], states[n]);
    SameMemory(states, actions, events, j);
    SameMemory(states, actions, events, n);
    if n > j + 1 {
      PushUnderWay(states, actions, events, j, n - 1, p);
      PushStep(states[j], p, states[n - 1], actions[n - 1], events[n - 1], states[n]);
    }
  }

  /**
   A push of at most 65535 bytes that began at `j` and ends at `n` has accepted exactly its packet
   when the queue it found left room for the frame, and has refused it otherwise, whatever the
   consumer did meanwhile.
   */
  lemma PushOutcome(states: seq<State>, actions: seq<Action>, events: seq<Event>, j: nat, n: nat, p: Packet)
    requires Run(states, actions, events) && j < n < |events| && actions[j] == BeginPush(p.id, p.payload)
    requires (forall m :: j < m <= n ==> states[m].producer != Idle) && states[n + 1].producer == Idle
    ensures events[n] ==
      if Fits(Pending(events[..j]), |p.payload|, |states[0].mem|) then Accepted(p) else Refused(p)
    ensures forall m :: j <= m < n && ByProducer(actions[m]) ==> events[m] == Silent
  {
    PushUnderWay(states, actions, events, j, n, p);
    RunInv(states, actions, events, j);
    SameMemory(states, actions, events, j);
    var s := states[j];
    PushStep(s, p, states[n], actions[n], events[n], states[n + 1]);
    FreeSpaceTest(s.readOffset, s.writeOffset, HEADER_SIZE + |p.payload|, |s.mem|);
  }

  /** The step that ends the call begun at `j`, if it is over by `b`. */
  lemma {:induction false} EndOfPush(states: seq<State>, actions: seq<Action>, events: seq<Event>, j: nat, b: nat)
      returns (n: nat)
    requires Run(states, actions, events) && j < b <= |events|
    requires actions[j].BeginPush? && |actions[j].data| <= 65535
    ensures j < n <= b && forall m :: j < m <= n - 1 ==> states[m].producer != Idle
    ensures if states[n].producer == Idle then n > j + 1 else n == b
    decreases b
  {
    if b == j + 1 {
      assert Step(states[j], actions[j], events[j], states[b]);
      n := b;
    } else {
      n := EndOfPush(states, actions, events, j, b - 1);
      if states[n].producer != Idle { n := b; }
    }
  }

  /** A push whose thread has made n + 7 steps has been answered, once, and as the queue it found demands. */
  lemma PushIsAnswered(states: seq<State>, actions: seq<Action>, events: seq<Event>, j: nat, b: nat, p: Packet)
      returns (n: nat)
    requires Run(states, actions, events) && j < b <= |events| && actions[j] == BeginPush(p.id, p.payload)
    requires OwnSteps(actions, j, b, true) >= |p.payload| + 7
    ensures j < n < b && events[n] ==
      if Fits(Pending(events[..j]), |p.payload|, |states[0].mem|) then Accepted(p) else Refused(p)
    ensures forall m :: j <= m < n && ByProducer(actions[m]) ==> events[m] == Silent
  {
    var end := EndOfPush(states, actions, events, j, b);
    if states[end].producer != Idle {
      PushEndsInTime(states, actions, events, j, b);
      RunInv(states, actions, events, b);
      WorkLeft(states[b], Pending(events[..b]));
    }
    n := end - 1;
    PushOutcome(states, actions, events, j, n, p);
  }

  // ---- Pop ----

  /** What a pop with `room` bytes of space answers when it finds the queue `q`. */
  function PopAnswer(q: seq<Packet>, room: nat): Event {
    if q == [] then Empty
    else if |q[0].payload| > room then TooSmall(|q[0].payload|, room)
    else Delivered(q[0])
  }

  /** What the consumer holds during a pop that began in state `s`. */
  predicate Popping(s: State, room: nat, s': State) {
    && s'.readOffset == s.readOffset
    && match s'.consumer
       case Resting => false
       case Checked(r, write) => r == room && write == s.writeOffset
       case InHeader(r, _, _) => r == room && s.readOffset != s.writeOffset
       case InPayload(_, size, _, _) => size <= room && s.readOffset != s.writeOffset
  }

  lemma PopStep(s: State, room: nat, s1: State, a: Action, e: Event, s2: State)
    requires Popping(s, room, s1) && Step(s1, a, e, s2)
    ensures s2.consumer != Resting ==> Popping(s, room, s2) && !e.Delivered? && (!ByProducer(a) ==> e == Silent)
    ensures s2.consumer == Resting ==>
      match e
      case Empty => s.readOffset == s.writeOffset
      case TooSmall(size, r) => s.readOffset != s.writeOffset && r == room < size
      case Delivered(p) => s.readOffset != s.writeOffset && |p.payload| <= room
      case _ => false
  {
    hide Frame, FreeSpace, FrameIndex, Store, PushedOffset, PoppedOffset, WrappedIndex, Fetch;
  }

  lemma {:induction false} PopUnderWay(states: seq<State>, actions: seq<Action>, events: seq<Event>, j: nat, n: nat)
    requires Run(states, actions, events) && j < n <= |events| && actions[j].BeginPop?
    requires forall m :: j < m <= n ==> states[m].consumer != Resting
    ensures Popping(states[j], actions[j].room, states[n])
    ensures forall m :: j <= m < n ==> !events[m].Delivered? && (!ByProducer(actions[m]) ==> events[m] == Silent)
    decreases n
  {
    assert Step(states[n - 1], actions[n - 1], events[n - 1], states[n]);
    if n > j + 1 {
      PopUnderWay(states, actions, events, j, n - 1);
      PopStep(states[j], actions[j].room, states[n - 1], actions[n - 1], events[n - 1], states[n]);
    }
  }

  lemma OffsetsTellEmpty(states: seq<State>, actions: seq<Action>, events: seq<Event>, j: nat)
    requires Run(states, actions, events) && j <= |events|
    ensures states[j].readOffset == states[j].writeOffset <==> Pending(events[..j]) == []
  {
    RunInv(states, actions, events, j);
    OffsetsShowTheQueue(states[j], events[..j]);
    assert AcceptedBy(events[..j]) == DeliveredBy(events[..j]) + Pending(events[..j]);
  }

  /**
   A pop that began at `j` and ends at `n` answers by the queue it found: empty, too small with the
   size of the first packet, or that packet, whatever the producer did meanwhile.
   */
  lemma PopOutcome(states: seq<State>, actions: seq<Action>, events: seq<Event>, j: nat, n: nat)
    requires Run(states, actions, events) && j < n < |events| && actions[j].BeginPop?
    requires (forall m :: j < m <= n ==> states[m].consumer != Resting) && states[n + 1].consumer == Resting
    ensures events[n] == PopAnswer(Pending(events[..j]), actions[j].room)
    ensures forall m :: j <= m < n && !ByProducer(actions[m]) ==> events[m] == Silent
  {
    PopUnderWay(states, actions, events, j, n);
    PopStep(states[j], actions[j].room, states[n], actions[n], events[n], states[n + 1]);
    OffsetsTellEmpty(states, actions, events, j);
    HeadStays(states, actions, events, j, n);
    if events[n].TooSmall? { TooSmallNamesTheHead(states, actions, events, n); }
    if events[n].Delivered? { DeliveryTakesTheHead(states, actions, events, n); }
  }

  lemma {:induction false} EndOfPop(states: seq<State>, actions: seq<Action>, events: seq<Event>, j: nat, b: nat)
      returns (n: nat)
    requires Run(states, actions, events) && j < b <= |events| && actions[j].BeginPop?
    ensures j < n <= b && forall m :: j < m <= n - 1 ==> states[m].consumer != Resting
    ensures if states[n].consumer == Resting then n > j + 1 else n == b
    decreases b
  {
    if b == j + 1 {
      assert Step(states[j], actions[j], events[j], states[b]);
      n := b;
    } else {
      n := EndOfPop(states, actions, events, j, b - 1);
      if states[n].consumer != Resting { n := b; }
    }
  }

  /** A pop whose thread has made 65544 steps has been answered, once, and as the queue it found demands. */
  lemma PopIsAnswered(states: seq<State>, actions: seq<Action>, events: seq<Event>, j: nat, b: nat) returns (n: nat)
    requires Run(states, actions, events) && j < b <= |events| && actions[j].BeginPop?
    requires OwnSteps(actions, j, b, false) >= 65544
    ensures j < n < b && events[n] == PopAnswer(Pending(events[..j]), actions[j].room)
    ensures forall m :: j <= m < n && !ByProducer(actions[m]) ==> events[m] == Silent
  {
    var end := EndOfPop(states, actions, events, j, b);
    if states[end].consumer != Resting {
      PopEndsInTime(states, actions, events, j, b);
      RunInv(states, actions, events, b);
      WorkLeft(states[b], Pending(events[..b]));
    }
    n := end - 1;
    PopOutcome(states, actions, events, j, n);
  }
}
