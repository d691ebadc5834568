/**
 The single-producer single-consumer protocol of `RingBufferView::push` and `pop` as a
 transition system. The two sides interleave at every step; each atomic access is one
 step, each copied byte is one step, and the bytes of a copy may move in any order.
 Between a side's load of the other side's offset and its use, the copy goes stale.
 */
module RingProtocol {
  import opened Integers
  import opened RingFrames

  datatype Producer =
    | Idle
    // `read` is this side's copy of the consumer offset
    | Loaded(packet: Packet, read: nat)
    // `done` holds the frame positions copied so far
    | Copying(packet: Packet, write: nat, done: set<nat>)

  datatype Consumer =
    | Resting
    // `write` is this side's copy of the producer offset
    | Checked(room: nat, write: nat)
    | InHeader(room: nat, read: nat, got: map<nat, u8>)
    | InPayload(id: u16, size: u16, read: nat, got: map<nat, u8>)

  datatype State = State(mem: seq<u8>, writeOffset: nat, readOffset: nat, producer: Producer, consumer: Consumer)

  datatype Action =
    | BeginPush(id: u16, data: seq<u8>)
    | DecidePush
    | CopyByte(k: nat)
    | PublishPush
    | BeginPop(room: nat)
    | DecidePop
    | ReadHeaderByte(k: nat)
    | DecodeHeader
    | ReadPayloadByte(k: nat)
    | PublishPop

  datatype Event =
    | Silent
    | Oversize
    | Refused(packet: Packet)
    | Accepted(packet: Packet)
    | Empty
    | TooSmall(needed: nat, room: nat)
    | Delivered(packet: Packet)

  predicate Init(s: State) {
    && SafeCapacity(|s.mem|)
    && s.writeOffset == 0 && s.readOffset == 0
    && s.producer == Idle && s.consumer == Resting
  }

  /** Memory accesses outside the buffer read zero and write nothing; `CopiesStayInsideAndNeverRace` excludes them. */
  function Fetch(mem: seq<u8>, i: int): u8 {
    if 0 <= i < |mem| then mem[i] else 0
  }

  function Store(mem: seq<u8>, i: int, b: u8): seq<u8> {
    if 0 <= i < |mem| then mem[i := b] else mem
  }

  function Collected(got: map<nat, u8>, n: nat): seq<u8>
    requires forall k: nat :: k < n ==> k in got
  {
    seq(n, k requires 0 <= k < n => got[k])
  }

  predicate Step(s: State, a: Action, e: Event, s': State) {
    |s.mem| > 0 &&
    match a
    case BeginPush(id, data) =>
      && s.producer == Idle
      && if |data| > U16_MAX then e == Oversize && s' == s
         else e == Silent && s' == s.(producer := Loaded(Packet(id, data), s.readOffset))
    case DecidePush =>
      && s.producer.Loaded?
      && var p := s.producer.packet;
         if FreeSpace(s.producer.read, s.writeOffset, |s.mem|) <= HEADER_SIZE + |p.payload| then
           e == Refused(p) && s' == s.(producer := Idle)
         else
           e == Silent && s' == s.(producer := Copying(p, s.writeOffset, {}))
    case CopyByte(k) =>
      && s.producer.Copying?
      && var Copying(p, w, done) := s.producer;
         && k < |Frame(p)| && k !in done
         && e == Silent
         && s' == s.(mem := Store(s.mem, FrameIndex(w, |p.payload|, k, |s.mem|), Frame(p)[k]),
                     producer := Copying(p, w, done + {k}))
    case PublishPush =>
      && s.producer.Copying?
      && var Copying(p, w, done) := s.producer;
         && (forall k: nat :: k < |Frame(p)| ==> k in done)
         && e == Accepted(p)
         && s' == s.(writeOffset := PushedOffset(w, |p.payload|, |s.mem|), producer := Idle)
    case BeginPop(room) =>
      s.consumer == Resting && e == Silent && s' == s.(consumer := Checked(room, s.writeOffset))
    case DecidePop =>
      && s.consumer.Checked?
      && if s.readOffset == s.consumer.write then
           e == Empty && s' == s.(consumer := Resting)
         else
           e == Silent && s' == s.(consumer := InHeader(s.consumer.room, s.readOffset, map[]))
    case ReadHeaderByte(k) =>
      && s.consumer.InHeader?
      && var InHeader(room, r, got) := s.consumer;
         && k < HEADER_SIZE && k !in got
         && e == Silent
         && s' == s.(consumer := InHeader(room, r, got[k := Fetch(s.mem, WrappedIndex(r, HEADER_SIZE, k, |s.mem|))]))
    case DecodeHeader =>
      && s.consumer.InHeader?
      && var InHeader(room, r, got) := s.consumer;
         && (forall k: nat :: k < HEADER_SIZE ==> k in got)
         && var header := Collected(got, HEADER_SIZE);
            var size := HeaderPayloadSize(header);
            if size > room then
              e == TooSmall(size, room) && s' == s.(consumer := Resting)
            else
              e == Silent && s' == s.(consumer := InPayload(HeaderId(header), size, r, map[]))
    case ReadPayloadByte(k) =>
      && s.consumer.InPayload?
      && var InPayload(id, size, r, got) := s.consumer;
         && k < size && k !in got
         && e == Silent
         && var i := WrappedIndex((r + HEADER_SIZE) % |s.mem|, size, k, |s.mem|);
            s' == s.(consumer := InPayload(id, size, r, got[k := Fetch(s.mem, i)]))
    case PublishPop =>
      && s.consumer.InPayload?
      && var InPayload(id, size, r, got) := s.consumer;
         && (forall k: nat :: k < size ==> k in got)
         && e == Delivered(Packet(id, Collected(got, size)))
         && s' == s.(readOffset := PoppedOffset(r, size, |s.mem|), consumer := Resting)
  }

  // ---- What a run has accepted and delivered ----

  function AcceptedBy(log: seq<Event>): seq<Packet> {
    if log == [] then []
    else
      var before := AcceptedBy(log[..|log| - 1]);
      var last := log[|log| - 1];
      if last.Accepted? then before + [last.packet] else before
  }

  function DeliveredBy(log: seq<Event>): seq<Packet> {
    if log == [] then []
    else
      var before := DeliveredBy(log[..|log| - 1]);
      var last := log[|log| - 1];
      if last.Delivered? then before + [last.packet] else before
  }

  /** The FIFO queue the ring stands for: accepted and not yet delivered. */
  function Pending(log: seq<Event>): seq<Packet> {
    if DeliveredBy(log) <= AcceptedBy(log) then AcceptedBy(log)[|DeliveredBy(log)|..] else []
  }

  // ---- The invariant ----

  /** The framed bytes of `q` fill exactly the span from the read offset to the write offset. */
  predicate Holds(s: State, q: seq<Packet>) {
    && s.readOffset < |s.mem| && s.writeOffset < |s.mem|
    && |Frames(q)| == Used(s.readOffset, s.writeOffset, |s.mem|)
    && forall j: nat :: j < |Frames(q)| ==> Fetch(s.mem, Wrap(s.readOffset, j, |s.mem|)) == Frames(q)[j]
  }

  predicate ProducerInv(s: State) {
    var cap := |s.mem|;
    match s.producer
    case Idle => true
    case Loaded(p, read) =>
      // a stale copy can only show less free space than there is
      read < cap && Used(s.readOffset, s.writeOffset, cap) <= Used(read, s.writeOffset, cap)
    case Copying(p, w, done) =>
      && w == s.writeOffset
      && Used(s.readOffset, w, cap) + |Frame(p)| < cap
      && (forall k :: k in done ==> k < |Frame(p)|)
      && forall k :: k in done ==> Fetch(s.mem, Wrap(w, k, cap)) == Frame(p)[k]
  }

  predicate ConsumerInv(s: State, q: seq<Packet>) {
    var cap := |s.mem|;
    match s.consumer
    case Resting => true
    case Checked(room, write) =>
      // a stale copy can only show fewer packets than there are
      write < cap && Used(s.readOffset, write, cap) <= Used(s.readOffset, s.writeOffset, cap)
    case InHeader(room, r, got) =>
      && r == s.readOffset && q != []
      && forall k :: k in got ==> k < HEADER_SIZE && got[k] == Frame(q[0])[k]
    case InPayload(id, size, r, got) =>
      && r == s.readOffset && q != []
      && id == q[0].id && size == |q[0].payload|
      && forall k :: k in got ==> k < size && got[k] == q[0].payload[k]
  }

  predicate Inv(s: State, log: seq<Event>) {
    && SafeCapacity(|s.mem|)
    && DeliveredBy(log) <= AcceptedBy(log)
    && Holds(s, Pending(log))
    && ProducerInv(s)
    && ConsumerInv(s, Pending(log))
  }

  lemma InitInv(s: State)
    requires Init(s)
    ensures Inv(s, [])
  {
  }

  /** What one event does to the queue. */
  lemma PendingStep(log: seq<Event>, e: Event)
    requires DeliveredBy(log) <= AcceptedBy(log)
    requires e.Delivered? ==> Pending(log) != [] && e.packet == Pending(log)[0]
    ensures DeliveredBy(log + [e]) <= AcceptedBy(log + [e])
    ensures Pending(log + [e]) ==
      if e.Accepted? then Pending(log) + [e.packet]
      else if e.Delivered? then Pending(log)[1..]
      else Pending(log)
  {
    assert (log + [e])[..|log|] == log;
    assert AcceptedBy(log) == DeliveredBy(log) + Pending(log);
  }

  /** The bytes of the packet at the head of the queue, where `pop` looks for them. */
  lemma HeadFrame(s: State, q: seq<Packet>)
    requires SafeCapacity(|s.mem|) && Holds(s, q) && q != []
    ensures |Frame(q[0])| <= Used(s.readOffset, s.writeOffset, |s.mem|) < |s.mem|
    ensures forall k: nat :: k < |Frame(q[0])| ==>
      Fetch(s.mem, FrameIndex(s.readOffset, |q[0].payload|, k, |s.mem|)) == Frame(q[0])[k]
  {
    FreeSpaceTest(s.readOffset, s.writeOffset, 0, |s.mem|);
    FrameLayout(s.readOffset, |q[0].payload|, |s.mem|);
    assert Frames(q)[..|Frame(q[0])|] == Frame(q[0]);
    forall k: nat | k < |Frame(q[0])|
      ensures Fetch(s.mem, FrameIndex(s.readOffset, |q[0].payload|, k, |s.mem|)) == Frame(q[0])[k]
    {
      assert Frames(q)[k] == Frame(q[0])[k];
    }
  }

  /** A byte stored in the free part of the circle leaves the stored frames alone. */
  lemma StoreBehindWrite(s: State, q: seq<Packet>, k: nat, b: u8)
    requires |s.mem| > 0 && Holds(s, q) && |Frames(q)| + k < |s.mem|
    ensures Holds(s.(mem := Store(s.mem, Wrap(s.writeOffset, k, |s.mem|), b)), q)
  {
    var cap := |s.mem|;
    FreeSpaceTest(s.readOffset, s.writeOffset, k, cap);
    forall j: nat | j < |Frames(q)|
      ensures Wrap(s.readOffset, j, cap) != Wrap(s.writeOffset, k, cap)
    {
      FreshPosition(s.readOffset, |Frames(q)|, k, j, cap);
    }
  }

  lemma DistinctPositions(w: nat, i: nat, k: nat, cap: nat)
    requires w < cap && i < cap && k < cap && i != k
    ensures Wrap(w, i, cap) != Wrap(w, k, cap)
  {
  }

  /** Byte `k` of a frame that fits goes where the circle has its `k`th free position. */
  lemma FramePosition(s: State, p: Packet, k: nat)
    requires SafeCapacity(|s.mem|) && s.readOffset < |s.mem| && s.writeOffset < |s.mem| && k < |Frame(p)|
    requires Used(s.readOffset, s.writeOffset, |s.mem|) + |Frame(p)| < |s.mem|
    ensures FrameIndex(s.writeOffset, |p.payload|, k, |s.mem|) == Wrap(s.writeOffset, k, |s.mem|)
  {
    FreeSpaceTest(s.readOffset, s.writeOffset, |Frame(p)|, |s.mem|);
    FrameLayout(s.writeOffset, |p.payload|, |s.mem|);
  }

  lemma CopyByteInv(s: State, k: nat, s': State, q: seq<Packet>)
    requires SafeCapacity(|s.mem|) && Holds(s, q) && ProducerInv(s)
    requires Step(s, CopyByte(k), Silent, s')
    ensures Holds(s', q) && ProducerInv(s')
  {
    var Copying(p, w, done) := s.producer;
    var cap := |s.mem|;
    FramePosition(s, p, k);
    hide Frame, FrameIndex, Wrap;
    StoreBehindWrite(s, q, k, Frame(p)[k]);
    assert s'.mem == Store(s.mem, Wrap(w, k, cap), Frame(p)[k]);
    forall i | i in done + {k}
      ensures i < |Frame(p)| && Fetch(s'.mem, Wrap(w, i, cap)) == Frame(p)[i]
    {
      if i != k { DistinctPositions(w, i, k, cap); }
    }
  }

  /** A frame copied in full behind the stored bytes extends the queue once it is published. */
  lemma PublishedFrame(s: State, w: nat, p: Packet, q: seq<Packet>)
    requires SafeCapacity(|s.mem|) && Holds(s, q) && w == s.writeOffset
    requires Used(s.readOffset, w, |s.mem|) + |Frame(p)| < |s.mem|
    requires forall k: nat :: k < |Frame(p)| ==> Fetch(s.mem, Wrap(w, k, |s.mem|)) == Frame(p)[k]
    ensures Holds(s.(writeOffset := PushedOffset(w, |p.payload|, |s.mem|)), q + [p])
  {
    var cap, used, n := |s.mem|, |Frames(q)|, |Frame(p)|;
    FreeSpaceTest(s.readOffset, w, n, cap);
    FrameLayout(w, |p.payload|, cap);
    FramesAppend(q, p);
    var w' := PushedOffset(w, |p.payload|, cap);
    assert w' == Wrap(w, n, cap) && Used(s.readOffset, w', cap) == used + n;
    forall j: nat | j < used + n
      ensures Fetch(s.mem, Wrap(s.readOffset, j, cap)) == (Frames(q) + Frame(p))[j]
    {
      if j >= used {
        assert Wrap(s.readOffset, j, cap) == Wrap(w, j - used, cap);
      }
    }
  }

  lemma PublishPushInv(s: State, s': State, p: Packet, q: seq<Packet>)
    requires SafeCapacity(|s.mem|) && Holds(s, q) && ProducerInv(s) && ConsumerInv(s, q)
    requires Step(s, PublishPush, Accepted(p), s')
    ensures Holds(s', q + [p]) && ConsumerInv(s', q + [p])
  {
    var w := s.producer.write;
    PublishedFrame(s, w, p, q);
    FrameLayout(w, |p.payload|, |s.mem|);
    FreeSpaceTest(s.readOffset, w, |Frame(p)|, |s.mem|);
    if q != [] { assert (q + [p])[0] == q[0]; }
  }

  lemma PublishPopInv(s: State, s': State, p: Packet, q: seq<Packet>)
    requires SafeCapacity(|s.mem|) && Holds(s, q) && ProducerInv(s) && ConsumerInv(s, q)
    requires Step(s, PublishPop, Delivered(p), s')
    ensures q != [] && p == q[0]
    ensures Holds(s', q[1..]) && ProducerInv(s')
  {
    var cap, n := |s.mem|, |Frame(q[0])|;
    assert p == q[0] by { assert p.payload == q[0].payload; }
    HeadFrame(s, q);
    FrameLayout(s.readOffset, |p.payload|, cap);
    FreeSpaceTest(s.readOffset, s.writeOffset, 0, cap);
    assert Used(s'.readOffset, s.writeOffset, cap) == Used(s.readOffset, s.writeOffset, cap) - n;
    forall j: nat | j < |Frames(q[1..])|
      ensures Fetch(s.mem, Wrap(s'.readOffset, j, cap)) == Frames(q[1..])[j]
    {
      assert Wrap(s'.readOffset, j, cap) == Wrap(s.readOffset, n + j, cap);
      assert Frames(q)[n + j] == Frames(q[1..])[j];
    }
  }

  lemma ReadStepInv(s: State, a: Action, s': State, q: seq<Packet>)
    requires SafeCapacity(|s.mem|) && Holds(s, q) && ConsumerInv(s, q)
    requires a.ReadHeaderByte? || a.ReadPayloadByte?
    requires Step(s, a, Silent, s')
    ensures ConsumerInv(s', q)
  {
    HeadFrame(s, q);
    if a.ReadPayloadByte? {
      var i := HEADER_SIZE + a.k;
      assert Frame(q[0])[i] == q[0].payload[a.k];
      assert FrameIndex(s.readOffset, |q[0].payload|, i, |s.mem|)
          == WrappedIndex((s.readOffset + HEADER_SIZE) % |s.mem|, |q[0].payload|, a.k, |s.mem|);
    } else {
      assert FrameIndex(s.readOffset, |q[0].payload|, a.k, |s.mem|)
          == WrappedIndex(s.readOffset, HEADER_SIZE, a.k, |s.mem|);
    }
  }

  lemma DecodeHeaderInv(s: State, e: Event, s': State, q: seq<Packet>)
    requires ConsumerInv(s, q)
    requires Step(s, DecodeHeader, e, s')
    ensures ConsumerInv(s', q)
    ensures e.TooSmall? ==> q != [] && e.needed == |q[0].payload| > e.room
  {
    var header := Collected(s.consumer.got, HEADER_SIZE);
    assert header == Frame(q[0])[..HEADER_SIZE];
    HeaderRoundTrip(q[0]);
  }

  predicate ByProducer(a: Action) {
    a.BeginPush? || a.DecidePush? || a.CopyByte? || a.PublishPush?
  }

  lemma ProducerStepInv(s: State, a: Action, e: Event, s': State, q: seq<Packet>)
    requires SafeCapacity(|s.mem|) && Holds(s, q) && ProducerInv(s) && ConsumerInv(s, q)
    requires ByProducer(a) && Step(s, a, e, s')
    ensures var q' := if e.Accepted? then q + [e.packet] else q;
            !e.Delivered? && Holds(s', q') && ProducerInv(s') && ConsumerInv(s', q')
  {
    match a {
      case BeginPush(_, _) =>
      case DecidePush =>
        FreeSpaceTest(s.producer.read, s.writeOffset, HEADER_SIZE + |s.producer.packet.payload|, |s.mem|);
      case CopyByte(k) => CopyByteInv(s, k, s', q);
      case PublishPush => PublishPushInv(s, s', e.packet, q);
    }
  }

  lemma ConsumerStepInv(s: State, a: Action, e: Event, s': State, q: seq<Packet>)
    requires SafeCapacity(|s.mem|) && Holds(s, q) && ProducerInv(s) && ConsumerInv(s, q)
    requires !ByProducer(a) && Step(s, a, e, s')
    ensures !e.Accepted? && (e.Delivered? ==> q != [] && e.packet == q[0])
    ensures var q' := if e.Delivered? then q[1..] else q;
            Holds(s', q') && ProducerInv(s') && ConsumerInv(s', q')
  {
    match a {
      case BeginPop(_) =>
      case DecidePop =>
        FreeSpaceTest(s.readOffset, s.consumer.write, 0, |s.mem|);
        FreeSpaceTest(s.readOffset, s.writeOffset, 0, |s.mem|);
      case ReadHeaderByte(_) => ReadStepInv(s, a, s', q);
      case DecodeHeader => DecodeHeaderInv(s, e, s', q);
      case ReadPayloadByte(_) => ReadStepInv(s, a, s', q);
      case PublishPop => PublishPopInv(s, s', e.packet, q);
    }
  }

  /** Every step of either side keeps the invariant. */
  lemma StepInv(s: State, log: seq<Event>, a: Action, e: Event, s': State)
    requires Inv(s, log) && Step(s, a, e, s')
    ensures Inv(s', log + [e])
  {
    if ByProducer(a) {
      ProducerStepInv(s, a, e, s', Pending(log));
    } else {
      ConsumerStepInv(s, a, e, s', Pending(log));
    }
    PendingStep(log, e);
  }
}
