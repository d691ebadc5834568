/**
 `RingBufferView` itself: the two views share one control block and one data array, and
 `push` and `pop` change both in place. Its state is a snapshot of the protocol's state, so
 the queue it keeps is the queue the protocol keeps.
 */
module RingBuffers {
  import opened Integers
  import opened Wrappers
  import opened RingFrames
  import opened RingProtocol

  datatype Error =
    | NullControlBlock
    | EmptyBuffer
    | DataTooLarge
    | RingFull
    | BufferTooSmall(needed: nat, provided: nat)

  class ControlBlock {
    var writeOffset: nat
    var readOffset: nat
    var capacity: nat
    ghost var queue: seq<Packet>

    constructor () {
      writeOffset, readOffset, capacity, queue := 0, 0, 0, [];
    }
  }

  class PacketHeader {
    var id: u16
    var payloadSize: u16

    constructor () {
      id, payloadSize := 0, 0;
    }
  }

  /** `mem` with `bytes` laid on the circle from `offset` on. */
  function Overlay(mem: seq<u8>, offset: nat, bytes: seq<u8>): (r: seq<u8>)
    ensures |r| == |mem|
  {
    seq(|mem|, i requires 0 <= i < |mem| =>
      var distance := if i >= offset then i - offset else i + |mem| - offset;
      if 0 <= distance < |bytes| then bytes[distance] else mem[i])
  }

  /** `mem` with the frame of `p` laid on the circle: the header first, the payload after it. */
  function FrameOverlay(mem: seq<u8>, offset: nat, p: Packet): seq<u8>
    requires |mem| > 0
  {
    Overlay(Overlay(mem, offset, HeaderBytes(p.id, |p.payload|)), (offset + HEADER_SIZE) % |mem|, p.payload)
  }

  class RingBufferView {
    const data: array<u8>
    const controlBlock: ControlBlock
    const capacity: nat

    constructor Attach(controlBlock: ControlBlock, buffer: array<u8>, isOwner: bool)
      modifies controlBlock
      ensures data == buffer && this.controlBlock == controlBlock && capacity == buffer.Length % U32_LIMIT
      ensures isOwner ==>
        && controlBlock.writeOffset == controlBlock.readOffset == 0
        && controlBlock.capacity == capacity && controlBlock.queue == []
      ensures !isOwner ==> unchanged(controlBlock)
    {
      this.controlBlock := controlBlock;
      data := buffer;
      capacity := buffer.Length % U32_LIMIT;
      new;
      if isOwner {
        controlBlock.capacity := capacity;
        controlBlock.writeOffset := 0;
        controlBlock.readOffset := 0;
        controlBlock.queue := [];
      }
    }

    /**
     An owner of any buffer whose size is a safe capacity starts with a valid empty queue; a
     second view of the same block and buffer sees the same queue and changes nothing.
     */
    static method Create(controlBlock: ControlBlock?, buffer: array<u8>, isOwner: bool)
        returns (r: Result<RingBufferView, Error>)
      modifies controlBlock
      ensures r.Ok? <==> controlBlock != null && buffer.Length > 0
      ensures r.Ok? ==> fresh(r.value) && r.value.data == buffer && r.value.controlBlock == controlBlock
                        && r.value.capacity == buffer.Length % U32_LIMIT
      ensures r.Ok? && isOwner && SafeCapacity(buffer.Length) ==> r.value.Valid() && r.value.Queue() == []
      ensures controlBlock != null && !(r.Ok? && isOwner) ==> unchanged(controlBlock)
    {
      if controlBlock == null {
        return Err(NullControlBlock);
      }
      if buffer.Length == 0 {
        return Err(EmptyBuffer);
      }
      var view := new RingBufferView.Attach(controlBlock, buffer, isOwner);
      return Ok(view);
    }

    /** The shared memory as the protocol sees it while neither side is inside a call. */
    ghost function Snapshot(): State
      reads this, controlBlock, data
      requires capacity <= data.Length
    {
      State(data[..capacity], controlBlock.writeOffset, controlBlock.readOffset, Idle, Resting)
    }

    ghost predicate Valid()
      reads this, controlBlock, data
    {
      && SafeCapacity(capacity) && capacity <= data.Length
      && Holds(Snapshot(), controlBlock.queue)
    }

    ghost function Queue(): seq<Packet>
      reads controlBlock
    {
      controlBlock.queue
    }

    method WriteWrapped(offset: nat, bytes: seq<u8>)
      requires offset < capacity <= data.Length && |bytes| <= capacity
      requires offset + |bytes| < U32_LIMIT
      modifies data
      ensures data[..capacity] == Overlay(old(data[..capacity]), offset, bytes)
      ensures data[capacity..] == old(data[capacity..])
    {
      if (offset + |bytes|) % U32_LIMIT <= capacity {
        forall i | 0 <= i < |bytes| {
          data[offset + i] := bytes[i];
        }
      } else {
        var firstChunk := capacity - offset;
        var secondChunk := |bytes| - firstChunk;
        forall i | 0 <= i < firstChunk {
          data[offset + i] := bytes[i];
        }
        forall i | 0 <= i < secondChunk {
          data[i] := bytes[firstChunk + i];
        }
      }
    }

    method ReadWrapped(offset: nat, out: array<u8>, size: nat)
      requires offset < capacity <= data.Length && size <= capacity
      requires offset + size < U32_LIMIT
      requires size <= out.Length && out != data
      modifies out
      ensures forall k: nat :: k < size ==> out[k] == Fetch(data[..capacity], Wrap(offset, k, capacity))
      ensures out[size..] == old(out[size..])
    {
      if (offset + size) % U32_LIMIT <= capacity {
        forall i | 0 <= i < size {
          out[i] := data[offset + i];
        }
      } else {
        var firstChunk := capacity - offset;
        var secondChunk := size - firstChunk;
        forall i | 0 <= i < firstChunk {
          out[i] := data[offset + i];
        }
        forall i | 0 <= i < secondChunk {
          out[firstChunk + i] := data[i];
        }
      }
    }

    /** The two copies of a push: the header, then the payload if there is one. */
    method WriteFrame(write: nat, p: Packet)
      requires write < capacity <= data.Length && SafeCapacity(capacity) && |Frame(p)| < capacity
      modifies data
      ensures data[..capacity] == FrameOverlay(old(data[..capacity]), write, p)
      ensures data[capacity..] == old(data[capacity..])
    {
      WriteWrapped(write, HeaderBytes(p.id, |p.payload|));
      ghost var headed := data[..capacity];
      var dataWriteOffset := (write + HEADER_SIZE) % capacity;
      if p.payload != [] {
        WriteWrapped(dataWriteOffset, p.payload);
      }
      assert data[..capacity] == Overlay(headed, dataWriteOffset, p.payload);
    }

    /** The header at the read offset is the head packet's. */
    method ReadHeader(header: PacketHeader)
      requires Valid() && Queue() != []
      modifies header
      ensures header.id == Queue()[0].id && header.payloadSize == |Queue()[0].payload|
    {
      HeadBytes(Snapshot(), Queue());
      var bytes := new u8[HEADER_SIZE];
      ReadWrapped(controlBlock.readOffset, bytes, HEADER_SIZE);
      assert bytes[..] == HeaderBytes(Queue()[0].id, |Queue()[0].payload|);
      header.id := HeaderId(bytes[..]);
      header.payloadSize := HeaderPayloadSize(bytes[..]);
    }

    /**
     With no pop under way, a push succeeds exactly when the payload fits the header's u16 and
     the frame leaves at least one byte of the ring unused; it then appends the packet, and
     otherwise it changes nothing.
     */
    method Push(id: u16, payload: seq<u8>) returns (r: Result<(), Error>)
      requires Valid()
      modifies data, controlBlock
      ensures Valid()
      ensures r.Ok? <==> |payload| <= U16_MAX && |Frames(old(Queue()))| + HEADER_SIZE + |payload| < capacity
      ensures r.Ok? ==> Queue() == old(Queue()) + [Packet(id, payload)]
      ensures r.Err? ==> unchanged(data) && unchanged(controlBlock)
      ensures r.Err? ==> r.error == if |payload| > U16_MAX then DataTooLarge else RingFull
      ensures data[capacity..] == old(data[capacity..]) && controlBlock.capacity == old(controlBlock.capacity)
    {
      SpanIsUsed(Snapshot(), Queue());
      hide Holds, FrameOverlay, PushedOffset;
      if |payload| > U16_MAX {
        return Err(DataTooLarge);
      }
      var totalSize := HEADER_SIZE + |payload|;
      var read := controlBlock.readOffset;
      var write := controlBlock.writeOffset;
      var cap := capacity;
      var freeSpace := if read <= write then (capacity - write) + read else read - write;
      var p: Packet := Packet(id, payload);
      ghost var q, before := Queue(), Snapshot();
      FreeSpaceTest(read, write, totalSize, cap);
      if freeSpace <= totalSize {
        return Err(RingFull);
      }

      WriteFrame(write, p);
      TwoOverlays(before, q, p, data[..capacity]);
      var dataWriteOffset := (write + HEADER_SIZE) % cap;
      var newWriteOffset := (dataWriteOffset + |payload|) % cap;
      controlBlock.writeOffset := newWriteOffset;
      controlBlock.queue := q + [p];
      assert Snapshot() == State(data[..capacity], PushedOffset(write, |payload|, cap), read, Idle, Resting);
      return Ok(());
    }

    /**
     A pop of an empty queue changes nothing. Otherwise it reports the head's header; if the
     payload does not fit `out` the queue and the buffer stay as they were, and else the
     payload is copied out and the packet removed.
     */
    method Pop(header: PacketHeader, out: array<u8>) returns (r: Result<Option<nat>, Error>)
      requires Valid() && out != data
      modifies controlBlock, header, out
      ensures Valid() && unchanged(data)
      ensures r == Ok(None) <==> old(Queue()) == []
      ensures r == Ok(None) ==> unchanged(header) && unchanged(out) && unchanged(controlBlock)
      ensures old(Queue()) != [] ==>
        var head := old(Queue())[0];
        && header.id == head.id && header.payloadSize == |head.payload|
        && if |head.payload| > out.Length then
             r == Err(BufferTooSmall(|head.payload|, out.Length)) && unchanged(controlBlock) && unchanged(out)
           else
             && r == Ok(Some(|head.payload|)) && Queue() == old(Queue())[1..]
             && out[..] == head.payload + old(out[|head.payload|..])
    {
      var write := controlBlock.writeOffset;
      var read := controlBlock.readOffset;
      var cap := capacity;
      ghost var q := Queue();
      FreeSpaceTest(read, write, 0, cap);
      EmptySpan(Snapshot(), q);
      if read == write {
        return Ok(None);
      }

      ReadHeader(header);
      HeadBytes(Snapshot(), q);
      if header.payloadSize > out.Length {
        return Err(BufferTooSmall(header.payloadSize, out.Length));
      }

      if header.payloadSize > 0 {
        var dataReadOffset := (read + HEADER_SIZE) % cap;
        ReadWrapped(dataReadOffset, out, header.payloadSize);
      }
      assert out[..] == q[0].payload + old(out[|q[0].payload|..]);
      var newReadOffset := (read + HEADER_SIZE + header.payloadSize) % cap;
      HeadConsumed(Snapshot(), q);
      controlBlock.readOffset := newReadOffset;
      controlBlock.queue := q[1..];
      return Ok(Some(header.payloadSize));
    }
  }

  lemma SpanIsUsed(s: State, q: seq<Packet>)
    requires Holds(s, q)
    ensures s.readOffset < |s.mem| && s.writeOffset < |s.mem|
    ensures |Frames(q)| == Used(s.readOffset, s.writeOffset, |s.mem|)
  {
  }

  lemma EmptySpan(s: State, q: seq<Packet>)
    requires Holds(s, q)
    ensures q == [] <==> s.readOffset == s.writeOffset
  {
  }

  /** What `pop`'s two reads find: the head packet's header, then its payload. */
  lemma HeadBytes(s: State, q: seq<Packet>)
    requires SafeCapacity(|s.mem|) && Holds(s, q) && q != []
    ensures forall k: nat :: k < HEADER_SIZE ==>
      Fetch(s.mem, Wrap(s.readOffset, k, |s.mem|)) == HeaderBytes(q[0].id, |q[0].payload|)[k]
    ensures var middle := (s.readOffset + HEADER_SIZE) % |s.mem|;
      forall k: nat :: k < |q[0].payload| ==> Fetch(s.mem, Wrap(middle, k, |s.mem|)) == q[0].payload[k]
    ensures HEADER_SIZE + |q[0].payload| < |s.mem|
  {
    var cap, n := |s.mem|, |q[0].payload|;
    var middle := (s.readOffset + HEADER_SIZE) % cap;
    HeadFrame(s, q);
    FrameLayout(s.readOffset, n, cap);
    ModIsWrap(s.readOffset, HEADER_SIZE, cap);
    forall k: nat | k < |Frame(q[0])|
      ensures Fetch(s.mem, Wrap(s.readOffset, k, cap)) == Frame(q[0])[k]
    {
      assert FrameIndex(s.readOffset, n, k, cap) == Wrap(s.readOffset, k, cap);
    }
    forall k: nat | k < n
      ensures Fetch(s.mem, Wrap(middle, k, cap)) == q[0].payload[k]
    {
      assert Wrap(middle, k, cap) == Wrap(s.readOffset, HEADER_SIZE + k, cap);
      assert Frame(q[0])[HEADER_SIZE + k] == q[0].payload[k];
    }
  }

  /** Reading past the head frame leaves the rest of the queue stored. */
  lemma HeadConsumed(s: State, q: seq<Packet>)
    requires SafeCapacity(|s.mem|) && Holds(s, q) && q != []
    ensures Holds(s.(readOffset := PoppedOffset(s.readOffset, |q[0].payload|, |s.mem|)), q[1..])
  {
    var got := map k: nat | k < |q[0].payload| :: q[0].payload[k];
    var t := s.(producer := Idle, consumer := InPayload(q[0].id, |q[0].payload|, s.readOffset, got));
    assert Collected(got, |q[0].payload|) == q[0].payload;
    var t' := t.(readOffset := PoppedOffset(s.readOffset, |q[0].payload|, |s.mem|), consumer := Resting);
    PublishPopInv(t, t', q[0], q);
  }

  /** Byte `k` of a frame laid on the circle, and every byte outside it. */
  lemma OverlaidFrame(mem: seq<u8>, w: nat, p: Packet, k: nat)
    requires w < |mem| && |Frame(p)| < |mem| && k < |mem|
    ensures Fetch(FrameOverlay(mem, w, p), Wrap(w, k, |mem|)) ==
            if k < |Frame(p)| then Frame(p)[k] else Fetch(mem, Wrap(w, k, |mem|))
  {
    ModIsWrap(w, HEADER_SIZE, |mem|);
  }

  /** A frame laid behind the stored bytes extends the queue once it is published. */
  lemma TwoOverlays(s: State, q: seq<Packet>, p: Packet, mem: seq<u8>)
    requires SafeCapacity(|s.mem|) && Holds(s, q)
    requires |Frames(q)| + |Frame(p)| < |s.mem|
    requires mem == FrameOverlay(s.mem, s.writeOffset, p)
    ensures Holds(s.(mem := mem, writeOffset := PushedOffset(s.writeOffset, |p.payload|, |s.mem|)), q + [p])
  {
    var cap, w, used := |s.mem|, s.writeOffset, |Frames(q)|;
    FreeSpaceTest(s.readOffset, w, |Frame(p)|, cap);
    forall k: nat | k < |Frame(p)|
      ensures Fetch(mem, Wrap(w, k, cap)) == Frame(p)[k]
    {
      OverlaidFrame(s.mem, w, p, k);
    }
    forall j: nat | j < used
      ensures Fetch(mem, Wrap(s.readOffset, j, cap)) == Frames(q)[j]
    {
      assert Wrap(s.readOffset, j, cap) == Wrap(w, cap - used + j, cap);
      OverlaidFrame(s.mem, w, p, cap - used + j);
    }
    PublishedFrame(s.(mem := mem), w, p, q);
  }
}
