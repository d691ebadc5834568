/**
 The byte layout of the shared-memory ring: packets, their framed bytes, and the u32
 offset arithmetic of `push`, `pop`, `write_wrapped` and `read_wrapped`.
 */
module RingFrames {
  import opened Integers

  const HEADER_SIZE: nat := 4

  /** A packet `push` can frame: the payload length must fit the header's u16 field. */
  datatype RawPacket = Packet(id: u16, payload: seq<u8>)
  type Packet = p: RawPacket | |p.payload| <= U16_MAX witness Packet(0, [])

  /** `PacketHeader` as it lies in memory on the little-endian targets. */
  function HeaderBytes(id: u16, size: u16): (b: seq<u8>)
    ensures |b| == HEADER_SIZE
  {
    [id % 0x100, id / 0x100, size % 0x100, size / 0x100]
  }

  /** Read as one little-endian word, the header is the id in the low half and the size in the high one. */
  lemma HeaderIsLittleEndian(id: u16, size: u16)
    ensures var b: seq<int> := HeaderBytes(id, size);
      b[0] + 0x100 * b[1] + 0x1_0000 * b[2] + 0x100_0000 * b[3] == id + 0x1_0000 * size
  {
    assert HeaderBytes(id, size) == [id % 0x100, id / 0x100, size % 0x100, size / 0x100];
  }

  function HeaderId(b: seq<u8>): u16
    requires |b| == HEADER_SIZE
  {
    var high: int := b[1];
    b[0] + 0x100 * high
  }

  function HeaderPayloadSize(b: seq<u8>): u16
    requires |b| == HEADER_SIZE
  {
    var high: int := b[3];
    b[2] + 0x100 * high
  }

  function Frame(p: Packet): (b: seq<u8>)
    ensures |b| == HEADER_SIZE + |p.payload|
  {
    HeaderBytes(p.id, |p.payload|) + p.payload
  }

  function Frames(q: seq<Packet>): seq<u8> {
    if q == [] then [] else Frame(q[0]) + Frames(q[1..])
  }

  lemma HeaderRoundTrip(p: Packet)
    ensures HeaderId(Frame(p)[..HEADER_SIZE]) == p.id
    ensures HeaderPayloadSize(Frame(p)[..HEADER_SIZE]) == |p.payload|
  {
    assert Frame(p)[..HEADER_SIZE] == HeaderBytes(p.id, |p.payload|);
  }

  lemma {:induction false} FramesAppend(q: seq<Packet>, p: Packet)
    ensures Frames(q + [p]) == Frames(q) + Frame(p)
  {
    if q == [] {
      assert (q + [p])[1..] == [];
    } else {
      assert (q + [p])[1..] == q[1..] + [p];
      FramesAppend(q[1..], p);
    }
  }

  /**
   The stored bytes determine the packets: two queues with the same framed bytes are the
   same queue, so reading frames off the ring has only one possible outcome.
   */
  lemma {:induction false} FramesInjective(q: seq<Packet>, r: seq<Packet>)
    requires Frames(q) == Frames(r)
    ensures q == r
  {
    assert forall s: seq<Packet> :: s != [] ==> |Frames(s)| >= HEADER_SIZE;
    if q != [] && r != [] {
      var bytes := Frames(q);
      assert bytes == Frame(q[0]) + Frames(q[1..]) == Frame(r[0]) + Frames(r[1..]);
      assert bytes[..HEADER_SIZE] == Frame(q[0])[..HEADER_SIZE] == Frame(r[0])[..HEADER_SIZE];
      HeaderRoundTrip(q[0]);
      HeaderRoundTrip(r[0]);
      var n := HEADER_SIZE + |q[0].payload|;
      assert bytes[..n] == Frame(q[0]) == Frame(r[0]);
      assert q[0].payload == Frame(q[0])[HEADER_SIZE..] == r[0].payload;
      assert bytes[n..] == Frames(q[1..]) == Frames(r[1..]);
      FramesInjective(q[1..], r[1..]);
      assert q == [q[0]] + q[1..] && r == [r[0]] + r[1..];
    }
  }

  // ---- Offsets ----

  /** The offset `k` bytes after `offset` on a circle of `cap` bytes, for `k` at most one lap. */
  function Wrap(offset: nat, k: nat, cap: nat): int {
    if offset + k < cap then offset + k else offset + k - cap
  }

  /** Bytes published and not yet consumed, as the two offsets show it. */
  function Used(read: nat, write: nat, cap: nat): int {
    if read <= write then write - read else cap - (read - write)
  }

  /** `free_space` as `push` computes it. */
  function FreeSpace(read: nat, write: nat, cap: nat): int {
    if read <= write then (cap - write) + read else read - write
  }

  /**
   Where `write_wrapped`/`read_wrapped` find byte `k` of a block of `size` bytes at `offset`.
   The branch test adds two u32 values, so it wraps at 2^32.
   */
  function WrappedIndex(offset: nat, size: nat, k: nat, cap: nat): int {
    if (offset + size) % U32_LIMIT <= cap then offset + k
    else if k < cap - offset then offset + k
    else k - (cap - offset)
  }

  /** The capacities for which no u32 sum of an offset and a packet part can wrap. */
  predicate SafeCapacity(cap: nat) {
    0 < cap <= U32_LIMIT - U16_MAX
  }

  /**
   The two-chunk copy touches exactly the `size` circle positions from `offset` on, if and
   only if the u32 sum in its branch test does not wrap; when it wraps, the last byte of the
   block falls outside the buffer.
   */
  lemma WrappedCopyStaysInside(offset: nat, size: nat, cap: nat)
    requires offset < cap < U32_LIMIT && size <= cap
    ensures offset + size < U32_LIMIT <==>
            forall k: nat :: k < size ==> WrappedIndex(offset, size, k, cap) == Wrap(offset, k, cap)
    ensures offset + size >= U32_LIMIT ==> WrappedIndex(offset, size, size - 1, cap) >= cap
  {
    if offset + size >= U32_LIMIT {
      assert (offset + size) % U32_LIMIT == offset + size - U32_LIMIT;
      assert WrappedIndex(offset, size, size - 1, cap) != Wrap(offset, size - 1, cap);
    }
  }

  /** Where `push` puts (and `pop` finds) byte `k` of a frame with `n` payload bytes at `offset`. */
  function FrameIndex(offset: nat, n: nat, k: nat, cap: nat): int
    requires cap > 0
  {
    if k < HEADER_SIZE then WrappedIndex(offset, HEADER_SIZE, k, cap)
    else WrappedIndex((offset + HEADER_SIZE) % cap, n, k - HEADER_SIZE, cap)
  }

  /** The next offset after a frame, as `push` computes it (in two steps). */
  function PushedOffset(offset: nat, n: nat, cap: nat): nat
    requires cap > 0
  {
    ((offset + HEADER_SIZE) % cap + n) % cap
  }

  /** The next offset after a frame, as `pop` computes it (in one step). */
  function PoppedOffset(offset: nat, n: nat, cap: nat): nat
    requires cap > 0
  {
    (offset + HEADER_SIZE + n) % cap
  }

  lemma SmallMod(x: nat, cap: nat)
    requires x < cap
    ensures x % cap == x
  {
  }

  lemma ModDropLap(x: nat, cap: nat)
    requires cap <= x < 2 * cap
    ensures x % cap == x - cap
  {
    assert x / cap == 1;
  }

  lemma ModIsWrap(offset: nat, k: nat, cap: nat)
    requires offset < cap && k <= cap
    ensures (offset + k) % cap == Wrap(offset, k, cap)
  {
    if offset + k < cap { SmallMod(offset + k, cap); } else { ModDropLap(offset + k, cap); }
  }

  /** Every frame that passes the free-space test occupies the circle positions after `offset`. */
  lemma FrameLayout(offset: nat, n: nat, cap: nat)
    requires SafeCapacity(cap) && offset < cap && n <= U16_MAX && HEADER_SIZE + n < cap
    ensures forall k: nat :: k < HEADER_SIZE + n ==> FrameIndex(offset, n, k, cap) == Wrap(offset, k, cap)
    ensures PushedOffset(offset, n, cap) == PoppedOffset(offset, n, cap) == Wrap(offset, HEADER_SIZE + n, cap)
  {
    ModIsWrap(offset, HEADER_SIZE, cap);
    var middle := (offset + HEADER_SIZE) % cap;
    ModIsWrap(middle, n, cap);
    ModIsWrap(offset, HEADER_SIZE + n, cap);
    WrappedCopyStaysInside(offset, HEADER_SIZE, cap);
    WrappedCopyStaysInside(middle, n, cap);
  }

  /** `free_space <= total_size` fails exactly when the frame leaves at least one byte unused. */
  lemma FreeSpaceTest(read: nat, write: nat, total: nat, cap: nat)
    requires read < cap && write < cap
    ensures FreeSpace(read, write, cap) > total <==> Used(read, write, cap) + total < cap
    ensures 0 <= Used(read, write, cap) < cap
    ensures write == Wrap(read, Used(read, write, cap), cap)
    ensures Used(read, write, cap) == 0 <==> read == write
  {
  }

  /** Distinct distances from `read`, each below one lap, are distinct positions. */
  lemma FreshPosition(read: nat, used: nat, k: nat, j: nat, cap: nat)
    requires read < cap && used + k < cap && j < used
    ensures Wrap(Wrap(read, used, cap), k, cap) == Wrap(read, used + k, cap) != Wrap(read, j, cap)
  {
  }
}
