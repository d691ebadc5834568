/** How `IpcManager::spawn_node` cuts one shared-memory block into a header and two rings. */
module SharedMemoryLayouts {
  import opened Integers
  import opened RingFrames
  import opened RingProtocol
  import opened RingTheorems

  const MAGIC: nat := 0x49414950
  const VERSION: nat := 1
  const CACHE_LINE: nat := 64
  // the padded metadata, the two control blocks of two cache lines each, the padded offsets
  const LAYOUT_HEADER_SIZE: nat := CACHE_LINE + 2 * CACHE_LINE + 2 * CACHE_LINE + CACHE_LINE

  /** A stretch of bytes inside the block. */
  datatype Region = Region(offset: u64, size: u64)

  // the fields of the header, in their order
  const META := Region(0, 16)
  const MONI_CONTROL := Region(64, 128)
  const MINO_CONTROL := Region(192, 128)
  const DATA_OFFSETS := Region(320, 32)

  /**
   The first ring begins on the first cache line after the metadata, both control blocks and the
   offset fields, none of which touches another and of which the control blocks share no cache line.
   */
  lemma HeaderHoldsItsFields()
    ensures META.offset + META.size <= MONI_CONTROL.offset
    ensures MONI_CONTROL.offset + MONI_CONTROL.size <= MINO_CONTROL.offset
    ensures MINO_CONTROL.offset + MINO_CONTROL.size <= DATA_OFFSETS.offset
    ensures MONI_CONTROL.offset % CACHE_LINE == MINO_CONTROL.offset % CACHE_LINE == 0
    ensures DATA_OFFSETS.offset + DATA_OFFSETS.size <= LAYOUT_HEADER_SIZE
    ensures forall n :: n % CACHE_LINE == 0 && n >= DATA_OFFSETS.offset + DATA_OFFSETS.size ==> n >= LAYOUT_HEADER_SIZE
    ensures LAYOUT_HEADER_SIZE == 384
  {
  }

  /** The first field of the header spells the name of the format, the second is its version. */
  lemma MagicSpellsItsName()
    ensures [MAGIC / 0x100_0000, MAGIC / 0x1_0000 % 0x100, MAGIC / 0x100 % 0x100, MAGIC % 0x100]
         == ['I' as int, 'A' as int, 'I' as int, 'P' as int]
    ensures VERSION == 1
  {
  }

  class IpcSharedMemoryLayout {
    var magic: u32
    var version: u32
    var totalSize: u64
    var moniDataOffset: u64
    var moniDataSize: u64
    var minoDataOffset: u64
    var minoDataSize: u64

    /** The field assignments of `spawn_node`; every operation is on u64 values. */
    method Assign(sharedMemorySize: u32)
      modifies this
      ensures magic == MAGIC && version == VERSION && totalSize == sharedMemorySize
      ensures Moni() == MoniRegion(sharedMemorySize) && Mino() == MinoRegion(sharedMemorySize)
    {
      magic := MAGIC;
      version := VERSION;
      totalSize := sharedMemorySize;
      var usableBytes := (sharedMemorySize - LAYOUT_HEADER_SIZE) % U64_LIMIT;
      var halfSize := usableBytes / 2;
      halfSize := halfSize - halfSize % 64;
      moniDataOffset := LAYOUT_HEADER_SIZE;
      moniDataSize := halfSize;
      minoDataOffset := LAYOUT_HEADER_SIZE + halfSize;
      minoDataSize := halfSize;
    }

    function Moni(): Region
      reads this
    {
      Region(moniDataOffset, moniDataSize)
    }

    function Mino(): Region
      reads this
    {
      Region(minoDataOffset, minoDataSize)
    }
  }

  function HalfSize(sharedMemorySize: u32): u64 {
    var half := (sharedMemorySize - LAYOUT_HEADER_SIZE) % U64_LIMIT / 2;
    half - half % 64
  }

  function MoniRegion(sharedMemorySize: u32): Region {
    Region(LAYOUT_HEADER_SIZE, HalfSize(sharedMemorySize))
  }

  function MinoRegion(sharedMemorySize: u32): Region {
    Region(LAYOUT_HEADER_SIZE + HalfSize(sharedMemorySize), HalfSize(sharedMemorySize))
  }

  /** Both rings have room, start on cache lines after the header, stay in the block and apart. */
  predicate WellPlaced(moni: Region, mino: Region, blockSize: nat) {
    && 0 < moni.size == mino.size
    && moni.offset % CACHE_LINE == 0 && mino.offset % CACHE_LINE == 0
    && LAYOUT_HEADER_SIZE <= moni.offset
    && moni.offset + moni.size <= mino.offset
    && mino.offset + mino.size <= blockSize
  }

  /**
   The layout is sound exactly for blocks of at least header plus 128 bytes. Below the
   header size the u64 subtraction wraps and the regions leave the block; from there up to
   header plus 127 both rings are empty, which is what makes ring creation fail.
   */
  lemma LayoutSoundness(size: u32)
    ensures WellPlaced(MoniRegion(size), MinoRegion(size), size) <==> size >= LAYOUT_HEADER_SIZE + 128
    ensures HalfSize(size) == 0 <==> LAYOUT_HEADER_SIZE <= size < LAYOUT_HEADER_SIZE + 128
    ensures size < LAYOUT_HEADER_SIZE ==> MoniRegion(size).offset + MoniRegion(size).size > size
    ensures size >= LAYOUT_HEADER_SIZE ==>
              size - 128 < MinoRegion(size).offset + MinoRegion(size).size <= size
  {
    if size >= LAYOUT_HEADER_SIZE {
      assert (size - LAYOUT_HEADER_SIZE) % U64_LIMIT == size - LAYOUT_HEADER_SIZE;
    } else {
      assert (size - LAYOUT_HEADER_SIZE) % U64_LIMIT == size - LAYOUT_HEADER_SIZE + U64_LIMIT;
    }
  }

  /**
   Every block that is large enough gives both rings a capacity below 2^31 for which the
   protocol's u32 sums cannot wrap, so each ring starts in an initial state of the protocol.
   */
  lemma SessionRingsAreInitial(size: u32, moniMem: seq<u8>, minoMem: seq<u8>, offset: nat, part: nat)
    requires size >= LAYOUT_HEADER_SIZE + 128
    requires |moniMem| == MoniRegion(size).size && |minoMem| == MinoRegion(size).size
    ensures |moniMem| == |minoMem| < 0x8000_0000
    ensures Init(State(moniMem, 0, 0, Idle, Resting)) && Init(State(minoMem, 0, 0, Idle, Resting))
    ensures offset < |moniMem| && part <= HEADER_SIZE + U16_MAX ==> offset + part < U32_LIMIT
  {
    LayoutSoundness(size);
  }

  /** Byte `i` of a ring placed at a region, as a byte of the whole block. */
  function InBlock(region: Region, i: int): int { region.offset + i }

  predicate Inside(region: Region, b: int) {
    region.offset <= b < region.offset + region.size
  }

  /**
   Two rings placed in one block never touch each other's bytes: whatever the runs of the two have
   come to, each enabled write or read of one ring hits its own region, in the block and after the
   header, and so no byte of the other's region.
   */
  lemma RingsKeepToTheirRegions(size: u32, region: Region, other: Region,
                                states: seq<State>, actions: seq<Action>, events: seq<Event>, m: nat, i: int)
    requires size >= LAYOUT_HEADER_SIZE + 128
    requires (region, other) in {(MoniRegion(size), MinoRegion(size)), (MinoRegion(size), MoniRegion(size))}
    requires Run(states, actions, events) && m <= |events| && |states[0].mem| == region.size
    requires MayWrite(states[m], i) || MayRead(states[m], i)
    ensures LAYOUT_HEADER_SIZE <= InBlock(region, i) < size
    ensures Inside(region, InBlock(region, i)) && !Inside(other, InBlock(region, i))
  {
    LayoutSoundness(size);
    CopiesStayInsideAndNeverRace(states, actions, events, m, i);
    SameMemory(states, actions, events, m);
    hide Run, MayWrite, MayRead, Live, HalfSize;
  }
}
