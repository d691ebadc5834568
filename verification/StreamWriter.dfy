/** The growing byte writer: `StreamWriter`. */
module StreamWriters {
  import opened Integers
  import opened Wrappers

  const INITIAL_CAPACITY := 256
  /** The largest `Vec<u8>`: sizes are bounded by the largest pointer difference. */
  const MAX_VECTOR := 0x7FFF_FFFF_FFFF_FFFF

  /**
   What a writer holds, and what its growths have cost: `copied` adds up the old capacity of every
   growth, which `resize` copies into the new allocation.
   */
  datatype Ledger = Ledger(contents: seq<u8>, capacity: nat, copied: nat, growths: nat)

  function NewCapacity(capacity: nat, required: nat): nat {
    if capacity * 2 > required then capacity * 2 else required
  }

  function Grown(w: Ledger, required: nat): Ledger {
    if required <= w.capacity then w
    else Ledger(w.contents, NewCapacity(w.capacity, required), w.copied + w.capacity, w.growths + 1)
  }

  function Wrote(w: Ledger, bytes: seq<u8>): Ledger {
    Grown(w, |w.contents| + |bytes|).(contents := w.contents + bytes)
  }

  function WroteAll(w: Ledger, chunks: seq<seq<u8>>): Ledger
    decreases |chunks|
  {
    if chunks == [] then w else WroteAll(Wrote(w, chunks[0]), chunks[1..])
  }

  function Fresh(): Ledger { Ledger([], INITIAL_CAPACITY, 0, 0) }

  function Max(a: int, b: int): int { if a > b then a else b }

  function Pow2(n: nat): nat { if n == 0 then 1 else 2 * Pow2(n - 1) }

  lemma {:induction false} AtLeastOne(n: nat)
    ensures Pow2(n) >= 1
  {
    if n > 0 { AtLeastOne(n - 1); }
  }

  function Flatten(chunks: seq<seq<u8>>): seq<u8> {
    if chunks == [] then [] else chunks[0] + Flatten(chunks[1..])
  }

  /** Room is at most twice what is used, and everything copied so far fits in the room now held. */
  predicate Economical(w: Ledger) {
    && |w.contents| <= w.capacity <= Max(INITIAL_CAPACITY, 2 * |w.contents|)
    && w.copied + INITIAL_CAPACITY <= w.capacity
    && INITIAL_CAPACITY * Pow2(w.growths) <= w.capacity
  }

  lemma WroteStaysEconomical(w: Ledger, bytes: seq<u8>)
    requires Economical(w)
    ensures Economical(Wrote(w, bytes))
  {
  }

  lemma WroteIf(owning: bool, w: Ledger, bytes: seq<u8>)
    ensures Wrote(w, bytes) == Grown(w, |w.contents| + |bytes|).(contents := w.contents + bytes)
    ensures Grown(w, |w.contents| + |bytes|).contents == w.contents
    ensures owning && Economical(w) ==> Economical(Wrote(w, bytes))
  {
    if owning && Economical(w) { WroteStaysEconomical(w, bytes); }
  }

  /**
   Over any writes whatever to a new owning writer: nothing written is lost or reordered, the
   capacity is at most twice the contents, growing has copied fewer than two bytes for each byte
   written, and there were at most logarithmically many growths.
   */
  lemma {:induction false} WritesAddUp(w: Ledger, chunks: seq<seq<u8>>)
    requires Economical(w)
    ensures Economical(WroteAll(w, chunks))
    ensures WroteAll(w, chunks).contents == w.contents + Flatten(chunks)
    decreases |chunks|
  {
    if chunks != [] {
      WroteStaysEconomical(w, chunks[0]);
      WritesAddUp(Wrote(w, chunks[0]), chunks[1..]);
      assert w.contents + Flatten(chunks) == (w.contents + chunks[0]) + Flatten(chunks[1..]);
    }
  }

  // ---- What the growths of a run of writes cost, seen from the capacities alone ----

  /** The old capacities of the writes that changed the capacity, added up. */
  function CopiedBy(w: Ledger, chunks: seq<seq<u8>>): nat
    decreases |chunks|
  {
    if chunks == [] then 0
    else
      var w' := Wrote(w, chunks[0]);
      (if w'.capacity == w.capacity then 0 else w.capacity) + CopiedBy(w', chunks[1..])
  }

  /** How many of the writes changed the capacity. */
  function ChangesBy(w: Ledger, chunks: seq<seq<u8>>): nat
    decreases |chunks|
  {
    if chunks == [] then 0
    else
      var w' := Wrote(w, chunks[0]);
      (if w'.capacity == w.capacity then 0 else 1) + ChangesBy(w', chunks[1..])
  }

  /** A write that does not fit makes the capacity the larger of twice the old one and what is needed. */
  lemma WriteMakesRoom(w: Ledger, bytes: seq<u8>)
    requires Economical(w)
    ensures Wrote(w, bytes).capacity ==
      if |w.contents| + |bytes| <= w.capacity then w.capacity else Max(2 * w.capacity, |w.contents| + |bytes|)
    ensures var d := if Wrote(w, bytes).capacity == w.capacity then 0 else 1;
      Wrote(w, bytes).growths == w.growths + d && Wrote(w, bytes).copied == w.copied + d * w.capacity
  {
  }

  /** The ledger says what the growths cost. */
  lemma {:induction false} LedgerIsHonest(w: Ledger, chunks: seq<seq<u8>>)
    requires Economical(w)
    ensures WroteAll(w, chunks).copied == w.copied + CopiedBy(w, chunks)
    ensures WroteAll(w, chunks).growths == w.growths + ChangesBy(w, chunks)
    decreases |chunks|
  {
    hide Economical, Wrote;
    if chunks != [] {
      WriteMakesRoom(w, chunks[0]);
      WroteStaysEconomical(w, chunks[0]);
      LedgerIsHonest(Wrote(w, chunks[0]), chunks[1..]);
    }
  }

  lemma GrowthIsAmortised(chunks: seq<seq<u8>>)
    ensures var w := WroteAll(Fresh(), chunks);
      && w.contents == Flatten(chunks)
      && w.capacity <= Max(256, 2 * |Flatten(chunks)|)
      && CopiedBy(Fresh(), chunks) <= Max(0, 2 * |Flatten(chunks)| - 256)
      && (ChangesBy(Fresh(), chunks) > 0 ==> 256 * Pow2(ChangesBy(Fresh(), chunks)) <= 2 * |Flatten(chunks)|)
  {
    WritesAddUp(Fresh(), chunks);
    LedgerIsHonest(Fresh(), chunks);
    var w := WroteAll(Fresh(), chunks);
    assert w.contents == Flatten(chunks);
    if w.growths > 0 {
      AtLeastOne(w.growths - 1);
      assert Pow2(w.growths) >= 2;
    }
  }

  lemma NoWrap(n: nat)
    requires n < U64_LIMIT
    ensures n % U64_LIMIT == n
  {
  }

  /** The bounds test of both `write` functions, whose sum is computed in 64 bits. */
  predicate Overflows(cursor: nat, count: nat, capacity: nat) {
    (cursor + count) % U64_LIMIT > capacity
  }

  /** The test finds exactly the writes that are too long, if and only if the sum does not wrap. */
  lemma TestIsExact(cursor: nat, count: nat, capacity: nat)
    requires cursor <= capacity <= MAX_VECTOR && count < U64_LIMIT
    ensures (Overflows(cursor, count, capacity) <==> cursor + count > capacity) <==> cursor + count < U64_LIMIT
  {
    if cursor + count < U64_LIMIT {
      NoWrap(cursor + count);
    } else {
      NoWrap(cursor + count - U64_LIMIT);
      assert (cursor + count) % U64_LIMIT == cursor + count - U64_LIMIT;
    }
  }

  /** A write the test lets through although it is far too long. */
  lemma TestCanPass()
    ensures !Overflows(1, 0xFFFF_FFFF_FFFF_FFFF, 4)
  {
    TestIsExact(1, 0xFFFF_FFFF_FFFF_FFFF, 4);
  }

  datatype StorageType = NonOwning | OwningFile | OwningVector

  class StreamWriter {
    var buffer: array<u8>
    var cursor: nat
    var capacity: nat
    var storageType: StorageType
    ghost var copied: nat
    ghost var growths: nat

    ghost predicate InBounds()
      reads this
    {
      cursor <= capacity == buffer.Length <= MAX_VECTOR
    }

    ghost predicate Valid()
      reads this, buffer
    {
      && InBounds()
      && (storageType != NonOwning ==> Economical(View()))
    }

    /** A growth for `count` more bytes asks for no more than a vector can hold. */
    ghost predicate Allocatable(count: nat)
      reads this
    {
      storageType != NonOwning && cursor + count > capacity ==> NewCapacity(capacity, cursor + count) <= MAX_VECTOR
    }

    ghost function View(): Ledger
      reads this, buffer
    {
      Ledger(if cursor <= buffer.Length then buffer[..cursor] else [], capacity, copied, growths)
    }

    constructor ()
      ensures Valid() && fresh(buffer) && storageType == OwningVector && View() == Fresh()
    {
      storageType := OwningVector;
      buffer := new u8[INITIAL_CAPACITY];
      capacity, cursor := INITIAL_CAPACITY, 0;
      copied, growths := 0, 0;
    }

    constructor OverSpan(data: array<u8>)
      requires data.Length <= MAX_VECTOR
      ensures Valid() && storageType == NonOwning && buffer == data
      ensures View() == Ledger([], data.Length, 0, 0)
    {
      storageType := NonOwning;
      buffer := data;
      capacity, cursor := data.Length, 0;
      copied, growths := 0, 0;
    }

    /** Room for `count` more bytes; a writer over a caller's span never grows. */
    method Reserve(count: nat) returns (ok: bool)
      requires InBounds() && cursor + count < U64_LIMIT
      requires Allocatable(count)
      modifies this`buffer, this`capacity, this`copied, this`growths
      ensures InBounds()
      ensures buffer == old(buffer) || fresh(buffer)
      ensures !ok <==> old(storageType == NonOwning && cursor + count > capacity)
      ensures View() == if ok then Grown(old(View()), cursor + count) else old(View())
      ensures ok ==> cursor + count <= capacity
      ensures !ok ==> unchanged(this)
    {
      TestIsExact(cursor, count, capacity);
      NoWrap(cursor + count);
      NoWrap(capacity * 2);
      hide Overflows;
      if Overflows(cursor, count, capacity) {
        if storageType == NonOwning {
          return false;
        }
        var required := (cursor + count) % U64_LIMIT;
        var doubleCap := capacity * 2 % U64_LIMIT;
        var newCapacity := if doubleCap > required then doubleCap else required;
        var resized := new u8[newCapacity](_ => 0);
        forall i | 0 <= i < buffer.Length {
          resized[i] := buffer[i];
        }
        ghost var before := buffer[..cursor];
        copied, growths := copied + capacity, growths + 1;
        buffer := resized;
        capacity := newCapacity;
        assert buffer[..cursor] == before;
      }
      return true;
    }

    /** `write(byte, count)`. */
    method Fill(value: u8, count: nat) returns (r: Result<(), string>)
      requires Valid() && cursor + count < U64_LIMIT
      requires Allocatable(count)
      modifies this, buffer
      ensures Valid() && storageType == old(storageType)
      ensures buffer == old(buffer) || fresh(buffer)
      ensures r.Err? <==> old(storageType == NonOwning && cursor + count > capacity)
      ensures r.Err? ==> unchanged(this) && unchanged(old(buffer))
      ensures r.Ok? ==> View() == Wrote(old(View()), seq(count, _ => value))
    {
      hide Economical, Grown, Wrote, NewCapacity;
      ghost var was, bytes := View(), seq(count, _ => value);
      WroteIf(storageType != NonOwning, was, bytes);
      var ok := Reserve(count);
      if !ok {
        return Err("StreamWriter buffer overflow (NonOwning)");
      }
      forall i | 0 <= i < count {
        buffer[cursor + i] := value;
      }
      cursor := cursor + count;
      assert buffer[..cursor] == was.contents + bytes;
      return Ok(());
    }

    /** `write(buffer, size)`; the bytes come from memory the writer does not own. */
    method WriteBuffer(source: array<u8>, size: nat) returns (r: Result<(), string>)
      requires Valid() && size <= source.Length <= MAX_VECTOR && source != buffer
      requires Allocatable(size)
      modifies this, buffer
      ensures Valid() && storageType == old(storageType)
      ensures buffer == old(buffer) || fresh(buffer)
      ensures r.Err? <==> old(storageType == NonOwning && cursor + size > capacity)
      ensures r.Err? ==> unchanged(this) && unchanged(old(buffer))
      ensures r.Ok? ==> View() == Wrote(old(View()), old(source[..size]))
    {
      hide Economical, Grown, Wrote, NewCapacity;
      ghost var was, bytes := View(), source[..size];
      WroteIf(storageType != NonOwning, was, bytes);
      var ok := Reserve(size);
      if !ok {
        return Err("StreamWriter buffer overflow (NonOwning)");
      }
      forall i | 0 <= i < size {
        buffer[cursor + i] := source[i];
      }
      cursor := cursor + size;
      assert forall i :: 0 <= i < size ==> source[i] == bytes[i];
      assert buffer[..cursor] == was.contents + bytes;
      return Ok(());
    }
  }
}
