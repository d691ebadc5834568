/** `StreamReader`: a cursor over bytes it does not change. */
module StreamReaders {
  import opened Integers
  import opened Wrappers
  import opened StreamWriters

  function Min(a: int, b: int): int { if a < b then a else b }

  /** `m_cursor + amount`, which is computed in 64 bits. */
  function Plus(cursor: nat, amount: nat): nat { (cursor + amount) % U64_LIMIT }

  function SkippedTo(size: nat, cursor: nat, amount: nat): nat { Min(Plus(cursor, amount), size) }

  /** Skipping goes forward, or stops at the end, exactly when the sum does not wrap. */
  lemma SkipGoesForward(size: nat, cursor: nat, amount: nat)
    requires cursor <= size <= MAX_VECTOR && amount < U64_LIMIT
    ensures SkippedTo(size, cursor, amount) == Min(cursor + amount, size) <==> cursor + amount < U64_LIMIT
    ensures cursor <= SkippedTo(size, cursor, amount) <==> cursor + amount < U64_LIMIT
  {
    if cursor + amount < U64_LIMIT {
      NoWrap(cursor + amount);
    } else {
      NoWrap(cursor + amount - U64_LIMIT);
      assert Plus(cursor, amount) == cursor + amount - U64_LIMIT;
    }
  }

  /** Skipping by the largest amount from the second byte goes back to the first. */
  lemma SkipCanGoBack()
    ensures SkippedTo(8, 1, 0xFFFF_FFFF_FFFF_FFFF) == 0
  {
    SkipGoesForward(8, 1, 0xFFFF_FFFF_FFFF_FFFF);
  }

  /** Reading pieces of the given sizes one after another. */
  function ReadPieces(data: seq<u8>, cursor: nat, sizes: seq<nat>): (r: Option<seq<seq<u8>>>)
    requires cursor <= |data|
    decreases |sizes|
  {
    if sizes == [] then Some([])
    else if cursor + sizes[0] > |data| then None
    else match ReadPieces(data, cursor + sizes[0], sizes[1..])
      case None => None
      case Some(rest) => Some([data[cursor..cursor + sizes[0]]] + rest)
  }

  function Sizes(chunks: seq<seq<u8>>): seq<nat> {
    seq(|chunks|, i requires 0 <= i < |chunks| => |chunks[i]|)
  }

  lemma FirstPiece(data: seq<u8>, cursor: nat, sizes: seq<nat>, rest: seq<seq<u8>>)
    requires sizes != [] && cursor + sizes[0] <= |data|
    requires ReadPieces(data, cursor + sizes[0], sizes[1..]) == Some(rest)
    ensures ReadPieces(data, cursor, sizes) == Some([data[cursor..cursor + sizes[0]]] + rest)
  {
  }

  lemma Regrouped(before: seq<u8>, piece: seq<u8>, after: seq<u8>, rest: seq<u8>)
    ensures before + (piece + after) + rest == (before + piece) + after + rest
    ensures (before + (piece + after) + rest)[|before|..|before| + |piece|] == piece
  {
  }

  lemma FirstChunk(chunks: seq<seq<u8>>)
    requires chunks != []
    ensures Flatten(chunks) == chunks[0] + Flatten(chunks[1..])
    ensures Sizes(chunks) != [] && Sizes(chunks)[0] == |chunks[0]| && Sizes(chunks)[1..] == Sizes(chunks[1..])
  {
  }

  lemma {:induction false} PiecesComeBack(before: seq<u8>, chunks: seq<seq<u8>>, rest: seq<u8>)
    ensures ReadPieces(before + Flatten(chunks) + rest, |before|, Sizes(chunks)) == Some(chunks)
    decreases |chunks|
  {
    if chunks != [] {
      FirstChunk(chunks);
      hide ReadPieces, Flatten, Sizes;
      Regrouped(before, chunks[0], Flatten(chunks[1..]), rest);
      PiecesComeBack(before + chunks[0], chunks[1..], rest);
      FirstPiece(before + Flatten(chunks) + rest, |before|, Sizes(chunks), chunks[1..]);
      assert chunks == [chunks[0]] + chunks[1..];
    }
  }

  /** Whatever is written in pieces is read back in the same pieces, and then nothing is left. */
  lemma WrittenPiecesComeBack(chunks: seq<seq<u8>>, more: nat)
    ensures var data := WroteAll(Fresh(), chunks).contents;
      && ReadPieces(data, 0, Sizes(chunks)) == Some(chunks)
      && (more > 0 ==> ReadPieces(data, |data|, [more]) == None)
  {
    GrowthIsAmortised(chunks);
    PiecesComeBack([], chunks, []);
    assert [] + Flatten(chunks) + [] == Flatten(chunks);
  }

  class StreamReader {
    const data: array<u8>
    const dataSize: nat
    var cursor: nat

    ghost predicate Valid()
      reads this
    {
      cursor <= dataSize == data.Length <= MAX_VECTOR
    }

    constructor (source: array<u8>)
      requires source.Length <= MAX_VECTOR
      ensures Valid() && data == source && cursor == 0
    {
      data, dataSize := source, source.Length;
      cursor := 0;
    }

    /** `read(buffer, size)`: all of it, or an error and nothing moved. */
    method Read(buffer: array<u8>, size: nat) returns (r: Result<(), string>)
      requires Valid() && size <= buffer.Length <= MAX_VECTOR && buffer != data
      modifies this`cursor, buffer
      ensures Valid()
      ensures r.Ok? <==> old(cursor) + size <= dataSize
      ensures r.Err? ==> cursor == old(cursor) && buffer[..] == old(buffer[..])
      ensures r.Ok? ==> cursor == old(cursor) + size
      ensures r.Ok? ==> buffer[..] == data[old(cursor)..cursor] + old(buffer[size..])
      ensures ReadPieces(data[..], old(cursor), [size]) == if r.Ok? then Some([data[old(cursor)..cursor]]) else None
    {
      hide ReadPieces;
      ghost var all := data[..];
      ReadOne(all, cursor, size);
      NoWrap(cursor + size);
      if Plus(cursor, size) > dataSize {
        return Err("Unexpected EOF while reading");
      }
      forall i | 0 <= i < size {
        buffer[i] := data[cursor + i];
      }
      cursor := cursor + size;
      assert data[..] == all;
      assert data[old(cursor)..cursor] == all[old(cursor)..cursor];
      return Ok(());
    }

    /** `read<T>()`, as the bytes of the value. */
    method ReadValue(size: nat) returns (r: Result<seq<u8>, string>)
      requires Valid() && size <= MAX_VECTOR
      modifies this`cursor
      ensures Valid()
      ensures r.Ok? <==> old(cursor) + size <= dataSize
      ensures cursor == if r.Ok? then old(cursor) + size else old(cursor)
      ensures r.Ok? ==> r.value == data[old(cursor)..cursor]
    {
      NoWrap(cursor + size);
      if Plus(cursor, size) > dataSize {
        return Err("Unexpected EOF while reading");
      }
      var value := data[cursor..cursor + size];
      cursor := cursor + size;
      return Ok(value);
    }

    method Skip(amount: nat)
      requires Valid() && amount < U64_LIMIT
      modifies this`cursor
      ensures Valid() && cursor == SkippedTo(dataSize, old(cursor), amount)
      ensures old(cursor) + amount < U64_LIMIT ==> cursor == Min(old(cursor) + amount, dataSize)
    {
      SkipGoesForward(dataSize, cursor, amount);
      cursor := if Plus(cursor, amount) < dataSize then Plus(cursor, amount) else dataSize;
    }

    method Seek(pos: nat)
      requires Valid() && pos < U64_LIMIT
      modifies this`cursor
      ensures Valid() && cursor == Min(pos, dataSize)
    {
      cursor := if pos > dataSize then dataSize else pos;
    }

    function Remaining(): (n: nat)
      requires Valid()
      reads this
      ensures cursor + n == dataSize
      ensures n == 0 <==> IsEof()
    {
      dataSize - cursor
    }

    predicate IsEof()
      reads this
    {
      cursor >= dataSize
    }
  }

  lemma ReadOne(data: seq<u8>, cursor: nat, size: nat)
    requires cursor <= |data|
    ensures ReadPieces(data, cursor, [size])
         == if cursor + size <= |data| then Some([data[cursor..cursor + size]]) else None
  {
    assert [size][1..] == [];
    if cursor + size <= |data| {
      assert ReadPieces(data, cursor + size, []) == Some([]);
      assert [data[cursor..cursor + size]] + [] == [data[cursor..cursor + size]];
    }
  }
}
