/** The 32-bit FNV-1a hash: both overloads, and what one changed byte does to it. */
module Fnv1a {
  import opened Integers
  import opened Words32
  import opened Folding

  const PRIME: u32 := 0x01000193
  const OFFSET: u32 := 0x811c9dc5

  function Mix(hash: u32, b: u8): u32 {
    Times(XorWords(hash, b), PRIME)
  }

  function Hash(bytes: seq<u8>): u32 {
    Fold(Mix, OFFSET, bytes)
  }

  /** A `char` of the targets: a signed byte. */
  type schar = c: int | -128 <= c < 128

  /** `static_cast<u8>(c)`. */
  function AsByte(c: schar): u8 {
    c % 256
  }

  /** A string's bytes as `reinterpret_cast` shows them. */
  function Bytes(s: seq<schar>): seq<u8> {
    seq(|s|, i requires 0 <= i < |s| => AsByte(s[i]))
  }

  /** ASCII characters stand for themselves, the others for 256 more than their signed value. */
  lemma BytesAre(s: seq<schar>)
    ensures |Bytes(s)| == |s|
    ensures forall i :: 0 <= i < |s| ==> var c: int := s[i]; Bytes(s)[i] == if c < 0 then c + 256 else c
  {
  }

  /** The span overload. */
  method HashSpan(data: seq<u8>) returns (hash: u32)
    ensures hash == Hash(data)
  {
    hash := OFFSET;
    var i := 0;
    while i < |data|
      invariant 0 <= i <= |data|
      invariant hash == Fold(Mix, OFFSET, data[..i])
    {
      assert data[..i + 1][..i] == data[..i];
      hash := XorWords(hash, data[i]);
      hash := Times(hash, PRIME);
      i := i + 1;
    }
    assert data[..i] == data;
  }

  /** The string overload gives what the span overload gives on the same bytes. */
  method HashString(s: seq<schar>) returns (hash: u32)
    ensures hash == Hash(Bytes(s))
  {
    hash := OFFSET;
    for i := 0 to |s|
      invariant hash == Fold(Mix, OFFSET, Bytes(s)[..i])
    {
      assert Bytes(s)[..i + 1][..i] == Bytes(s)[..i];
      hash := XorWords(hash, AsByte(s[i]));
      hash := Times(hash, PRIME);
    }
    assert Bytes(s)[..|s|] == Bytes(s);
  }

  lemma MixStateApart(h: u32, g: u32, b: u8)
    requires Mix(h, b) == Mix(g, b)
    ensures h == g
  {
    hide Times, XorWords;
    TimesApart(XorWords(h, b), XorWords(g, b), PRIME, 0x359c449b);
    XorWordsApart(h, g, b);
  }

  lemma MixInputApart(h: u32, a: u8, b: u8)
    requires Mix(h, a) == Mix(h, b)
    ensures a == b
  {
    hide Times, XorWords;
    TimesApart(XorWords(h, a), XorWords(h, b), PRIME, 0x359c449b);
    XorWordsApart(a, b, h);
  }

  /** The multiplier is odd and exclusive or is its own inverse, so a step loses nothing. */
  lemma MixKeepsApart()
    ensures KeepsStatesApart(Mix) && KeepsInputsApart(Mix)
  {
    hide Mix;
    forall h: u32, g: u32, b: u8 | Mix(h, b) == Mix(g, b)
      ensures h == g
    {
      MixStateApart(h, g, b);
    }
    forall h: u32, a: u8, b: u8 | Mix(h, a) == Mix(h, b)
      ensures a == b
    {
      MixInputApart(h, a, b);
    }
  }

  /** Two messages of equal length that differ in exactly one byte never collide. */
  lemma OneByteShows(x: seq<u8>, y: seq<u8>, i: nat)
    requires |x| == |y| && i < |x| && x[i] != y[i]
    requires forall j :: 0 <= j < |x| && j != i ==> x[j] == y[j]
    ensures Hash(x) != Hash(y)
  {
    MixKeepsApart();
    OneChangeShows(Mix, OFFSET, x, y, i);
  }
}
