/** Base64 (section 4 of RFC 4648): `encode_base64` and `decode_base64`. */
module Base64 {
  import opened Integers

  type sextet = x: int | 0 <= x < 0x40

  predicate IsBase64(c: char) {
    'A' <= c <= 'Z' || 'a' <= c <= 'z' || '0' <= c <= '9' || c == '+' || c == '/'
  }

  function Index(c: char): sextet {
    if 'A' <= c <= 'Z' then c as int - 'A' as int
    else if 'a' <= c <= 'z' then c as int - 'a' as int + 26
    else if '0' <= c <= '9' then c as int - '0' as int + 52
    else if c == '+' then 62
    else if c == '/' then 63
    else 0
  }

  /** Entry `i` of the character table: A-Z, a-z, 0-9, plus, slash. */
  function Char(i: sextet): char {
    if i < 26 then ('A' as int + i) as char
    else if i < 52 then ('a' as int + (i - 26)) as char
    else if i < 62 then ('0' as int + (i - 52)) as char
    else if i == 62 then '+'
    else '/'
  }

  /** The two directions of the alphabet agree. */
  lemma AlphabetInverse(i: sextet)
    ensures IsBase64(Char(i)) && Char(i) != '=' && Index(Char(i)) == i
  {
  }

  lemma IndexInverse(c: char)
    requires IsBase64(c)
    ensures Char(Index(c)) == c
  {
  }

  // ---- Bits: `a << 16 | b << 8 | c` and its four sextets, as sums and quotients ----

  function Triple(b0: u8, b1: u8, b2: u8): nat {
    b0 * 0x1_0000 + b1 * 0x100 + b2
  }

  function Sextet(triple: int, shift: nat): sextet
    requires shift > 0
  {
    triple / shift % 0x40
  }

  const SHIFT_18 := 0x4_0000
  const SHIFT_12 := 0x1000
  const SHIFT_6 := 0x40

  /** `(n0 << 2) | ((n1 & 0x30) >> 4)`. */
  function FirstByte(n0: sextet, n1: sextet): u8 {
    n0 * 4 + n1 / 16
  }

  /** `((n1 & 0x0F) << 4) | ((n2 & 0x3C) >> 2)`. */
  function SecondByte(n1: sextet, n2: sextet): u8 {
    n1 % 16 * 16 + n2 / 4
  }

  /** `((n2 & 0x03) << 6) | n3`. */
  function ThirdByte(n2: sextet, n3: sextet): u8 {
    n2 % 4 * 64 + n3
  }

  /** The sextets of a number are its digits in base 64. */
  lemma SextetDigits(t: int, n0: sextet, n1: sextet, n2: sextet, n3: sextet)
    requires t == n0 * 0x4_0000 + n1 * 0x1000 + n2 * 0x40 + n3
    ensures Sextet(t, SHIFT_18) == n0 && Sextet(t, SHIFT_12) == n1 && Sextet(t, SHIFT_6) == n2 && Sextet(t, 1) == n3
  {
    assert t / 0x4_0000 == n0;
    assert t / 0x1000 == n0 * 0x40 + n1;
    assert t / 0x40 == n0 * 0x1000 + n1 * 0x40 + n2;
  }

  lemma TripleDigits(b0: u8, b1: u8, b2: u8)
    ensures Triple(b0, b1, b2)
         == b0 / 4 * 0x4_0000 + (b0 % 4 * 16 + b1 / 16) * 0x1000 + (b1 % 16 * 4 + b2 / 64) * 0x40 + b2 % 64
  {
  }

  lemma DigitBytes(b0: u8, b1: u8, b2: u8)
    ensures FirstByte(b0 / 4, b0 % 4 * 16 + b1 / 16) == b0
    ensures SecondByte(b0 % 4 * 16 + b1 / 16, b1 % 16 * 4 + b2 / 64) == b1
    ensures ThirdByte(b1 % 16 * 4 + b2 / 64, b2 % 64) == b2
    ensures (b0 % 4 * 16 + b1 / 16) % 16 == b1 / 16 && (b1 % 16 * 4 + b2 / 64) % 4 == b2 / 64
  {
    assert (b0 % 4 * 16 + b1 / 16) / 16 == b0 % 4;
    assert (b1 % 16 * 4 + b2 / 64) / 4 == b1 % 16;
  }

  /** The four sextets of three bytes give the three bytes back. */
  lemma BytesComeBack(b0: u8, b1: u8, b2: u8)
    ensures var t := Triple(b0, b1, b2);
      var n0, n1, n2, n3 := Sextet(t, SHIFT_18), Sextet(t, SHIFT_12), Sextet(t, SHIFT_6), Sextet(t, 1);
      FirstByte(n0, n1) == b0 && SecondByte(n1, n2) == b1 && ThirdByte(n2, n3) == b2
      && n1 % 16 == b1 / 16 && n2 % 4 == b2 / 64
  {
    TripleDigits(b0, b1, b2);
    DigitBytes(b0, b1, b2);
    hide Sextet, FirstByte, SecondByte, ThirdByte, Triple;
    SextetDigits(Triple(b0, b1, b2), b0 / 4, b0 % 4 * 16 + b1 / 16, b1 % 16 * 4 + b2 / 64, b2 % 64);
  }

  lemma ByteDigits(n0: sextet, n1: sextet, n2: sextet, n3: sextet)
    ensures Triple(FirstByte(n0, n1), SecondByte(n1, n2), ThirdByte(n2, n3))
         == n0 * 0x4_0000 + n1 * 0x1000 + n2 * 0x40 + n3
  {
    assert n1 == n1 / 16 * 16 + n1 % 16;
    assert n2 == n2 / 4 * 4 + n2 % 4;
  }

  /** The three bytes of four sextets give the four sextets back. */
  lemma SextetsComeBack(n0: sextet, n1: sextet, n2: sextet, n3: sextet)
    ensures var t := Triple(FirstByte(n0, n1), SecondByte(n1, n2), ThirdByte(n2, n3));
      Sextet(t, SHIFT_18) == n0 && Sextet(t, SHIFT_12) == n1 && Sextet(t, SHIFT_6) == n2 && Sextet(t, 1) == n3
  {
    ByteDigits(n0, n1, n2, n3);
    hide Sextet, FirstByte, SecondByte, ThirdByte, Triple;
    SextetDigits(Triple(FirstByte(n0, n1), SecondByte(n1, n2), ThirdByte(n2, n3)), n0, n1, n2, n3);
  }

  // ---- Encoding ----

  /** The four characters for the one, two or three bytes at the front of `data`. */
  function EncodeGroup(data: seq<u8>): (s: string)
    requires data != []
    ensures |s| == 4
  {
    var b1: u8 := if |data| > 1 then data[1] else 0;
    var b2: u8 := if |data| > 2 then data[2] else 0;
    var t := Triple(data[0], b1, b2);
    [Char(Sextet(t, SHIFT_18)), Char(Sextet(t, SHIFT_12)),
     if |data| > 1 then Char(Sextet(t, SHIFT_6)) else '=',
     if |data| > 2 then Char(Sextet(t, 1)) else '=']
  }

  lemma GroupCharacters(data: seq<u8>, t: int)
    requires data != []
    requires t == Triple(data[0], if |data| > 1 then data[1] else 0, if |data| > 2 then data[2] else 0)
    ensures EncodeGroup(data) == [Char(Sextet(t, SHIFT_18)), Char(Sextet(t, SHIFT_12)),
                                  if |data| > 1 then Char(Sextet(t, SHIFT_6)) else '=',
                                  if |data| > 2 then Char(Sextet(t, 1)) else '=']
  {
    hide Sextet, Char, Triple;
  }

  lemma EncodeStep(data: seq<u8>, i: nat, before: string, c0: char, c1: char, c2: char, c3: char)
    requires i < |data| && EncodeGroup(data[i..]) == [c0, c1, c2, c3]
    ensures before + Encode(data[i..])
         == before + [c0] + [c1] + [c2] + [c3] + (if i + 3 < |data| then Encode(data[i + 3..]) else "")
  {
    hide EncodeGroup;
    assert Rest(data[i..]) == if i + 3 < |data| then data[i + 3..] else [];
    assert Encode([]) == "";
    assert [c0] + [c1] + [c2] + [c3] == [c0, c1, c2, c3];
    assert Encode(data[i..]) == [c0, c1, c2, c3] + (if i + 3 < |data| then Encode(data[i + 3..]) else "");
  }

  function Rest(data: seq<u8>): seq<u8> {
    if |data| <= 3 then [] else data[3..]
  }

  function Encode(data: seq<u8>): string
    decreases |data|
  {
    if data == [] then "" else EncodeGroup(data) + Encode(Rest(data))
  }

  /** Four characters for every three bytes or part of three. */
  lemma {:induction false} EncodedLength(data: seq<u8>)
    ensures |Encode(data)| == (|data| + 2) / 3 * 4
    decreases |data|
  {
    hide EncodeGroup;
    if data != [] {
      EncodedLength(Rest(data));
      GroupsOf(|data|);
    }
  }

  lemma GroupsOf(n: nat)
    requires n > 0
    ensures (n + 2) / 3 == 1 + ((if n <= 3 then 0 else n - 3) + 2) / 3
  {
  }

  /** `n` with the digits of `s`, in base 64, written after it; padding counts as zero. */
  function Base64Number(n: nat, s: string): nat
    decreases |s|
  {
    if s == "" then n else Base64Number(n * 0x40 + Index(s[0]), s[1..])
  }

  /** `n` with the bytes written after it, in base 256. */
  function ByteNumber(n: nat, data: seq<u8>): nat
    decreases |data|
  {
    if data == [] then n else ByteNumber(n * 0x100 + data[0], data[1..])
  }

  /** Filled up with zero bytes to a whole number of groups of three. */
  function Filled(data: seq<u8>): seq<u8> {
    if |data| % 3 == 0 then data else if |data| % 3 == 1 then data + [0, 0] else data + [0]
  }

  /** Encoding rewrites one big number from base 256 to base 64, most significant digit first. */
  lemma {:induction false} SameNumber(n: nat, data: seq<u8>)
    ensures Base64Number(n, Encode(data)) == ByteNumber(n, Filled(data))
    decreases |data|
  {
    if data != [] {
      var b0, b1: u8, b2: u8 := data[0], if |data| > 1 then data[1] else 0, if |data| > 2 then data[2] else 0;
      var t := Triple(b0, b1, b2);
      GroupNumber(n, data, b1, b2);
      FilledStep(data, b1, b2);
      ThreeBytes(n, b0, b1, b2, Filled(Rest(data)));
      hide Index, Filled, Triple, ByteNumber, EncodeGroup, Base64Number;
      SameNumber(n * 0x100_0000 + t, Rest(data));
    }
  }

  lemma FilledStep(data: seq<u8>, b1: u8, b2: u8)
    requires data != []
    requires b1 == (if |data| > 1 then data[1] else 0) && b2 == (if |data| > 2 then data[2] else 0)
    ensures Filled(data) == [data[0], b1, b2] + Filled(Rest(data))
  {
    assert |data| > 3 ==> data == [data[0], b1, b2] + data[3..];
  }

  lemma ThreeBytes(n: nat, b0: u8, b1: u8, b2: u8, rest: seq<u8>)
    ensures ByteNumber(n, [b0, b1, b2] + rest) == ByteNumber(n * 0x100_0000 + Triple(b0, b1, b2), rest)
  {
    var n1, n2 := n * 0x100 + b0, (n * 0x100 + b0) * 0x100 + b1;
    assert ([b0, b1, b2] + rest)[1..] == [b1, b2] + rest;
    assert ([b1, b2] + rest)[1..] == [b2] + rest;
    assert ([b2] + rest)[1..] == rest;
    assert ByteNumber(n1, [b1, b2] + rest) == ByteNumber(n2, [b2] + rest);
  }

  lemma FourDigits(n: nat, c0: char, c1: char, c2: char, c3: char, t: nat, rest: string)
    requires t == Index(c0) * 0x4_0000 + Index(c1) * 0x1000 + Index(c2) * 0x40 + Index(c3)
    ensures Base64Number(n, [c0, c1, c2, c3] + rest) == Base64Number(n * 0x100_0000 + t, rest)
  {
    hide Index;
    var n1 := n * 0x40 + Index(c0);
    var n2 := n1 * 0x40 + Index(c1);
    var n3 := n2 * 0x40 + Index(c2);
    assert ([c0, c1, c2, c3] + rest)[1..] == [c1, c2, c3] + rest;
    assert ([c1, c2, c3] + rest)[1..] == [c2, c3] + rest;
    assert ([c2, c3] + rest)[1..] == [c3] + rest;
    assert ([c3] + rest)[1..] == rest;
    assert Base64Number(n1, [c1, c2, c3] + rest) == Base64Number(n2, [c2, c3] + rest);
    assert Base64Number(n2, [c2, c3] + rest) == Base64Number(n3, [c3] + rest);
  }

  lemma GroupDigits(data: seq<u8>, b1: u8, b2: u8)
    requires data != []
    requires b1 == (if |data| > 1 then data[1] else 0) && b2 == (if |data| > 2 then data[2] else 0)
    ensures var s := EncodeGroup(data);
      Triple(data[0], b1, b2) == Index(s[0]) * 0x4_0000 + Index(s[1]) * 0x1000 + Index(s[2]) * 0x40 + Index(s[3])
  {
    var t := Triple(data[0], b1, b2);
    var x0: sextet, x1: sextet := data[0] / 4, data[0] % 4 * 16 + b1 / 16;
    var x2: sextet, x3: sextet := b1 % 16 * 4 + b2 / 64, b2 % 64;
    TripleDigits(data[0], b1, b2);
    DigitsEnd(|data|, b1, b2);
    hide Triple, Sextet, Index, Char, IsBase64, EncodeGroup;
    SextetDigits(t, x0, x1, x2, x3);
    AlphabetInverse(x0);
    AlphabetInverse(x1);
    AlphabetInverse(x2);
    AlphabetInverse(x3);
    GroupCharacters(data, t);
  }

  lemma DigitsEnd(n: nat, b1: u8, b2: u8)
    ensures n <= 1 && b1 == 0 && b2 == 0 ==> b1 % 16 * 4 + b2 / 64 == 0
    ensures n <= 2 && b2 == 0 ==> b2 % 64 == 0
    ensures Index('=') == 0
  {
  }

  lemma GroupNumber(n: nat, data: seq<u8>, b1: u8, b2: u8)
    requires data != []
    requires b1 == (if |data| > 1 then data[1] else 0) && b2 == (if |data| > 2 then data[2] else 0)
    ensures Base64Number(n, Encode(data))
         == Base64Number(n * 0x100_0000 + Triple(data[0], b1, b2), Encode(Rest(data)))
  {
    GroupDigits(data, b1, b2);
    EncodeFront(data);
    hide Triple, Index, Encode, Base64Number, EncodeGroup;
    var s := EncodeGroup(data);
    FourDigits(n, s[0], s[1], s[2], s[3], Triple(data[0], b1, b2), Encode(Rest(data)));
    assert s == [s[0], s[1], s[2], s[3]];
  }

  lemma EncodeFront(data: seq<u8>)
    requires data != []
    ensures Encode(data) == EncodeGroup(data) + Encode(Rest(data))
  {
  }

  method EncodeBase64(data: seq<u8>) returns (result: string)
    ensures result == Encode(data)
  {
    hide Sextet, Char, Triple, Encode, EncodeGroup;
    result := "";
    var i := 0;
    EncodeNothing();
    assert data[0..] == data;
    while i < |data|
      invariant 0 <= i
      invariant Encode(data) == result + (if i < |data| then Encode(data[i..]) else "")
    {
      ghost var before := result;
      var b0 := data[i];
      var b1: u8 := if i + 1 < |data| then data[i + 1] else 0;
      var b2: u8 := if i + 2 < |data| then data[i + 2] else 0;
      var triple := Triple(b0, b1, b2);
      result := result + [Char(Sextet(triple, SHIFT_18))];
      result := result + [Char(Sextet(triple, SHIFT_12))];
      if i + 1 < |data| {
        result := result + [Char(Sextet(triple, SHIFT_6))];
      } else {
        result := result + ['='];
      }
      if i + 2 < |data| {
        result := result + [Char(Sextet(triple, 1))];
      } else {
        result := result + ['='];
      }
      GroupCharacters(data[i..], triple);
      ghost var s := EncodeGroup(data[i..]);
      EncodeStep(data, i, before, s[0], s[1], s[2], s[3]);
      i := i + 3;
    }
  }

  lemma EncodeNothing()
    ensures Encode([]) == ""
  {
  }

  // ---- Decoding ----

  /** Up to the first padding or foreign character. */
  function ValidPrefix(s: string): (p: string)
    ensures |p| <= |s|
  {
    if s == "" || s[0] == '=' || !IsBase64(s[0]) then "" else [s[0]] + ValidPrefix(s[1..])
  }

  /** Whole groups of four give three bytes; two or three characters left over give one or two. */
  function DecodeChars(s: string): seq<u8> {
    if |s| >= 4 then DecodeGroup(s[0], s[1], s[2], s[3]) + DecodeChars(s[4..])
    else (if |s| > 1 then [FirstByte(Index(s[0]), Index(s[1]))] else [])
         + (if |s| > 2 then [SecondByte(Index(s[1]), Index(s[2]))] else [])
  }

  function DecodeGroup(c0: char, c1: char, c2: char, c3: char): seq<u8> {
    [FirstByte(Index(c0), Index(c1)), SecondByte(Index(c1), Index(c2)), ThirdByte(Index(c2), Index(c3))]
  }

  function Decode(s: string): seq<u8> {
    DecodeChars(ValidPrefix(s))
  }

  method DecodeBase64(data: string) returns (result: seq<u8>)
    ensures result == Decode(data)
  {
    hide Decode, ValidPrefix, DecodeChars, DecodeGroup, Index, FirstByte, SecondByte, ThirdByte, IsBase64;
    result := [];
    var tmpBuf := new char[4];
    var i, k := 0, 0;
    DecodeBegins(data);
    assert tmpBuf[..0] + ValidPrefix(data[0..]) == ValidPrefix(data[0..]);
    while k < |data|
      invariant 0 <= k <= |data| && 0 <= i < 4
      invariant Decode(data) == result + DecodeChars(tmpBuf[..i] + ValidPrefix(data[k..]))
    {
      var c := data[k];
      if c == '=' {
        break;
      }
      if !IsBase64(c) {
        break;
      }
      ghost var after := ValidPrefix(data[k + 1..]);
      PrefixAt(data, k);
      ghost var before := tmpBuf[..i];
      assert before + ValidPrefix(data[k..]) == before + [c] + after;
      tmpBuf[i] := c;
      i := i + 1;
      assert tmpBuf[..i] == before + [c];
      assert Decode(data) == result + DecodeChars(tmpBuf[..i] + after);
      if i == 4 {
        OneGroup(tmpBuf[..], after);
        ghost var done := result;
        var n0, n1 := Index(tmpBuf[0]), Index(tmpBuf[1]);
        var n2, n3 := Index(tmpBuf[2]), Index(tmpBuf[3]);
        GroupBytes(tmpBuf[0], tmpBuf[1], tmpBuf[2], tmpBuf[3]);
        assert tmpBuf[..4] == tmpBuf[..];
        result := result + [FirstByte(n0, n1)];
        result := result + [SecondByte(n1, n2)];
        result := result + [ThirdByte(n2, n3)];
        assert result == done + DecodeGroup(tmpBuf[0], tmpBuf[1], tmpBuf[2], tmpBuf[3]);
        i := 0;
        assert tmpBuf[..0] + after == after;
      }
      k := k + 1;
    }
    PrefixEnds(data, k);
    assert tmpBuf[..i] + "" == tmpBuf[..i];
    ghost var left := tmpBuf[..i];
    LeftOver(left);
    if i > 0 {
      var j := i;
      while j < 4
        invariant i <= j <= 4 && tmpBuf[..i] == left
      {
        tmpBuf[j] := 'A';
        j := j + 1;
      }
      var n0, n1, n2 := Index(tmpBuf[0]), Index(tmpBuf[1]), Index(tmpBuf[2]);
      if i > 1 {
        assert tmpBuf[0] == left[0] && tmpBuf[1] == left[1];
        result := result + [FirstByte(n0, n1)];
      }
      if i > 2 {
        assert tmpBuf[2] == left[2];
        result := result + [SecondByte(n1, n2)];
      }
    }
  }

  lemma DecodeBegins(data: string)
    ensures Decode(data) == DecodeChars(ValidPrefix(data[0..]))
  {
    assert data[0..] == data;
  }

  lemma PrefixAt(data: string, k: nat)
    requires k < |data| && data[k] != '=' && IsBase64(data[k])
    ensures ValidPrefix(data[k..]) == [data[k]] + ValidPrefix(data[k + 1..])
  {
    assert data[k..][1..] == data[k + 1..];
  }

  lemma PrefixEnds(data: string, k: nat)
    requires k <= |data| && (k < |data| ==> data[k] == '=' || !IsBase64(data[k]))
    ensures ValidPrefix(data[k..]) == ""
  {
  }

  lemma GroupBytes(c0: char, c1: char, c2: char, c3: char)
    ensures DecodeGroup(c0, c1, c2, c3) ==
      [FirstByte(Index(c0), Index(c1)), SecondByte(Index(c1), Index(c2)), ThirdByte(Index(c2), Index(c3))]
  {
  }

  /** What the bytes left in the buffer stand for. */
  lemma LeftOver(s: string)
    requires |s| < 4
    ensures DecodeChars(s) == (if |s| > 1 then [FirstByte(Index(s[0]), Index(s[1]))] else [])
                            + (if |s| > 2 then [SecondByte(Index(s[1]), Index(s[2]))] else [])
  {
  }

  lemma OneGroup(group: string, rest: string)
    requires |group| == 4
    ensures DecodeChars(group + rest) == DecodeGroup(group[0], group[1], group[2], group[3]) + DecodeChars(rest)
  {
    assert (group + rest)[4..] == rest;
  }

  // ---- Round trips ----

  /** A whole group of alphabet characters decodes on its own. */
  lemma DecodeStep(s: string)
    requires |s| >= 4 && IsBase64(s[0]) && IsBase64(s[1]) && IsBase64(s[2]) && IsBase64(s[3])
    ensures Decode(s) == DecodeGroup(s[0], s[1], s[2], s[3]) + Decode(s[4..])
  {
    PrefixStep(s);
    PrefixStep(s[1..]);
    PrefixStep(s[2..]);
    PrefixStep(s[3..]);
    hide IsBase64, ValidPrefix, DecodeChars, DecodeGroup;
    assert s[1..][1..] == s[2..] && s[2..][1..] == s[3..] && s[3..][1..] == s[4..];
    assert ValidPrefix(s) == [s[0], s[1], s[2], s[3]] + ValidPrefix(s[4..]);
    OneGroup([s[0], s[1], s[2], s[3]], ValidPrefix(s[4..]));
  }

  lemma PrefixStep(s: string)
    requires s != "" && IsBase64(s[0])
    ensures ValidPrefix(s) == [s[0]] + ValidPrefix(s[1..])
  {
  }

  /** One character missing at the end costs one byte; two cost two. */
  lemma DecodePadded(s: string)
    requires |s| == 4 && IsBase64(s[0]) && IsBase64(s[1]) && s[3] == '='
    ensures IsBase64(s[2]) ==> Decode(s) == [FirstByte(Index(s[0]), Index(s[1])), SecondByte(Index(s[1]), Index(s[2]))]
    ensures s[2] == '=' ==> Decode(s) == [FirstByte(Index(s[0]), Index(s[1]))]
  {
    assert s[1..][1..] == s[2..] && s[2..][1..] == s[3..];
    PrefixStep(s);
    PrefixStep(s[1..]);
    if IsBase64(s[2]) {
      PrefixStep(s[2..]);
      assert ValidPrefix(s) == [s[0], s[1], s[2]];
    } else if s[2] == '=' {
      assert ValidPrefix(s) == [s[0], s[1]];
    }
  }

  /** What one encoded group looks like and decodes to. */
  lemma GroupComesBack(data: seq<u8>)
    requires data != []
    ensures IsBase64(EncodeGroup(data)[0]) && IsBase64(EncodeGroup(data)[1])
    ensures |data| >= 3 ==> WholeGroup(EncodeGroup(data), data[..3])
    ensures |data| == 2 ==> PaddedByOne(EncodeGroup(data), data)
    ensures |data| == 1 ==> PaddedByTwo(EncodeGroup(data), data)
  {
    hide FirstByte, SecondByte, ThirdByte, Sextet, Triple, IsBase64, Index, Char;
    var b1: u8 := if |data| > 1 then data[1] else 0;
    var b2: u8 := if |data| > 2 then data[2] else 0;
    var t := Triple(data[0], b1, b2);
    BytesComeBack(data[0], b1, b2);
    AlphabetInverse(Sextet(t, SHIFT_18));
    AlphabetInverse(Sextet(t, SHIFT_12));
    AlphabetInverse(Sextet(t, SHIFT_6));
    AlphabetInverse(Sextet(t, 1));
  }

  predicate WholeGroup(s: string, bytes: seq<u8>)
    requires |s| == 4
  {
    IsBase64(s[2]) && IsBase64(s[3]) && DecodeGroup(s[0], s[1], s[2], s[3]) == bytes
  }

  predicate PaddedByOne(s: string, bytes: seq<u8>)
    requires |s| == 4
  {
    && IsBase64(s[2]) && s[3] == '=' && Index(s[2]) % 4 == 0
    && bytes == [FirstByte(Index(s[0]), Index(s[1])), SecondByte(Index(s[1]), Index(s[2]))]
  }

  predicate PaddedByTwo(s: string, bytes: seq<u8>)
    requires |s| == 4
  {
    && s[2] == '=' && s[3] == '=' && Index(s[1]) % 16 == 0
    && bytes == [FirstByte(Index(s[0]), Index(s[1]))]
  }

  /** Decoding undoes encoding, for every byte sequence. */
  lemma {:induction false} DecodeEncode(data: seq<u8>)
    ensures Decode(Encode(data)) == data
    decreases |data|
  {
    hide EncodeGroup, Decode, IsBase64, FirstByte, SecondByte, Index, DecodeGroup;
    if data == [] {
      DecodeNothing();
    } else {
      var s, group := Encode(data), EncodeGroup(data);
      GroupComesBack(data);
      if |data| >= 3 {
        DecodeEncode(Rest(data));
        DecodeStep(s);
        assert s[4..] == Encode(Rest(data));
        assert data == data[..3] + Rest(data);
      } else {
        assert Encode(Rest(data)) == "";
        assert s == group;
        DecodePadded(s);
      }
    }
  }

  lemma DecodeNothing()
    ensures Decode("") == []
  {
  }

  /**
   The canonical texts: whole groups of alphabet characters, of which the last may be padded,
   and then the bits its padding leaves over are zero.
   */
  predicate Canonical(s: string) {
    s == "" ||
    (|s| >= 4 && IsBase64(s[0]) && IsBase64(s[1]) &&
     if IsBase64(s[3]) then IsBase64(s[2]) && Canonical(s[4..])
     else
       && |s| == 4 && s[3] == '='
       && if IsBase64(s[2]) then Index(s[2]) % 4 == 0 else s[2] == '=' && Index(s[1]) % 16 == 0)
  }

  lemma {:induction false} EncodedIsCanonical(data: seq<u8>)
    ensures Canonical(Encode(data))
    decreases |data|
  {
    if data != [] {
      var s := Encode(data);
      GroupComesBack(data);
      EncodedIsCanonical(Rest(data));
      hide EncodeGroup, Index;
      assert s[4..] == Encode(Rest(data));
      assert !IsBase64('=');
    }
  }

  /** Re-encoding the bytes of a whole group. */
  lemma GroupAgain(s: string, rest: seq<u8>)
    requires |s| == 4 && IsBase64(s[0]) && IsBase64(s[1]) && IsBase64(s[2]) && IsBase64(s[3])
    ensures Encode(DecodeGroup(s[0], s[1], s[2], s[3]) + rest) == s + Encode(rest)
  {
    hide FirstByte, SecondByte, ThirdByte, Sextet, Triple, IsBase64, Index, Char, Encode;
    IndexInverse(s[0]);
    IndexInverse(s[1]);
    IndexInverse(s[2]);
    IndexInverse(s[3]);
    SextetsComeBack(Index(s[0]), Index(s[1]), Index(s[2]), Index(s[3]));
    var data := DecodeGroup(s[0], s[1], s[2], s[3]) + rest;
    assert Rest(data) == rest;
    assert EncodeGroup(data) == s;
    EncodeFront(data);
  }

  /** Re-encoding the one or two bytes of a padded group. */
  lemma PaddedAgain(s: string)
    requires |s| == 4 && IsBase64(s[0]) && IsBase64(s[1]) && s[3] == '='
    requires if IsBase64(s[2]) then Index(s[2]) % 4 == 0 else s[2] == '=' && Index(s[1]) % 16 == 0
    ensures Encode(Decode(s)) == s
  {
    DecodePadded(s);
    IndexInverse(s[0]);
    IndexInverse(s[1]);
    var n2: sextet := if IsBase64(s[2]) then Index(s[2]) else 0;
    SextetsComeBack(Index(s[0]), Index(s[1]), n2, 0);
    NoBitsLeft(Index(s[1]), n2);
    if IsBase64(s[2]) {
      IndexInverse(s[2]);
    }
    hide FirstByte, SecondByte, ThirdByte, Sextet, Triple, IsBase64, Index, Char, Decode;
    EncodeNothing();
    assert EncodeGroup(Decode(s)) == s;
  }

  lemma NoBitsLeft(n1: sextet, n2: sextet)
    ensures n2 % 4 == 0 ==> ThirdByte(n2, 0) == 0
    ensures n1 % 16 == 0 && n2 == 0 ==> SecondByte(n1, n2) == 0
  {
  }

  lemma {:induction false} EncodeDecode(s: string)
    requires Canonical(s)
    ensures Encode(Decode(s)) == s
  {
    hide IsBase64, Index, Encode, Decode, DecodeGroup;
    if s == "" {
      DecodeNothing();
      EncodeNothing();
    } else if IsBase64(s[3]) {
      DecodeStep(s);
      EncodeDecode(s[4..]);
      GroupAgain(s[..4], Decode(s[4..]));
      assert s == s[..4] + s[4..];
    } else {
      PaddedAgain(s);
    }
  }

  /** Encoding undoes decoding exactly on the canonical texts; no other text is ever produced. */
  lemma EncodeDecodeExactly(s: string)
    ensures Encode(Decode(s)) == s <==> Canonical(s)
  {
    EncodedIsCanonical(Decode(s));
    if Canonical(s) { EncodeDecode(s); }
  }
}
