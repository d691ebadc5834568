/** The connection descriptor that the manager passes to a spawned node on its command line. */
module ConnectionDescriptors {
  import opened Integers
  import opened Wrappers
  import opened ArgumentTokenizer

  datatype Descriptor = Descriptor(socketPath: string, sharedMemPath: string, sharedMemSize: u32)

  // ---- Decimal numbers ----

  predicate IsDigit(c: char) {
    '0' <= c <= '9'
  }

  /** `std::format("{}", n)`. */
  function Digits(n: nat): (s: string)
    ensures s != "" && forall i :: 0 <= i < |s| ==> IsDigit(s[i])
  {
    if n < 10 then [('0' as int + n) as char] else Digits(n / 10) + [('0' as int + n % 10) as char]
  }

  function Value(s: string): (n: int)
    requires forall i :: 0 <= i < |s| ==> IsDigit(s[i])
    ensures n >= 0
  {
    assert s != "" ==> IsDigit(s[|s| - 1]);
    if s == "" then 0 else 10 * Value(s[..|s| - 1]) + (s[|s| - 1] as int - '0' as int)
  }

  /** The length of the longest prefix of digits. */
  function DigitCount(s: string): (k: nat)
    ensures k <= |s| && (forall i :: 0 <= i < k ==> IsDigit(s[i])) && (k < |s| ==> !IsDigit(s[k]))
  {
    if s == "" || !IsDigit(s[0]) then 0 else 1 + DigitCount(s[1..])
  }

  /** `std::from_chars` into a u32: the longest digit prefix, an error if it is empty or too large. */
  function FromChars(s: string): Option<u32> {
    var k := DigitCount(s);
    if k == 0 || Value(s[..k]) > 0xFFFF_FFFF then None else Some(Value(s[..k]))
  }

  lemma {:induction false} ValueOfDigits(n: nat)
    ensures Value(Digits(n)) == n
  {
    if n < 10 {
      assert Digits(n)[..0] == "";
    } else {
      ValueOfDigits(n / 10);
      assert Digits(n)[..|Digits(n)| - 1] == Digits(n / 10);
    }
  }

  /** No decimal text of a number is shorter than the printed one. */
  lemma {:induction false} DigitsAreShortest(s: string)
    requires s != "" && forall i :: 0 <= i < |s| ==> IsDigit(s[i])
    ensures |Digits(Value(s))| <= |s|
  {
    if Value(s) >= 10 {
      DigitsAreShortest(s[..|s| - 1]);
    }
  }

  lemma FromPrintedChars(n: u32)
    ensures FromChars(Digits(n)) == Some(n)
  {
    var s := Digits(n);
    assert DigitCount(s) == |s|;
    assert s[..|s|] == s;
    ValueOfDigits(n);
  }

  // ---- The descriptor as text ----

  function Serialize(d: Descriptor): string {
    d.socketPath + "|" + d.sharedMemPath + "|" + Digits(d.sharedMemSize) + "|"
  }

  predicate NoBar(s: string) {
    forall i :: 0 <= i < |s| ==> s[i] != '|'
  }

  /** The text before the first bar and the text after it. */
  function Cut(s: string): Option<(string, string)> {
    var k := BarIndex(s);
    if k == |s| then None else Some((s[..k], s[k + 1..]))
  }

  function BarIndex(s: string): (k: nat)
    ensures k <= |s| && NoBar(s[..k]) && (k < |s| ==> s[k] == '|')
  {
    if s == "" || s[0] == '|' then 0
    else
      assert s[..1 + BarIndex(s[1..])] == [s[0]] + s[1..][..BarIndex(s[1..])];
      1 + BarIndex(s[1..])
  }

  /** Three fields, each ended by the first bar after it; what follows the third bar is ignored. */
  function Deserialized(s: string): Option<Descriptor> {
    match Cut(s)
    case None => None
    case Some((socketPath, rest)) =>
      match Cut(rest)
      case None => None
      case Some((sharedMemPath, rest')) =>
        match Cut(rest')
        case None => None
        case Some((size, _)) =>
          match FromChars(size)
          case None => None
          case Some(n) => Some(Descriptor(socketPath, sharedMemPath, n))
  }

  datatype ParseState = SocketPath | SharedMemPath | SharedMemSize

  method Deserialize(data: string) returns (r: Option<Descriptor>)
    ensures r == Deserialized(data)
  {
    hide Cut, FromChars;
    var socketPath, sharedMemPath := "", "";
    var t := 0;
    var state := SocketPath;
    ghost var second := "";
    for i := 0 to |data|
      invariant 0 <= t <= i && NoBar(data[t..i])
      invariant match state
        case SocketPath => t == 0
        case SharedMemPath => Cut(data) == Some((socketPath, data[t..]))
        case SharedMemSize => Cut(data) == Some((socketPath, second)) && Cut(second) == Some((sharedMemPath, data[t..]))
    {
      if data[i] != '|' {
        assert data[t..i + 1] == data[t..i] + [data[i]];
        continue;
      }
      assert data[t..][..i - t] == data[t..i] && data[t..][i - t + 1..] == data[i + 1..];
      CutHere(data[t..], i - t);
      match state {
        case SocketPath =>
          assert data[t..] == data;
          socketPath := data[t..i];
          state := SharedMemPath;
        case SharedMemPath =>
          second := data[t..];
          sharedMemPath := data[t..i];
          state := SharedMemSize;
        case SharedMemSize =>
          match FromChars(data[t..i]) {
            case None => return None;
            case Some(n) => return Some(Descriptor(socketPath, sharedMemPath, n));
          }
      }
      t := i + 1;
      assert data[t..i + 1] == "";
    }
    assert data[t..|data|] == data[t..] && (t == 0 ==> data[t..] == data);
    CutNowhere(data[t..]);
    return None;
  }

  lemma CutHere(s: string, k: nat)
    requires k < |s| && s[k] == '|' && NoBar(s[..k])
    ensures Cut(s) == Some((s[..k], s[k + 1..]))
  {
    assert forall i :: 0 <= i < k ==> s[i] == s[..k][i];
    assert forall i :: 0 <= i < BarIndex(s) ==> s[i] == s[..BarIndex(s)][i];
  }

  lemma CutNowhere(s: string)
    requires NoBar(s)
    ensures Cut(s) == None
  {
  }

  // ---- Round trip ----

  /** A field followed by a bar is cut off exactly, if it holds no bar itself. */
  lemma CutField(field: string, rest: string)
    requires NoBar(field)
    ensures Cut(field + "|" + rest) == Some((field, rest))
  {
    var s := field + "|" + rest;
    assert s[..|field|] == field && s[|field| + 1..] == rest;
    CutHere(s, |field|);
  }

  lemma SerializedComesBack(d: Descriptor)
    requires NoBar(d.socketPath) && NoBar(d.sharedMemPath)
    ensures Deserialized(Serialize(d)) == Some(d)
  {
    var size := Digits(d.sharedMemSize);
    var rest' := size + "|" + "";
    var rest := d.sharedMemPath + "|" + rest';
    assert Serialize(d) == d.socketPath + "|" + rest;
    CutField(d.socketPath, rest);
    CutField(d.sharedMemPath, rest');
    CutField(size, "");
    FromPrintedChars(d.sharedMemSize);
  }

  /** A text that reads as `d` holds `d`'s fields, bar-free, and is no shorter than `d` serialised. */
  lemma ReadsAs(s: string, d: Descriptor)
    requires Deserialized(s) == Some(d)
    ensures NoBar(d.socketPath) && NoBar(d.sharedMemPath)
    ensures d.socketPath + "|" + d.sharedMemPath + "|" <= s
    ensures |s| >= |Serialize(d)|
  {
    hide Cut, FromChars, Digits;
    var rest := Cut(s).value.1;
    var rest' := Cut(rest).value.1;
    var size := Cut(rest').value.0;
    CutInverse(s);
    CutInverse(rest);
    CutInverse(rest');
    FromCharsLength(size);
    assert s == d.socketPath + "|" + d.sharedMemPath + "|" + rest';
  }

  lemma CutInverse(s: string)
    requires Cut(s).Some?
    ensures NoBar(Cut(s).value.0) && s == Cut(s).value.0 + "|" + Cut(s).value.1
  {
  }

  lemma FromCharsLength(s: string)
    requires FromChars(s).Some?
    ensures |s| >= |Digits(FromChars(s).value)|
  {
    DigitsAreShortest(s[..DigitCount(s)]);
  }

  /** The paths, then decimal digits, then anything without a digit in front, each field ended by a bar. */
  predicate WrittenAs(s: string, d: Descriptor, digits: string, junk: string, rest: string) {
    && s == d.socketPath + "|" + (d.sharedMemPath + "|" + (digits + junk + "|" + rest))
    && NoBar(d.socketPath) && NoBar(d.sharedMemPath) && NoBar(junk)
    && digits != "" && (forall i :: 0 <= i < |digits| ==> IsDigit(digits[i]))
    && Value(digits) == d.sharedMemSize && (junk != "" ==> !IsDigit(junk[0]))
  }

  lemma WrittenReads(s: string, d: Descriptor, digits: string, junk: string, rest: string)
    requires WrittenAs(s, d, digits, junk, rest)
    ensures Deserialized(s) == Some(d)
  {
    var size := digits + junk;
    CutField(d.socketPath, d.sharedMemPath + "|" + (size + "|" + rest));
    CutField(d.sharedMemPath, size + "|" + rest);
    CutField(size, rest);
    DigitsThenJunk(digits, junk);
    hide Cut, DigitCount, Value;
  }

  lemma {:induction false} DigitsThenJunk(digits: string, junk: string)
    requires (forall i :: 0 <= i < |digits| ==> IsDigit(digits[i])) && (junk != "" ==> !IsDigit(junk[0]))
    ensures DigitCount(digits + junk) == |digits| && (digits + junk)[..|digits|] == digits
  {
    if digits == "" {
      assert digits + junk == junk;
    } else {
      assert (digits + junk)[1..] == digits[1..] + junk;
      DigitsThenJunk(digits[1..], junk);
    }
  }

  lemma ReadsWritten(s: string, d: Descriptor) returns (digits: string, junk: string, rest: string)
    requires Deserialized(s) == Some(d)
    ensures WrittenAs(s, d, digits, junk, rest)
  {
    var rest1 := Cut(s).value.1;
    var rest2 := Cut(rest1).value.1;
    var size := Cut(rest2).value.0;
    rest := Cut(rest2).value.1;
    CutInverse(s);
    CutInverse(rest1);
    CutInverse(rest2);
    hide Cut, Value, FromChars, DigitCount;
    digits, junk := size[..DigitCount(size)], size[DigitCount(size)..];
    DigitsInFront(size);
  }

  lemma DigitsInFront(s: string)
    requires FromChars(s).Some?
    ensures DigitCount(s) > 0 && Value(s[..DigitCount(s)]) == FromChars(s).value
    ensures s == s[..DigitCount(s)] + s[DigitCount(s)..]
  {
  }

  /** Exactly the texts of that form are read, as the descriptor that they name; all others are refused. */
  lemma ReadsExactly(s: string, d: Descriptor)
    ensures Deserialized(s) == Some(d) <==> exists digits, junk, rest :: WrittenAs(s, d, digits, junk, rest)
  {
    hide Deserialized, WrittenAs;
    if Deserialized(s) == Some(d) {
      var digits, junk, rest := ReadsWritten(s, d);
    }
    if digits, junk, rest :| WrittenAs(s, d, digits, junk, rest) {
      WrittenReads(s, d, digits, junk, rest);
    }
  }

  /** Deserialising undoes serialising exactly for descriptors whose paths hold no bar. */
  lemma RoundTrip(d: Descriptor)
    ensures Deserialized(Serialize(d)) == Some(d) <==> NoBar(d.socketPath) && NoBar(d.sharedMemPath)
  {
    if NoBar(d.socketPath) && NoBar(d.sharedMemPath) { SerializedComesBack(d); }
    if Deserialized(Serialize(d)) == Some(d) { ReadsAs(Serialize(d), d); }
  }

  // ---- The whole handshake ----

  /** A `char *` shows a string up to its first NUL. */
  function CString(s: string): string {
    if s == "" || s[0] == '\0' then "" else [s[0]] + CString(s[1..])
  }

  /** What the spawned node connects to: its first argument, if it got one. */
  function Handshake(d: Descriptor): Option<Descriptor> {
    var args := Tokens("\"" + Serialize(d) + "\"");
    if args == [] then None else Deserialized(CString(args[0]))
  }

  predicate CleanChar(c: char) {
    c != '|' && c != '"' && c != '\\' && c != '\0'
  }

  predicate Clean(s: string) {
    forall i :: 0 <= i < |s| ==> CleanChar(s[i])
  }

  lemma {:induction false} CStringFacts(s: string)
    ensures CString(s) <= s
    ensures forall i :: 0 <= i < |CString(s)| ==> CString(s)[i] != '\0'
    ensures (forall i :: 0 <= i < |s| ==> s[i] != '\0') ==> CString(s) == s
  {
    if s != "" && s[0] != '\0' {
      CStringFacts(s[1..]);
      assert s == [s[0]] + s[1..];
    }
  }

  lemma CleanPasses(d: Descriptor)
    requires Clean(d.socketPath) && Clean(d.sharedMemPath)
    ensures Handshake(d) == Some(d)
  {
    var s := Serialize(d);
    assert Plain(s) && forall i :: 0 <= i < |s| ==> s[i] != '\0' by { SerializedChars(d); }
    PlainTextPasses(s);
    CStringFacts(s);
    SerializedComesBack(d);
  }

  lemma SerializedChars(d: Descriptor)
    ensures forall i :: 0 <= i < |Serialize(d)| ==>
      || CleanChar(Serialize(d)[i]) || Serialize(d)[i] == '|'
      || Serialize(d)[i] in d.socketPath || Serialize(d)[i] in d.sharedMemPath
  {
    var s := Serialize(d);
    forall i | 0 <= i < |s|
      ensures CleanChar(s[i]) || s[i] == '|' || s[i] in d.socketPath || s[i] in d.sharedMemPath
    {
      var a, b := |d.socketPath|, |d.sharedMemPath|;
      if i < a {
        assert s[i] == d.socketPath[i];
      } else if a < i < a + 1 + b {
        assert s[i] == d.sharedMemPath[i - a - 1];
      } else if a + 1 + b < i < |s| - 1 {
        assert s[i] == Digits(d.sharedMemSize)[i - a - b - 2];
      }
    }
  }

  lemma PassingIsClean(d: Descriptor)
    requires Handshake(d) == Some(d)
    ensures Clean(d.socketPath) && Clean(d.sharedMemPath)
  {
    hide Tokens, Deserialized, Digits, CString;
    var s := Serialize(d);
    var args := Tokens("\"" + s + "\"");
    var seen := CString(args[0]);
    CStringFacts(args[0]);
    ReadsAs(seen, d);
    if !Plain(s) {
      SpecialTextShrinks(s, 0);
    }
    FieldsAreClean(s, seen, d.socketPath, d.sharedMemPath);
  }

  lemma FieldsAreClean(s: string, seen: string, socket: string, shm: string)
    requires socket + "|" + shm + "|" <= s && socket + "|" + shm + "|" <= seen
    requires Plain(s) && (forall i :: 0 <= i < |seen| ==> seen[i] != '\0')
    requires NoBar(socket) && NoBar(shm)
    ensures Clean(socket) && Clean(shm)
  {
    forall i | 0 <= i < |socket|
      ensures CleanChar(socket[i])
    {
      assert socket[i] == s[i] == seen[i];
    }
    forall i | 0 <= i < |shm|
      ensures CleanChar(shm[i])
    {
      var j := |socket| + 1 + i;
      assert shm[i] == s[j] == seen[j];
    }
  }

  /**
   The node receives the manager's descriptor through the quoted command line, the
   tokenizer, the C string and the parser if and only if neither path holds a bar, a quote,
   a backslash or a NUL.
   */
  lemma HandshakeSucceeds(d: Descriptor)
    ensures Handshake(d) == Some(d) <==> Clean(d.socketPath) && Clean(d.sharedMemPath)
  {
    if Clean(d.socketPath) && Clean(d.sharedMemPath) { CleanPasses(d); }
    if Handshake(d) == Some(d) { PassingIsClean(d); }
  }

  /** The descriptor `spawn_node` makes for a session. */
  function SessionDescriptor(sid: u32, size: u32): Descriptor {
    Descriptor("/tmp/ia_sess_" + Digits(sid) + ".sock", "ia_shm_" + Digits(sid), size)
  }

  /** Every session the manager can start gets its descriptor across. */
  lemma EverySessionConnects(sid: u32, size: u32)
    ensures Handshake(SessionDescriptor(sid, size)) == Some(SessionDescriptor(sid, size))
  {
    var d := SessionDescriptor(sid, size);
    forall c | IsDigit(c)
      ensures CleanChar(c)
    {
    }
    assert Clean("/tmp/ia_sess_") && Clean(".sock") && Clean("ia_shm_") && Clean(Digits(sid));
    HandshakeSucceeds(d);
  }

  /** The node gets the manager's size, and no two sessions share a socket or a memory name. */
  lemma SessionsAreApart(sid: u32, size: u32, sid': u32, size': u32)
    ensures SessionDescriptor(sid, size).sharedMemSize == size
    ensures sid != sid' ==>
      && SessionDescriptor(sid, size).socketPath != SessionDescriptor(sid', size').socketPath
      && SessionDescriptor(sid, size).sharedMemPath != SessionDescriptor(sid', size').sharedMemPath
  {
    ValueOfDigits(sid);
    ValueOfDigits(sid');
    var a, b := Digits(sid), Digits(sid');
    if SessionDescriptor(sid, size).socketPath == SessionDescriptor(sid', size').socketPath {
      var p := "/tmp/ia_sess_" + a + ".sock";
      assert p[13..|p| - 5] == a && p[13..|p| - 5] == b;
    }
    if SessionDescriptor(sid, size).sharedMemPath == SessionDescriptor(sid', size').sharedMemPath {
      var p := "ia_shm_" + a;
      assert p[7..] == a && p[7..] == b;
    }
  }

  lemma PrintedNumbers()
    ensures Digits(7) == "7" && Digits(65536) == "65536"
  {
  }

  /** What the node of session 7 with 64 KiB finds on its command line. */
  lemma SessionText()
    ensures Serialize(SessionDescriptor(7, 65536)) == "/tmp/ia_sess_7.sock|ia_shm_7|65536|"
  {
    PrintedNumbers();
    hide Digits;
    assert "/tmp/ia_sess_" + "7" + ".sock" == "/tmp/ia_sess_7.sock" && "ia_shm_" + "7" == "ia_shm_7";
  }
}
