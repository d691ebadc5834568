/** `LineBuffer` of the process runner: cutting a chunked output stream into lines. */
module LineBuffers {
  predicate IsBreak(c: char) {
    c == '\n' || c == '\r'
  }

  // ---- What the lines of a stream are ----

  predicate Unbroken(s: string) {
    forall i :: 0 <= i < |s| ==> !IsBreak(s[i])
  }

  predicate AllBreaks(s: string) {
    forall i :: 0 <= i < |s| ==> IsBreak(s[i])
  }

  /** `gaps[0] + lines[0] + gaps[1] + lines[1] + ... + gaps[n]`. */
  function Weave(gaps: seq<string>, lines: seq<string>): string
    requires |gaps| == |lines| + 1
  {
    if lines == [] then gaps[0]
    else Weave(gaps[..|gaps| - 1], lines[..|lines| - 1]) + lines[|lines| - 1] + gaps[|gaps| - 1]
  }

  /**
   `lines` are the non-empty maximal runs of `s` free of line breaks: `s` alternates breaks
   and lines, every line is non-empty and unbroken, and breaks separate any two lines.
   */
  predicate AreRuns(s: string, gaps: seq<string>, lines: seq<string>) {
    && |gaps| == |lines| + 1
    && s == Weave(gaps, lines)
    && (forall i :: 0 <= i < |gaps| ==> AllBreaks(gaps[i]))
    && (forall i :: 0 < i < |lines| ==> gaps[i] != [])
    && (forall i :: 0 <= i < |lines| ==> lines[i] != [] && Unbroken(lines[i]))
  }

  // ---- The same, one character at a time ----

  /** Lines finished so far, and the line under way. */
  datatype Split = Split(lines: seq<string>, open: string)

  function Close(t: Split): seq<string> {
    if t.open == [] then t.lines else t.lines + [t.open]
  }

  function Next(t: Split, c: char): Split {
    if IsBreak(c) then Split(Close(t), []) else Split(t.lines, t.open + [c])
  }

  function SplitFrom(t: Split, s: string): Split {
    if s == [] then t else Next(SplitFrom(t, s[..|s| - 1]), s[|s| - 1])
  }

  function SplitOf(s: string): Split {
    SplitFrom(Split([], []), s)
  }

  function Lines(s: string): seq<string> {
    Close(SplitOf(s))
  }

  lemma {:induction false} SplitConcat(t: Split, x: string, y: string)
    ensures SplitFrom(t, x + y) == SplitFrom(SplitFrom(t, x), y)
  {
    if y == [] {
      assert x + y == x;
    } else {
      assert (x + y)[..|x + y| - 1] == x + y[..|y| - 1];
      SplitConcat(t, x, y[..|y| - 1]);
    }
  }

  /** A stretch without breaks only extends the open line. */
  lemma {:induction false} SplitUnbroken(t: Split, s: string)
    requires Unbroken(s)
    ensures SplitFrom(t, s) == Split(t.lines, t.open + s)
  {
    if s == [] {
      assert t.open + s == t.open;
    } else {
      SplitUnbroken(t, s[..|s| - 1]);
      assert t.open + s == t.open + s[..|s| - 1] + [s[|s| - 1]];
    }
  }

  lemma SplitStep(t: Split, s: string, c: char)
    ensures SplitFrom(t, s + [c]) == Next(SplitFrom(t, s), c)
  {
    assert (s + [c])[..|s|] == s;
  }

  // ---- The code ----

  class LineBuffer {
    var accumulator: string
    // what the callback has received
    var emitted: seq<string>
    // every character appended so far
    ghost var stream: string

    ghost predicate Valid()
      reads this
    {
      SplitOf(stream) == Split(emitted, accumulator)
    }

    constructor ()
      ensures Valid() && stream == "" && emitted == []
    {
      accumulator, emitted, stream := "", [], "";
    }

    method Append(data: string)
      requires Valid()
      modifies this
      ensures Valid() && stream == old(stream) + data
    {
      hide SplitFrom, Next, Close;
      ghost var t0 := SplitOf(stream);
      SplitNothing(t0);
      var start := 0;
      var i := 0;
      while i < |data|
        invariant 0 <= start <= i <= |data|
        invariant Unbroken(data[start..i])
        invariant SplitFrom(t0, data[..start]) == Split(emitted, accumulator)
        invariant stream == old(stream)
      {
        if data[i] == '\n' || data[i] == '\r' {
          ghost var before, run := Split(emitted, accumulator), data[start..i];
          EndOfRun(t0, data, start, i);
          CloseRun(before, run);
          if accumulator != [] {
            accumulator := accumulator + data[start..i];
            if accumulator != [] {
              emitted := emitted + [accumulator];
            }
            accumulator := "";
          } else {
            assert before.open + run == run;
            if i > start {
              emitted := emitted + [data[start..i]];
            }
          }
          assert SplitFrom(t0, data[..i + 1]) == Split(emitted, accumulator) && accumulator == "";

          if data[i] == '\r' && i + 1 < |data| && data[i + 1] == '\n' {
            i := i + 1;
            AnotherBreak(t0, data, i);
          }
          start := i + 1;
          assert data[start..i + 1] == "";
        } else {
          assert data[start..i + 1] == data[start..i] + [data[i]];
        }
        i := i + 1;
      }
      SplitConcat(t0, data[..start], data[start..i]);
      SplitUnbroken(SplitFrom(t0, data[..start]), data[start..i]);
      assert data[..start] + data[start..i] == data;
      if start < |data| {
        accumulator := accumulator + data[start..];
      }
      SplitConcat(Split([], []), stream, data);
      stream := stream + data;
    }

    /** After a flush the callback has received exactly the lines of the whole stream. */
    method Flush()
      requires Valid()
      modifies this
      ensures emitted == Lines(stream) && accumulator == "" && stream == old(stream)
    {
      if accumulator != [] {
        emitted := emitted + [accumulator];
        accumulator := "";
      }
    }
  }

  lemma EndOfRun(t: Split, data: string, start: nat, i: nat)
    requires start <= i < |data| && Unbroken(data[start..i]) && IsBreak(data[i])
    ensures var u := SplitFrom(t, data[..start]);
      SplitFrom(t, data[..i + 1]) == Split(Close(Split(u.lines, u.open + data[start..i])), [])
  {
    var u := SplitFrom(t, data[..start]);
    assert data[..i] == data[..start] + data[start..i];
    SplitConcat(t, data[..start], data[start..i]);
    SplitUnbroken(u, data[start..i]);
    SplitStep(t, data[..i], data[i]);
    assert data[..i + 1] == data[..i] + [data[i]];
  }

  lemma SplitNothing(t: Split)
    ensures SplitFrom(t, "") == t
  {
  }

  /** What a finished run adds to the lines, with or without an open line before it. */
  lemma CloseRun(u: Split, run: string)
    ensures Close(Split(u.lines, u.open + run)) ==
      if u.open != [] then u.lines + [u.open + run] else if run != [] then u.lines + [run] else u.lines
  {
    if u.open == [] { assert u.open + run == run; }
  }

  /** A break right after a break ends no line. */
  lemma AnotherBreak(t: Split, data: string, i: nat)
    requires i < |data| && IsBreak(data[i]) && SplitFrom(t, data[..i]).open == ""
    ensures SplitFrom(t, data[..i + 1]) == SplitFrom(t, data[..i])
  {
    assert data[..i + 1] == data[..i] + [data[i]];
    SplitStep(t, data[..i], data[i]);
  }

  // ---- Independence of the chunks ----

  function Joined(chunks: seq<string>): string {
    if chunks == [] then "" else Joined(chunks[..|chunks| - 1]) + chunks[|chunks| - 1]
  }

  /**
   However the output is cut into chunks, the callback receives exactly the non-empty
   maximal runs of the whole stream that are free of line breaks, in order.
   */
  method FeedChunks(chunks: seq<string>) returns (lines: seq<string>)
    ensures exists gaps :: AreRuns(Joined(chunks), gaps, lines)
    ensures forall gaps, other :: AreRuns(Joined(chunks), gaps, other) ==> other == lines
  {
    var buffer := new LineBuffer();
    for k := 0 to |chunks|
      invariant buffer.Valid() && buffer.stream == Joined(chunks[..k])
    {
      assert chunks[..k + 1][..k] == chunks[..k];
      buffer.Append(chunks[k]);
    }
    assert chunks[..|chunks|] == chunks;
    buffer.Flush();
    lines := buffer.emitted;
    var gaps := LinesAreRuns(Joined(chunks));
    RunsAreUnique(Joined(chunks));
  }

  // ---- The one-character-at-a-time split finds the runs ----

  lemma LinesStep(s: string, c: char)
    ensures SplitOf(s + [c]) == Next(SplitOf(s), c)
    ensures Lines(s) == Close(SplitOf(s)) && Lines(s + [c]) == Close(SplitOf(s + [c]))
  {
    SplitStep(Split([], []), s, c);
  }

  lemma NoRuns()
    ensures AreRuns("", [""], Lines("")) && Lines("") == [] && Unbroken(SplitOf("").open)
  {
    assert Weave([""], []) == "";
  }

  /** The gaps around the lines of `s`, the last of them empty exactly when a line is open. */
  lemma {:induction false} SplitRuns(s: string) returns (gaps: seq<string>)
    ensures AreRuns(s, gaps, Lines(s)) && Unbroken(SplitOf(s).open)
    ensures |gaps| == |Lines(s)| + 1
    ensures Lines(s) != [] ==> (SplitOf(s).open != [] <==> gaps[|gaps| - 1] == [])
  {
    hide AreRuns, SplitOf, Lines;
    if s == [] {
      NoRuns();
      gaps := [""];
    } else {
      var before, c := s[..|s| - 1], s[|s| - 1];
      gaps := SplitRuns(before);
      assert s == before + [c];
      LinesStep(before, c);
      var t, lines := SplitOf(before), Lines(before);
      if IsBreak(c) {
        gaps := BreakRuns(before, gaps, lines, c);
      } else if t.open == [] {
        assert t.open + [c] == [c];
        gaps := FirstRuns(before, gaps, lines, c);
      } else {
        LongerRuns(before, gaps, t.lines, t.open, c);
      }
    }
  }

  lemma BreakRuns(s: string, gaps: seq<string>, lines: seq<string>, c: char) returns (wider: seq<string>)
    requires AreRuns(s, gaps, lines) && IsBreak(c)
    ensures AreRuns(s + [c], wider, lines) && |wider| == |gaps| && wider[|wider| - 1] != []
  {
    var last := |gaps| - 1;
    wider := gaps[last := gaps[last] + [c]];
    assert wider[..last] == gaps[..last];
    assert Weave(wider, lines) == Weave(gaps, lines) + [c];
  }

  lemma FirstRuns(s: string, gaps: seq<string>, lines: seq<string>, c: char) returns (more: seq<string>)
    requires AreRuns(s, gaps, lines) && !IsBreak(c)
    requires lines != [] ==> gaps[|gaps| - 1] != []
    ensures AreRuns(s + [c], more, lines + [[c]]) && |more| == |gaps| + 1 && more[|more| - 1] == []
  {
    more := gaps + [""];
    var longer := lines + [[c]];
    assert more[..|gaps|] == gaps && longer[..|lines|] == lines;
    assert Weave(more, longer) == Weave(gaps, lines) + [c] + "" == s + [c];
    forall i | 0 < i < |longer|
      ensures more[i] != []
    {
      assert more[i] == gaps[i];
    }
  }

  lemma LongerRuns(s: string, gaps: seq<string>, lines: seq<string>, open: string, c: char)
    requires AreRuns(s, gaps, lines + [open]) && !IsBreak(c) && gaps[|gaps| - 1] == []
    ensures AreRuns(s + [c], gaps, lines + [open + [c]])
  {
    var shorter, longer := lines + [open], lines + [open + [c]];
    assert longer[..|lines|] == lines == shorter[..|lines|];
    assert Weave(gaps, longer) == Weave(gaps, shorter) + [c];
    assert Unbroken(shorter[|lines|]);
  }

  lemma LinesAreRuns(s: string) returns (gaps: seq<string>)
    ensures AreRuns(s, gaps, Lines(s))
  {
    gaps := SplitRuns(s);
  }

  lemma {:induction false} SplitBreaks(t: Split, s: string)
    requires AllBreaks(s) && s != []
    ensures SplitFrom(t, s) == Split(Close(t), [])
  {
    if |s| > 1 {
      SplitBreaks(t, s[..|s| - 1]);
    } else {
      assert s[..0] == [];
    }
  }

  /** Any way of cutting `s` into breaks and runs is the way the split finds. */
  lemma {:induction false} WeaveSplits(s: string, gaps: seq<string>, lines: seq<string>)
    requires AreRuns(s, gaps, lines)
    ensures Lines(s) == lines
    ensures gaps[|lines|] != [] || lines == [] ==> SplitOf(s).open == []
    decreases |lines|
  {
    var n := |lines|;
    if n == 0 {
      if s != [] { SplitBreaks(Split([], []), s); }
    } else {
      var head := Weave(gaps[..n], lines[..n - 1]);
      assert AreRuns(head, gaps[..n], lines[..n - 1]);
      WeaveSplits(head, gaps[..n], lines[..n - 1]);
      assert n > 1 ==> gaps[n - 1] != [];
      assert lines[..n - 1] + [lines[n - 1]] == lines;
      OneMoreRun(head, lines[..n - 1], lines[n - 1], gaps[n]);
    }
  }

  lemma OneMoreRun(head: string, lines: seq<string>, line: string, gap: string)
    requires SplitOf(head) == Split(lines, []) && line != [] && Unbroken(line) && AllBreaks(gap)
    ensures Lines(head + line + gap) == lines + [line]
    ensures gap != [] ==> SplitOf(head + line + gap).open == []
  {
    var start := Split([], []);
    SplitConcat(start, head, line);
    SplitUnbroken(SplitOf(head), line);
    assert [] + line == line;
    SplitConcat(start, head + line, gap);
    if gap != [] { SplitBreaks(SplitOf(head + line), gap); } else { assert head + line + gap == head + line; }
  }

  lemma RunsAreUnique(s: string)
    ensures forall gaps, lines :: AreRuns(s, gaps, lines) ==> lines == Lines(s)
  {
    forall gaps, lines | AreRuns(s, gaps, lines)
      ensures lines == Lines(s)
    {
      WeaveSplits(s, gaps, lines);
    }
  }

  /** Line feeds, carriage returns and pairs of them end lines; other control characters do not. */
  lemma KnownLines()
    ensures Lines("one\r\ntwo\n\nth\tree\r") == ["one", "two", "th\tree"]
    ensures Lines("\na\rb") == ["a", "b"]
  {
    ThreeLines();
    TwoLines();
    hide Lines;
  }

  lemma ThreeLines()
    ensures Lines("one\r\ntwo\n\nth\tree\r") == ["one", "two", "th\tree"]
  {
    assert SplitOf("") == Split([], []) && [] + ["one"] == ["one"];
    hide SplitOf;
    OneMoreRun("", [], "one", "\r\n");
    assert "" + "one" + "\r\n" == "one\r\n";
    OneMoreRun("one\r\n", ["one"], "two", "\n\n");
    assert "one\r\n" + "two" + "\n\n" == "one\r\ntwo\n\n";
    OneMoreRun("one\r\ntwo\n\n", ["one", "two"], "th\tree", "\r");
    assert "one\r\ntwo\n\n" + "th\tree" + "\r" == "one\r\ntwo\n\nth\tree\r";
  }

  lemma TwoLines()
    ensures Lines("\na\rb") == ["a", "b"]
  {
    SplitBreaks(Split([], []), "\n");
    hide SplitOf;
    OneMoreRun("\n", [], "a", "\r");
    assert "\n" + "a" + "\r" == "\na\r";
    OneMoreRun("\na\r", ["a"], "b", "");
    assert "\na\r" + "b" + "" == "\na\rb";
  }
}
