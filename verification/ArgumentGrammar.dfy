/** The texts the tokenizer reads, as a grammar, and the arguments each of them means. */
module ArgumentGrammar {
  import opened Wrappers
  import opened ArgumentTokenizer

  /** One character of an argument, as it is or behind a backslash. */
  datatype Mark = Plainly(c: char) | Escaped(c: char)

  /** An argument is any mixture of unquoted characters and quoted stretches. */
  datatype Part = Bare(mark: Mark) | InQuotes(text: seq<Mark>)

  predicate GoodBare(m: Mark) {
    m.Plainly? ==> !Special(m.c) && m.c != ' '
  }

  predicate GoodQuoted(text: seq<Mark>) {
    forall i :: 0 <= i < |text| ==> text[i].Plainly? ==> !Special(text[i].c)
  }

  predicate GoodPart(p: Part) {
    match p
    case Bare(m) => GoodBare(m)
    case InQuotes(text) => GoodQuoted(text)
  }

  predicate GoodArgument(arg: seq<Part>) {
    forall i :: 0 <= i < |arg| ==> GoodPart(arg[i])
  }

  predicate GoodLine(line: seq<seq<Part>>) {
    forall i :: 0 <= i < |line| ==> GoodArgument(line[i])
  }

  // ---- How they are written ----

  function MarkText(m: Mark): string {
    if m.Escaped? then ['\\', m.c] else [m.c]
  }

  function MarksText(text: seq<Mark>): string {
    if text == [] then "" else MarksText(text[..|text| - 1]) + MarkText(text[|text| - 1])
  }

  function PartText(p: Part): string {
    match p
    case Bare(m) => MarkText(m)
    case InQuotes(text) => "\"" + MarksText(text) + "\""
  }

  function ArgumentText(arg: seq<Part>): string {
    if arg == [] then "" else ArgumentText(arg[..|arg| - 1]) + PartText(arg[|arg| - 1])
  }

  /** Arguments with one space between neighbours; an empty one stands for a further space. */
  function LineText(line: seq<seq<Part>>): string
    requires line != []
  {
    var n := |line| - 1;
    (if n == 0 then "" else LineText(line[..n]) + " ") + ArgumentText(line[n])
  }

  // ---- What they mean ----

  function Letters(text: seq<Mark>): string {
    seq(|text|, i requires 0 <= i < |text| => text[i].c)
  }

  function PartMeaning(p: Part): string {
    match p
    case Bare(m) => [m.c]
    case InQuotes(text) => Letters(text)
  }

  function Meaning(arg: seq<Part>): string {
    if arg == [] then "" else Meaning(arg[..|arg| - 1]) + PartMeaning(arg[|arg| - 1])
  }

  /** The arguments that are not empty, in their order. */
  function Meanings(line: seq<seq<Part>>): seq<string> {
    if line == [] then []
    else
      var n := |line| - 1;
      Meanings(line[..n]) + if Meaning(line[n]) == "" then [] else [Meaning(line[n])]
  }

  // ---- The tokenizer reads them so ----

  lemma ScanMark(t: Scan, m: Mark)
    requires !t.escaped && (m.Plainly? ==> !Special(m.c) && (m.c != ' ' || t.inQuotes))
    ensures ScanFrom(t, MarkText(m)) == t.(token := t.token + [m.c])
  {
    if m.Escaped? {
      assert ['\\', m.c] == ['\\'] + [m.c];
      ScanConcat(t, ['\\'], [m.c]);
      ScanOne(t, '\\');
      ScanOne(Step(t, '\\'), m.c);
    } else {
      ScanOne(t, m.c);
    }
  }

  lemma {:induction false} ScanMarks(t: Scan, text: seq<Mark>)
    requires !t.escaped && t.inQuotes && GoodQuoted(text)
    ensures ScanFrom(t, MarksText(text)) == t.(token := t.token + Letters(text))
  {
    hide ScanFrom;
    if text == [] {
      ScanNothing(t);
      assert t.token + Letters(text) == t.token;
    } else {
      var n := |text| - 1;
      ScanMarks(t, text[..n]);
      ScanConcat(t, MarksText(text[..n]), MarkText(text[n]));
      ScanMark(ScanFrom(t, MarksText(text[..n])), text[n]);
      assert t.token + Letters(text[..n]) + [text[n].c] == t.token + Letters(text);
    }
  }

  lemma ScanNothing(t: Scan)
    ensures ScanFrom(t, "") == t
  {
  }

  /** A quoted stretch adds its letters to the argument under way. */
  lemma ScanPart(t: Scan, p: Part)
    requires !t.escaped && !t.inQuotes && GoodPart(p)
    ensures ScanFrom(t, PartText(p)) == t.(token := t.token + PartMeaning(p))
  {
    hide ScanFrom, MarksText, Letters;
    match p {
      case Bare(m) => ScanMark(t, m);
      case InQuotes(text) =>
        ScanConcat(t, "\"" + MarksText(text), "\"");
        ScanConcat(t, "\"", MarksText(text));
        ScanOne(t, '"');
        ScanMarks(Step(t, '"'), text);
        ScanOne(Step(t, '"').(token := t.token + Letters(text)), '"');
    }
  }

  lemma {:induction false} ScanArgument(t: Scan, arg: seq<Part>)
    requires !t.escaped && !t.inQuotes && GoodArgument(arg)
    ensures ScanFrom(t, ArgumentText(arg)) == t.(token := t.token + Meaning(arg))
  {
    hide ScanFrom, PartText, PartMeaning;
    if arg == [] {
      ScanNothing(t);
      assert t.token + Meaning(arg) == t.token;
    } else {
      var n := |arg| - 1;
      ScanArgument(t, arg[..n]);
      ScanConcat(t, ArgumentText(arg[..n]), PartText(arg[n]));
      ScanPart(t.(token := t.token + Meaning(arg[..n])), arg[n]);
      assert t.token + Meaning(arg[..n]) + PartMeaning(arg[n]) == t.token + Meaning(arg);
    }
  }

  lemma {:induction false} ScanLine(line: seq<seq<Part>>)
    requires line != [] && GoodLine(line)
    ensures var n := |line| - 1;
      ScanFrom(START, LineText(line)) == Scan(Meanings(line[..n]), Meaning(line[n]), false, false)
  {
    hide ScanFrom, ArgumentText, Meaning;
    var n := |line| - 1;
    var t := START;
    if n > 0 {
      ScanLine(line[..n]);
      var u := Scan(Meanings(line[..n - 1]), Meaning(line[n - 1]), false, false);
      assert line[..n][..n - 1] == line[..n - 1];
      t := Step(u, ' ');
      ScanConcat(START, LineText(line[..n]), " ");
      ScanOne(u, ' ');
      ScanConcat(START, LineText(line[..n]) + " ", ArgumentText(line[n]));
    } else {
      ScanNothing(START);
      ScanConcat(START, "", ArgumentText(line[n]));
    }
    assert t == Scan(Meanings(line[..n]), "", false, false);
    ScanArgument(t, line[n]);
    assert "" + Meaning(line[n]) == Meaning(line[n]);
  }

  // ---- Every text is one of these, up to how it ends ----

  /** A text may end inside quotes, and behind a backslash. */
  datatype Ending = Ending(open: Option<seq<Mark>>, dangling: bool)

  predicate GoodEnding(e: Ending) {
    e.open.Some? ==> GoodQuoted(e.open.value)
  }

  function EndingText(e: Ending): string {
    (if e.open.Some? then "\"" + MarksText(e.open.value) else "") + (if e.dangling then "\\" else "")
  }

  /** Quotes left open count as closed at the end, and a last backslash as nothing. */
  function Closed(line: seq<seq<Part>>, e: Ending): seq<seq<Part>>
    requires line != []
  {
    if e.open.None? then line
    else line[|line| - 1 := line[|line| - 1] + [InQuotes(e.open.value)]]
  }

  /** Every text is a line of the grammar with an ending. */
  lemma {:induction false} EveryTextIsALine(s: string) returns (line: seq<seq<Part>>, e: Ending)
    ensures line != [] && GoodLine(line) && GoodEnding(e)
    ensures s == LineText(line) + EndingText(e)
  {
    hide LineText, GoodLine;
    if s == "" {
      line, e := [[]], Ending(None, false);
      NothingWritten();
    } else {
      line, e := EveryTextIsALine(s[..|s| - 1]);
      line, e := OneMoreCharacter(line, e, s[|s| - 1]);
    }
  }

  lemma NothingWritten()
    ensures LineText([[]]) == "" && GoodLine([[]])
    ensures MarksText([]) == "" && GoodQuoted([])
  {
  }

  lemma OneMoreCharacter(line: seq<seq<Part>>, e: Ending, c: char) returns (line': seq<seq<Part>>, e': Ending)
    requires line != [] && GoodLine(line) && GoodEnding(e)
    ensures line' != [] && GoodLine(line') && GoodEnding(e')
    ensures LineText(line') + EndingText(e') == LineText(line) + EndingText(e) + [c]
  {
    hide LineText, GoodLine, MarksText, GoodQuoted;
    line', e' := line, e;
    if c == '\\' && !e.dangling {
      e' := e.(dangling := true);
    } else if e.open.Some? && (e.dangling || c != '"') {
      var m := if e.dangling then Escaped(c) else Plainly(c);
      e' := Ending(Some(e.open.value + [m]), false);
      OneMoreMark(e.open.value, m);
    } else if c == '"' && e.open.None? && !e.dangling {
      e' := Ending(Some([]), false);
      NothingWritten();
    } else if c == ' ' && !e.dangling {
      line' := line + [[]];
      OneMoreSpace(line);
    } else {
      var p := if e.open.Some? then InQuotes(e.open.value) else Bare(if e.dangling then Escaped(c) else Plainly(c));
      line', e' := line[|line| - 1 := line[|line| - 1] + [p]], Ending(None, false);
      OneMorePart(line, p);
    }
  }

  lemma OneMoreMark(text: seq<Mark>, m: Mark)
    requires GoodQuoted(text)
    ensures MarksText(text + [m]) == MarksText(text) + MarkText(m)
    ensures (m.Plainly? ==> !Special(m.c)) ==> GoodQuoted(text + [m])
  {
    assert (text + [m])[..|text|] == text;
  }

  lemma OneMorePart(line: seq<seq<Part>>, p: Part)
    requires line != [] && GoodLine(line) && GoodPart(p)
    ensures var line' := line[|line| - 1 := line[|line| - 1] + [p]];
      GoodLine(line') && LineText(line') == LineText(line) + PartText(p)
  {
    var n := |line| - 1;
    LongerArgument(line[n], p);
    hide ArgumentText, GoodArgument, LineText, PartText, GoodPart;
    LongerLineText(line, line[n] + [p], PartText(p));
  }

  lemma LongerLineText(line: seq<seq<Part>>, arg: seq<Part>, t: string)
    requires line != [] && ArgumentText(arg) == ArgumentText(line[|line| - 1]) + t
    ensures LineText(line[|line| - 1 := arg]) == LineText(line) + t
  {
    var n := |line| - 1;
    var line' := line[n := arg];
    LineTextOf(line);
    LineTextOf(line');
    hide ArgumentText, LineText;
    assert line'[..n] == line[..n];
    Regroup(Lead(line), ArgumentText(line[n]), t);
  }

  function Lead(line: seq<seq<Part>>): string
    requires line != []
  {
    if |line| == 1 then "" else LineText(line[..|line| - 1]) + " "
  }

  lemma LineTextOf(line: seq<seq<Part>>)
    requires line != []
    ensures LineText(line) == Lead(line) + ArgumentText(line[|line| - 1])
  {
  }

  lemma Regroup(a: string, b: string, c: string)
    ensures a + (b + c) == a + b + c
  {
  }

  lemma LongerArgument(arg: seq<Part>, p: Part)
    requires GoodArgument(arg) && GoodPart(p)
    ensures GoodArgument(arg + [p]) && ArgumentText(arg + [p]) == ArgumentText(arg) + PartText(p)
  {
    hide GoodPart, PartText;
    assert (arg + [p])[..|arg|] == arg;
  }

  lemma OneMoreSpace(line: seq<seq<Part>>)
    requires line != [] && GoodLine(line)
    ensures GoodLine(line + [[]]) && LineText(line + [[]]) == LineText(line) + " "
  {
    assert (line + [[]])[..|line|] == line;
  }

  /**
   Every text, whatever it holds, is a line of the grammar with an ending, and the tokenizer gives
   what that line means: its arguments that are not empty, in their order.
   */
  lemma TokensMean(s: string) returns (line: seq<seq<Part>>, e: Ending)
    ensures line != [] && GoodLine(line) && GoodEnding(e)
    ensures s == LineText(line) + EndingText(e)
    ensures Tokens(s) == Meanings(Closed(line, e))
  {
    line, e := EveryTextIsALine(s);
    LineMeans(line, e);
  }

  /** However a line is written, the tokenizer gives what it means. */
  lemma LineMeans(line: seq<seq<Part>>, e: Ending)
    requires line != [] && GoodLine(line) && GoodEnding(e)
    ensures Tokens(LineText(line) + EndingText(e)) == Meanings(Closed(line, e))
  {
    var n := |line| - 1;
    ScanLine(line);
    ScanConcat(START, LineText(line), EndingText(e));
    var t := Scan(Meanings(line[..n]), Meaning(line[n]), false, false);
    ScanEnding(t, e);
    MeaningsClosed(line, e);
    hide ScanFrom, LineText, EndingText, Meanings, Meaning;
  }

  function OpenLetters(e: Ending): string {
    if e.open.Some? then Letters(e.open.value) else ""
  }

  lemma ScanEnding(t: Scan, e: Ending)
    requires !t.escaped && !t.inQuotes && GoodEnding(e)
    ensures ScanFrom(t, EndingText(e)) == Scan(t.args, t.token + OpenLetters(e), e.open.Some?, e.dangling)
  {
    hide ScanFrom, MarksText, Letters;
    var quoted := if e.open.Some? then "\"" + MarksText(e.open.value) else "";
    var u := Scan(t.args, t.token + OpenLetters(e), e.open.Some?, false);
    if e.open.Some? {
      ScanConcat(t, "\"", MarksText(e.open.value));
      ScanOne(t, '"');
      ScanMarks(Step(t, '"'), e.open.value);
    } else {
      ScanNothing(t);
      assert t.token + "" == t.token;
    }
    assert ScanFrom(t, quoted) == u;
    if e.dangling {
      ScanConcat(t, quoted, "\\");
      ScanOne(u, '\\');
    } else {
      assert quoted + "" == quoted;
    }
  }

  lemma MeaningsClosed(line: seq<seq<Part>>, e: Ending)
    requires line != []
    ensures var n := |line| - 1;
      var last := Meaning(line[n]) + OpenLetters(e);
      Meanings(Closed(line, e)) == Meanings(line[..n]) + if last == "" then [] else [last]
  {
    var n := |line| - 1;
    if e.open.Some? {
      var part := InQuotes(e.open.value);
      assert Closed(line, e)[..n] == line[..n];
      assert (line[n] + [part])[..|line[n]|] == line[n];
    } else {
      assert Meaning(line[n]) + "" == Meaning(line[n]);
    }
  }

  // ---- Words and spaces ----

  predicate IsWord(w: string) {
    w != "" && forall i :: 0 <= i < |w| ==> !Special(w[i]) && w[i] != ' '
  }

  function Spaces(n: nat): string {
    seq(n, _ => ' ')
  }

  /** The words, each behind its spaces. */
  function Spaced(words: seq<string>, gaps: seq<nat>): string
    requires |gaps| == |words|
  {
    if words == [] then ""
    else
      var n := |words| - 1;
      Spaced(words[..n], gaps[..n]) + Spaces(gaps[n]) + words[n]
  }

  lemma {:induction false} ScanWord(t: Scan, w: string)
    requires !t.escaped && !t.inQuotes && forall i :: 0 <= i < |w| ==> !Special(w[i]) && w[i] != ' '
    ensures ScanFrom(t, w) == t.(token := t.token + w)
  {
    if w == "" {
      assert t.token + w == t.token;
    } else {
      ScanWord(t, w[..|w| - 1]);
      assert t.token + w == t.token + w[..|w| - 1] + [w[|w| - 1]];
    }
  }

  lemma {:induction false} ScanSpaces(t: Scan, n: nat)
    requires !t.escaped && !t.inQuotes
    ensures ScanFrom(t, Spaces(n)) == if n == 0 then t else t.(args := Finish(t), token := "")
  {
    if n > 0 {
      ScanSpaces(t, n - 1);
      assert Spaces(n)[..n - 1] == Spaces(n - 1);
    }
  }

  lemma {:induction false} ScanSpaced(words: seq<string>, gaps: seq<nat>)
    requires |gaps| == |words| && (forall i :: 0 <= i < |words| ==> IsWord(words[i]))
    requires forall i :: 0 < i < |gaps| ==> gaps[i] > 0
    ensures var t := ScanFrom(START, Spaced(words, gaps));
      !t.escaped && !t.inQuotes && Finish(t) == words && (t.token == "" ==> words == [])
  {
    hide ScanFrom;
    if words == [] {
      ScanNothing(START);
    } else {
      var n := |words| - 1;
      var before, gap := Spaced(words[..n], gaps[..n]), Spaces(gaps[n]);
      ScanSpaced(words[..n], gaps[..n]);
      var t := ScanFrom(START, before);
      ScanConcat(START, before + gap, words[n]);
      ScanConcat(START, before, gap);
      ScanSpaces(t, gaps[n]);
      var u := ScanFrom(t, gap);
      assert u.token == "" && u.args == words[..n];
      ScanWord(u, words[n]);
      assert "" + words[n] == words[n] && words[..n] + [words[n]] == words;
    }
  }

  /**
   Words without spaces, quotes and backslashes, with one or more spaces between neighbours and any
   number before the first and after the last, come back exactly.
   */
  lemma WordsComeBack(words: seq<string>, gaps: seq<nat>, after: nat)
    requires |gaps| == |words| && (forall i :: 0 <= i < |words| ==> IsWord(words[i]))
    requires forall i :: 0 < i < |gaps| ==> gaps[i] > 0
    ensures Tokens(Spaced(words, gaps) + Spaces(after)) == words
  {
    hide ScanFrom;
    ScanSpaced(words, gaps);
    ScanConcat(START, Spaced(words, gaps), Spaces(after));
    ScanSpaces(ScanFrom(START, Spaced(words, gaps)), after);
  }

  lemma ScanStretch(t: Scan, quoted: string)
    requires !t.escaped && !t.inQuotes && Plain(quoted)
    ensures ScanFrom(t, "\"" + quoted + "\"") == t.(token := t.token + quoted)
  {
    ScanConcat(t, "\"" + quoted, "\"");
    ScanConcat(t, "\"", quoted);
    ScanOne(t, '"');
    ScanPlain(Step(t, '"'), quoted);
    ScanOne(Step(t, '"').(token := t.token + quoted), '"');
  }

  /** A quoted stretch, spaces and all, makes one argument with the words it touches. */
  lemma QuotesJoin(before: string, quoted: string, after: string)
    requires before == "" || IsWord(before)
    requires after == "" || IsWord(after)
    requires Plain(quoted) && before + quoted + after != ""
    ensures Tokens(before + ("\"" + quoted + "\"") + after) == [before + quoted + after]
  {
    hide ScanFrom;
    var t := START.(token := before);
    assert "" + before == before;
    ScanWord(START, before);
    ScanStretch(t, quoted);
    ScanWord(t.(token := before + quoted), after);
    ScanConcat(START, before, "\"" + quoted + "\"");
    ScanConcat(START, before + ("\"" + quoted + "\""), after);
  }

  /** Outside quotes too, a backslash keeps the next character, whatever it is. */
  lemma BackslashKeeps(before: string, c: char, after: string)
    requires before == "" || IsWord(before)
    requires after == "" || IsWord(after)
    ensures Tokens(before + ['\\', c] + after) == [before + [c] + after]
  {
    hide ScanFrom;
    var t := START.(token := before);
    assert "" + before == before;
    ScanWord(START, before);
    ScanMark(t, Escaped(c));
    ScanWord(t.(token := before + [c]), after);
    ScanConcat(START, before, ['\\', c]);
    ScanConcat(START, before + ['\\', c], after);
  }

  lemma ScanWordAndSpace(w: string)
    requires IsWord(w)
    ensures ScanFrom(START, w + " ") == Scan([w], "", false, false)
  {
    ScanWord(START, w);
    assert "" + w == w;
    ScanConcat(START, w, " ");
    ScanOne(Scan([], w, false, false), ' ');
  }

  /** The two argument strings of the repository's own process tests. */
  lemma KnownAnswers()
    ensures Tokens("one two") == ["one", "two"]
    ensures Tokens("-c \"exit 42\"") == ["-c", "exit 42"]
  {
    TwoWords();
    WordAndStretch();
    hide Tokens;
  }

  lemma TwoWords()
    ensures Tokens("one two") == ["one", "two"]
  {
    hide ScanFrom;
    ScanWordAndSpace("one");
    ScanConcat(START, "one ", "two");
    ScanWord(Scan(["one"], "", false, false), "two");
    assert "one" + " " == "one " && "one " + "two" == "one two" && "" + "two" == "two";
  }

  lemma WordAndStretch()
    ensures Tokens("-c \"exit 42\"") == ["-c", "exit 42"]
  {
    hide ScanFrom;
    ScanWordAndSpace("-c");
    ScanConcat(START, "-c ", "\"exit 42\"");
    ScanStretch(Scan(["-c"], "", false, false), "exit 42");
    assert "-c" + " " == "-c " && "-c " + "\"exit 42\"" == "-c \"exit 42\"" && "" + "exit 42" == "exit 42";
    assert "\"" + "exit 42" + "\"" == "\"exit 42\"";
  }
}
