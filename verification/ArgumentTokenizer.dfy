/** How the POSIX process runner cuts an argument string into arguments. */
module ArgumentTokenizer {
  /** Finished arguments, the one under way, and the two mode flags. */
  datatype Scan = Scan(args: seq<string>, token: string, inQuotes: bool, escaped: bool)

  const START := Scan([], "", false, false)

  function Step(t: Scan, c: char): Scan {
    if t.escaped then t.(token := t.token + [c], escaped := false)
    else if c == '\\' then t.(escaped := true)
    else if c == '"' then t.(inQuotes := !t.inQuotes)
    else if c == ' ' && !t.inQuotes then
      if t.token != "" then t.(args := t.args + [t.token], token := "") else t
    else t.(token := t.token + [c])
  }

  function ScanFrom(t: Scan, s: string): Scan {
    if s == [] then t else Step(ScanFrom(t, s[..|s| - 1]), s[|s| - 1])
  }

  function Finish(t: Scan): seq<string> {
    if t.token != "" then t.args + [t.token] else t.args
  }

  function Tokens(s: string): seq<string> {
    Finish(ScanFrom(START, s))
  }

  method Tokenize(args: string) returns (argStorage: seq<string>)
    ensures argStorage == Tokens(args)
  {
    argStorage := [];
    var currentToken := "";
    var inQuotes := false;
    var isEscaped := false;
    for i := 0 to |args|
      invariant ScanFrom(START, args[..i]) == Scan(argStorage, currentToken, inQuotes, isEscaped)
    {
      var c := args[i];
      assert args[..i + 1][..i] == args[..i];
      if isEscaped {
        currentToken := currentToken + [c];
        isEscaped := false;
        continue;
      }
      if c == '\\' {
        isEscaped := true;
        continue;
      }
      if c == '"' {
        inQuotes := !inQuotes;
        continue;
      }
      if c == ' ' && !inQuotes {
        if currentToken != "" {
          argStorage := argStorage + [currentToken];
          currentToken := "";
        }
      } else {
        currentToken := currentToken + [c];
      }
    }
    assert args[..|args|] == args;
    if currentToken != "" {
      argStorage := argStorage + [currentToken];
    }
  }

  lemma {:induction false} ScanConcat(t: Scan, x: string, y: string)
    ensures ScanFrom(t, x + y) == ScanFrom(ScanFrom(t, x), y)
  {
    if y == [] {
      assert x + y == x;
    } else {
      assert (x + y)[..|x + y| - 1] == x + y[..|y| - 1];
      ScanConcat(t, x, y[..|y| - 1]);
    }
  }

  lemma ScanOne(t: Scan, c: char)
    ensures ScanFrom(t, [c]) == Step(t, c)
  {
    assert ScanFrom(t, [c][..0]) == t;
  }

  predicate Special(c: char) {
    c == '\\' || c == '"'
  }

  predicate Plain(s: string) {
    forall i :: 0 <= i < |s| ==> !Special(s[i])
  }

  // ---- Which argument lists can be passed, and how ----

  /** `s` with a backslash before every character that would otherwise be taken away. */
  function Escape(s: string): string {
    if s == [] then ""
    else Escape(s[..|s| - 1]) + (if Special(s[|s| - 1]) then ['\\', s[|s| - 1]] else [s[|s| - 1]])
  }

  function Quoted(arg: string): string {
    "\"" + Escape(arg) + "\""
  }

  function CommandLine(args: seq<string>): string {
    if args == [] then "" else CommandLine(args[..|args| - 1]) + Quoted(args[|args| - 1]) + " "
  }

  lemma {:induction false} ScanEscaped(t: Scan, s: string)
    requires t.inQuotes && !t.escaped
    ensures ScanFrom(t, Escape(s)) == t.(token := t.token + s)
  {
    if s == [] {
      assert t.token + s == t.token;
    } else {
      var before, c := s[..|s| - 1], s[|s| - 1];
      ScanEscaped(t, before);
      var u := ScanFrom(t, Escape(before));
      assert t.token + s == u.token + [c];
      if Special(c) {
        assert ['\\', c] == ['\\'] + [c];
        ScanConcat(t, Escape(before), ['\\', c]);
        ScanConcat(u, ['\\'], [c]);
        ScanOne(u, '\\');
        ScanOne(Step(u, '\\'), c);
      } else {
        ScanConcat(t, Escape(before), [c]);
        ScanOne(u, c);
      }
    }
  }

  /** A quoted argument adds its text to the token under way, spaces and all. */
  lemma ScanQuoted(t: Scan, arg: string)
    requires !t.inQuotes && !t.escaped
    ensures ScanFrom(t, Quoted(arg)) == t.(token := t.token + arg)
  {
    ScanConcat(t, "\"" + Escape(arg), "\"");
    ScanConcat(t, "\"", Escape(arg));
    ScanOne(t, '"');
    ScanEscaped(Step(t, '"'), arg);
    ScanOne(ScanFrom(Step(t, '"'), Escape(arg)), '"');
  }

  lemma {:induction false} ScanCommandLine(args: seq<string>)
    requires forall i :: 0 <= i < |args| ==> args[i] != ""
    ensures ScanFrom(START, CommandLine(args)) == Scan(args, "", false, false)
  {
    if args != [] {
      var n := |args| - 1;
      ScanCommandLine(args[..n]);
      ScanConcat(START, CommandLine(args[..n]) + Quoted(args[n]), " ");
      ScanConcat(START, CommandLine(args[..n]), Quoted(args[n]));
      var t := Scan(args[..n], "", false, false);
      ScanQuoted(t, args[n]);
      assert "" + args[n] == args[n];
      ScanOne(t.(token := args[n]), ' ');
      assert args[..n] + [args[n]] == args;
    }
  }

  lemma {:induction false} FinishedArgsNonEmpty(s: string)
    ensures forall i :: 0 <= i < |ScanFrom(START, s).args| ==> ScanFrom(START, s).args[i] != ""
  {
    if s != [] {
      FinishedArgsNonEmpty(s[..|s| - 1]);
    }
  }

  predicate NoneEmpty(args: seq<string>) {
    forall i :: 0 <= i < |args| ==> args[i] != ""
  }

  lemma TokensNonEmpty(s: string)
    ensures NoneEmpty(Tokens(s))
  {
    FinishedArgsNonEmpty(s);
    hide ScanFrom;
  }

  lemma QuotedComesBack(args: seq<string>)
    requires NoneEmpty(args)
    ensures Tokens(CommandLine(args)) == args
  {
    ScanCommandLine(args);
    hide ScanFrom, CommandLine;
  }

  /**
   The tokenizer can produce a list of arguments exactly when none of them is empty, whatever
   characters they hold; quoting with escapes is one way to produce it.
   */
  lemma ArgumentListsThatPass(args: seq<string>)
    ensures (exists s :: Tokens(s) == args) <==> NoneEmpty(args)
    ensures NoneEmpty(args) ==> Tokens(CommandLine(args)) == args
  {
    hide Tokens, CommandLine, NoneEmpty;
    forall s | Tokens(s) == args
      ensures NoneEmpty(args)
    {
      TokensNonEmpty(s);
    }
    if NoneEmpty(args) {
      QuotedComesBack(args);
    }
  }

  // ---- What survives plain quoting ----

  lemma {:induction false} ScanPlain(t: Scan, s: string)
    requires t.inQuotes && !t.escaped && Plain(s)
    ensures ScanFrom(t, s) == t.(token := t.token + s)
  {
    if s == [] {
      assert t.token + s == t.token;
    } else {
      ScanPlain(t, s[..|s| - 1]);
      assert t.token + s == t.token + s[..|s| - 1] + [s[|s| - 1]];
    }
  }

  /** A non-empty text without quotes and backslashes is one argument once quoted. */
  lemma PlainTextPasses(s: string)
    requires Plain(s) && s != ""
    ensures Tokens("\"" + s + "\"") == [s]
  {
    ScanConcat(START, "\"" + s, "\"");
    ScanConcat(START, "\"", s);
    ScanOne(START, '"');
    ScanPlain(Step(START, '"'), s);
    assert "" + s == s;
    ScanOne(Step(START, '"').(token := s), '"');
  }

  /** All characters kept so far. */
  function Kept(t: Scan): nat {
    Total(t.args) + |t.token|
  }

  function Total(args: seq<string>): nat {
    if args == [] then 0 else Total(args[..|args| - 1]) + |args[|args| - 1]|
  }

  lemma StepKeeps(t: Scan, c: char)
    ensures Kept(Step(t, c)) <= Kept(t) + 1
    ensures !t.escaped && Special(c) ==> Kept(Step(t, c)) == Kept(t)
  {
    assert (t.args + [t.token])[..|t.args|] == t.args;
  }

  lemma {:induction false} ScanKeeps(t: Scan, s: string)
    ensures Kept(ScanFrom(t, s)) <= Kept(t) + |s|
    ensures !t.escaped && Plain(s) ==> !ScanFrom(t, s).escaped
  {
    if s != [] {
      ScanKeeps(t, s[..|s| - 1]);
      StepKeeps(ScanFrom(t, s[..|s| - 1]), s[|s| - 1]);
    }
  }

  lemma {:induction false} TokenAtMostTotal(args: seq<string>, i: nat)
    requires i < |args|
    ensures |args[i]| <= Total(args)
  {
    if i < |args| - 1 {
      TokenAtMostTotal(args[..|args| - 1], i);
    }
  }

  lemma {:induction false} FirstSpecial(s: string) returns (k: nat)
    requires !Plain(s)
    ensures k < |s| && Special(s[k]) && Plain(s[..k])
  {
    if Special(s[0]) {
      k := 0;
    } else {
      assert s == [s[0]] + s[1..];
      k := FirstSpecial(s[1..]);
      assert s[..k + 1] == [s[0]] + s[1..][..k];
      k := k + 1;
    }
  }

  lemma EndsUnescaped(t: Scan, s: string)
    requires s != "" && s[|s| - 1] != '\\'
    ensures !ScanFrom(t, s).escaped
  {
  }

  /** The scan of an opening quote and a text that has a special character. */
  lemma SpecialIsLost(s: string)
    requires !Plain(s)
    ensures Kept(ScanFrom(START, "\"" + s)) < |s|
  {
    var t0 := Step(START, '"');
    var k := FirstSpecial(s);
    var head, tail := s[..k], s[k + 1..];
    assert s == head + [s[k]] + tail;
    ScanOne(START, '"');
    ScanConcat(START, "\"", s);
    ScanConcat(t0, head + [s[k]], tail);
    ScanConcat(t0, head, [s[k]]);
    var t1 := ScanFrom(t0, head);
    ScanKeeps(t0, head);
    ScanOne(t1, s[k]);
    StepKeeps(t1, s[k]);
    ScanKeeps(Step(t1, s[k]), tail);
  }

  lemma FinishKeeps(t: Scan, i: nat)
    requires i < |Finish(t)|
    ensures |Finish(t)[i]| <= Kept(t)
  {
    assert (t.args + [t.token])[..|t.args|] == t.args;
    TokenAtMostTotal(Finish(t), i);
  }

  /**
   A quote or backslash in a quoted text is lost: unless the text ends in a backslash, no argument
   is as long as the text was.
   */
  lemma SpecialTextShrinks(s: string, i: nat)
    requires !Plain(s) && s[|s| - 1] != '\\'
    requires i < |Tokens("\"" + s + "\"")|
    ensures |Tokens("\"" + s + "\"")[i]| < |s|
  {
    var t := ScanFrom(START, "\"" + s);
    SpecialIsLost(s);
    EndsUnescaped(START, "\"" + s);
    ScanConcat(START, "\"" + s, "\"");
    ScanOne(t, '"');
    StepKeeps(t, '"');
    FinishKeeps(Step(t, '"'), i);
  }

  /** If the text ends in a backslash, the closing quote may become part of the argument. */
  lemma TrailingBackslash(s: string)
    requires s != "" && s[|s| - 1] == '\\' && !Plain(s)
    ensures Tokens("\"" + s + "\"") != [s]
  {
    var t := ScanFrom(START, "\"" + s);
    ScanConcat(START, "\"" + s, "\"");
    ScanOne(t, '"');
    if t.escaped {
      var tokens := Tokens("\"" + s + "\"");
      assert tokens == t.args + [t.token + ['"']];
      var last := tokens[|tokens| - 1];
      assert last[|last| - 1] != s[|s| - 1];
      assert last in tokens && last !in [s];
    } else {
      SpecialIsLost(s);
      StepKeeps(t, '"');
      if |Tokens("\"" + s + "\"")| > 0 { FinishKeeps(Step(t, '"'), 0); }
    }
  }

  /** A quoted text arrives as one argument, unchanged, exactly when it is plain and not empty. */
  lemma QuotedTextPasses(s: string)
    ensures Tokens("\"" + s + "\"") == [s] <==> Plain(s) && s != ""
  {
    if Plain(s) && s != "" {
      PlainTextPasses(s);
    } else if s == "" {
      var tokens := Tokens("\"" + s + "\"");
      TokensNonEmpty("\"" + s + "\"");
      assert "" in [s] && "" !in tokens;
    } else if s[|s| - 1] == '\\' {
      TrailingBackslash(s);
    } else if Tokens("\"" + s + "\"") == [s] {
      SpecialTextShrinks(s, 0);
    }
  }
}
