/**
 * Quoting an argument for a Windows command line, and Microsoft's documented rules for splitting a command line
 * into the arguments of a C or C++ program.
 */
module WindowsArguments {
  import opened Wrappers

  function Backslashes(n: nat): string {
    seq(n, _ => '\\')
  }

  // ----- The quoting as it is written: two passes -----

  /** Doubles the backslashes in front of each quote and escapes the quote; `run` backslashes came just before. */
  function EscapeQuotes(s: string, run: nat): string {
    if s == "" then Backslashes(run)
    else if s[0] == '\\' then EscapeQuotes(s[1..], run + 1)
    else if s[0] == '"' then Backslashes(run) + Backslashes(run) + "\\\"" + EscapeQuotes(s[1..], 0)
    else Backslashes(run) + [s[0]] + EscapeQuotes(s[1..], 0)
  }

  /** How many backslashes a text ends with. */
  function Trailing(s: string): nat {
    if s == "" || s[|s| - 1] != '\\' then 0 else Trailing(s[..|s| - 1]) + 1
  }

  function DoubleTrailing(s: string): string {
    s + Backslashes(Trailing(s))
  }

  function Quote(value: string): string {
    "\"" + DoubleTrailing(EscapeQuotes(value, 0)) + "\""
  }

  // ----- The documented rules -----

  /** Spaces and tabs separate arguments. */
  predicate Blank(c: char) {
    c == ' ' || c == '\t'
  }

  /** An argument has begun, or backslashes wait whose meaning depends on what follows. */
  function Finished(current: Option<string>, run: nat): seq<string> {
    if current.None? && run == 0 then [] else [Text(current) + Backslashes(run)]
  }

  function Text(current: Option<string>): string {
    if current.Some? then current.value else ""
  }

  predicate StartsWithQuote(s: string) {
    s != "" && s[0] == '"'
  }

  /**
   * Backslashes are literal unless a quote follows: then each pair stands for one, and an odd one makes the quote
   * literal; so do two quotes in a row inside a quoted part. Other quotes open or close a quoted part, in which
   * blanks do not separate.
   */
  function Arguments(s: string, run: nat, quoted: bool, current: Option<string>): seq<string> {
    if s == "" then
      Finished(current, run)
    else if s[0] == '\\' then
      Arguments(s[1..], run + 1, quoted, current)
    else if s[0] == '"' then
      var text := Text(current) + Backslashes(run / 2);
      if run % 2 == 1 then Arguments(s[1..], 0, quoted, Some(text + "\""))
      else if quoted && StartsWithQuote(s[1..]) then Arguments(s[2..], 0, quoted, Some(text + "\""))
      else Arguments(s[1..], 0, !quoted, Some(text))
    else if Blank(s[0]) && !quoted then
      Finished(current, run) + Arguments(s[1..], 0, false, None)
    else
      Arguments(s[1..], 0, quoted, Some(Text(current) + Backslashes(run) + [s[0]]))
  }

  function ParseArguments(s: string): seq<string> {
    Arguments(s, 0, false, None)
  }

  // ----- The two passes in one -----

  function Body(s: string, run: nat): string {
    if s == "" then Backslashes(run) + Backslashes(run)
    else if s[0] == '\\' then Body(s[1..], run + 1)
    else if s[0] == '"' then Backslashes(run) + Backslashes(run) + "\\\"" + Body(s[1..], 0)
    else Backslashes(run) + [s[0]] + Body(s[1..], 0)
  }

  lemma {:induction false} TrailingOfRun(n: nat)
    ensures Trailing(Backslashes(n)) == n
  {
    if n > 0 {
      assert Backslashes(n)[..n - 1] == Backslashes(n - 1);
      TrailingOfRun(n - 1);
    }
  }

  /** Only what follows the last other character counts. */
  lemma {:induction false} DoubleTrailingAfter(p: string, x: string)
    requires p != "" && p[|p| - 1] != '\\'
    ensures DoubleTrailing(p + x) == p + DoubleTrailing(x)
    ensures Trailing(p + x) == Trailing(x)
    decreases |x|
  {
    if x == "" {
      assert p + x == p;
    } else {
      assert (p + x)[..|p + x| - 1] == p + x[..|x| - 1];
      DoubleTrailingAfter(p, x[..|x| - 1]);
    }
  }

  lemma {:induction false} BodyIsBothPasses(s: string, run: nat)
    ensures DoubleTrailing(EscapeQuotes(s, run)) == Body(s, run)
    decreases |s|
  {
    if s == "" {
      TrailingOfRun(run);
    } else if s[0] == '\\' {
      BodyIsBothPasses(s[1..], run + 1);
    } else if s[0] == '"' {
      BodyIsBothPasses(s[1..], 0);
      DoubleTrailingAfter(Backslashes(run) + Backslashes(run) + "\\\"", EscapeQuotes(s[1..], 0));
    } else {
      BodyIsBothPasses(s[1..], 0);
      DoubleTrailingAfter(Backslashes(run) + [s[0]], EscapeQuotes(s[1..], 0));
    }
  }

  // ----- Reading back -----

  lemma {:induction false} ReadRun(k: nat, rest: string, run: nat, quoted: bool, current: Option<string>)
    ensures Arguments(Backslashes(k) + rest, run, quoted, current) == Arguments(rest, run + k, quoted, current)
    decreases k
  {
    if k == 0 {
      assert Backslashes(0) + rest == rest;
    } else {
      assert (Backslashes(k) + rest)[1..] == Backslashes(k - 1) + rest;
      ReadRun(k - 1, rest, run + 1, quoted, current);
    }
  }

  lemma ReadTwoRuns(k: nat, rest: string, quoted: bool, current: Option<string>)
    ensures Arguments(Backslashes(k) + Backslashes(k) + rest, 0, quoted, current) == Arguments(rest, 2 * k, quoted, current)
  {
    assert Backslashes(k) + Backslashes(k) + rest == Backslashes(k) + (Backslashes(k) + rest);
    ReadRun(k, Backslashes(k) + rest, 0, quoted, current);
    ReadRun(k, rest, k, quoted, current);
  }

  lemma ReadQuoteMark(rest: string, run: nat, quoted: bool, current: Option<string>)
    requires run % 2 == 1 || !quoted || !StartsWithQuote(rest)
    ensures var text := Text(current) + Backslashes(run / 2);
            Arguments("\"" + rest, run, quoted, current) ==
            if run % 2 == 1 then Arguments(rest, 0, quoted, Some(text + "\"")) else Arguments(rest, 0, !quoted, Some(text))
  {
    assert ("\"" + rest)[1..] == rest;
  }

  lemma ReadBackslash(rest: string, run: nat, quoted: bool, current: Option<string>)
    ensures Arguments("\\" + rest, run, quoted, current) == Arguments(rest, run + 1, quoted, current)
  {
    assert ("\\" + rest)[1..] == rest;
  }

  lemma ReadOther(c: char, rest: string, run: nat, text: string)
    requires c != '\\' && c != '"'
    ensures Arguments([c] + rest, run, true, Some(text)) == Arguments(rest, 0, true, Some(text + Backslashes(run) + [c]))
  {
    assert ([c] + rest)[1..] == rest;
  }

  lemma NoBackslashes()
    ensures Backslashes(0) == ""
  {
  }

  lemma OneMoreBackslash(run: nat, s: string)
    requires s != "" && s[0] == '\\'
    ensures Backslashes(run + 1) == Backslashes(run) + "\\" && s == "\\" + s[1..]
  {
  }

  lemma Regroup(a: string, b: string, c: string, d: string)
    ensures a + b + c + "" + d == a + b + (c + d)
    ensures a + (b + c) + d == a + b + (c + d)
  {
  }

  /** Inside quotes the body of a value adds exactly that value, and the closing quote ends the quoted part. */
  lemma {:induction false} ReadBody(s: string, run: nat, rest: string, text: string)
    requires !StartsWithQuote(rest)
    ensures Arguments(Body(s, run) + "\"" + rest, 0, true, Some(text)) ==
            Arguments(rest, 0, false, Some(text + Backslashes(run) + s))
    decreases |s|
  {
    hide Arguments, Backslashes;
    NoBackslashes();
    if s == "" {
      assert Body(s, run) + "\"" + rest == Backslashes(run) + Backslashes(run) + ("\"" + rest);
      ReadTwoRuns(run, "\"" + rest, true, Some(text));
      ReadQuoteMark(rest, 2 * run, true, Some(text));
      assert text + Backslashes(run) + s == text + Backslashes(run);
    } else if s[0] == '\\' {
      ReadBody(s[1..], run + 1, rest, text);
      OneMoreBackslash(run, s);
      Regroup(text, Backslashes(run), "\\", s[1..]);
    } else if s[0] == '"' {
      var more := Body(s[1..], 0) + "\"" + rest;
      assert Body(s, run) + "\"" + rest == Backslashes(run) + Backslashes(run) + ("\\" + ("\"" + more));
      ReadTwoRuns(run, "\\" + ("\"" + more), true, Some(text));
      ReadBackslash("\"" + more, 2 * run, true, Some(text));
      ReadQuoteMark(more, 2 * run + 1, true, Some(text));
      ReadBody(s[1..], 0, rest, text + Backslashes(run) + "\"");
      Regroup(text, Backslashes(run), "\"", s[1..]);
      assert s == "\"" + s[1..];
    } else {
      var more := Body(s[1..], 0) + "\"" + rest;
      assert Body(s, run) + "\"" + rest == Backslashes(run) + ([s[0]] + more);
      ReadRun(run, [s[0]] + more, 0, true, Some(text));
      ReadOther(s[0], more, run, text);
      ReadBody(s[1..], 0, rest, text + Backslashes(run) + [s[0]]);
      Regroup(text, Backslashes(run), [s[0]], s[1..]);
      assert s == [s[0]] + s[1..];
    }
  }

  lemma ReadQuoted(value: string, rest: string)
    requires !StartsWithQuote(rest)
    ensures Arguments(Quote(value) + rest, 0, false, None) == Arguments(rest, 0, false, Some(value))
  {
    BodyIsBothPasses(value, 0);
    var more := Body(value, 0) + "\"" + rest;
    assert Quote(value) + rest == "\"" + more;
    ReadQuoteMark(more, 0, false, None);
    ReadBody(value, 0, rest, "");
    assert "" + Backslashes(0) == "" && "" + Backslashes(0) + value == value;
  }

  /** A word that needs no quoting. */
  predicate Plain(word: string) {
    word != "" && forall c :: c in word ==> !Blank(c) && c != '\\' && c != '"'
  }

  lemma ReadPlainChar(c: char, rest: string, current: Option<string>)
    requires !Blank(c) && c != '\\' && c != '"'
    ensures Arguments([c] + rest, 0, false, current) == Arguments(rest, 0, false, Some(Text(current) + [c]))
  {
    assert ([c] + rest)[1..] == rest && Text(current) + Backslashes(0) + [c] == Text(current) + [c];
  }

  lemma {:induction false} ReadPlain(word: string, rest: string, current: Option<string>)
    requires forall c :: c in word ==> !Blank(c) && c != '\\' && c != '"'
    requires word != "" || current.Some?
    ensures Arguments(word + rest, 0, false, current) == Arguments(rest, 0, false, Some(Text(current) + word))
    decreases |word|
  {
    hide Arguments;
    if word == "" {
      assert word + rest == rest && Text(current) + word == current.value;
    } else {
      assert word + rest == [word[0]] + (word[1..] + rest) && word[0] in word;
      ReadPlainChar(word[0], word[1..] + rest, current);
      var next := Text(current) + [word[0]];
      ReadPlain(word[1..], rest, Some(next));
      assert next + word[1..] == Text(current) + word;
    }
  }

  /** An argument as it is written: quoted, or a plain word. */
  datatype Piece = Quoted(value: string) | Bare(value: string)

  function Written(p: Piece): string {
    if p.Quoted? then Quote(p.value) else p.value
  }

  predicate Writable(p: Piece) {
    p.Bare? ==> Plain(p.value)
  }

  function CommandLine(ps: seq<Piece>): string {
    if ps == [] then "" else if |ps| == 1 then Written(ps[0]) else Written(ps[0]) + " " + CommandLine(ps[1..])
  }

  function Values(ps: seq<Piece>): seq<string> {
    seq(|ps|, i requires 0 <= i < |ps| => ps[i].value)
  }

  lemma ReadPiece(p: Piece, rest: string)
    requires Writable(p) && !StartsWithQuote(rest)
    ensures Arguments(Written(p) + rest, 0, false, None) == Arguments(rest, 0, false, Some(p.value))
  {
    if p.Quoted? {
      ReadQuoted(p.value, rest);
    } else {
      ReadPlain(p.value, rest, None);
      assert "" + p.value == p.value;
    }
  }

  /** Pieces written side by side, quoted or plain, are read back as exactly their values. */
  lemma {:induction false} ParsesBack(ps: seq<Piece>)
    requires forall i :: 0 <= i < |ps| ==> Writable(ps[i])
    ensures ParseArguments(CommandLine(ps)) == Values(ps)
    decreases |ps|
  {
    if |ps| == 1 {
      ReadPiece(ps[0], "");
      assert Written(ps[0]) + "" == Written(ps[0]);
      assert ps[0].value + Backslashes(0) == ps[0].value;
    } else if |ps| > 1 {
      var rest := CommandLine(ps[1..]);
      ParsesBack(ps[1..]);
      ReadPiece(ps[0], " " + rest);
      assert Written(ps[0]) + " " + rest == Written(ps[0]) + (" " + rest);
      assert (" " + rest)[1..] == rest;
      assert ps[0].value + Backslashes(0) == ps[0].value;
      assert Values(ps) == [ps[0].value] + Values(ps[1..]);
    }
  }

  /** The arguments of the scheduled task. */
  function TaskArguments(cliPath: string, configurationPath: string): string {
    CommandLine(
      [Quoted(cliPath), Bare("proxy"), Bare("start"), Bare("--service"), Bare("--service-config"), Quoted(configurationPath)])
  }

  lemma OptionsArePlain()
    ensures Plain("proxy") && Plain("start") && Plain("--service") && Plain("--service-config")
  {
  }

  /** Whatever the two paths hold, the task starts the command line interface with exactly these arguments. */
  lemma TaskArgumentsParseBack(cliPath: string, configurationPath: string)
    ensures ParseArguments(TaskArguments(cliPath, configurationPath)) ==
            [cliPath, "proxy", "start", "--service", "--service-config", configurationPath]
  {
    var ps :=
      [Quoted(cliPath), Bare("proxy"), Bare("start"), Bare("--service"), Bare("--service-config"), Quoted(configurationPath)];
    hide CommandLine, ParseArguments, Plain;
    OptionsArePlain();
    ParsesBack(ps);
    assert Values(ps) == [cliPath, "proxy", "start", "--service", "--service-config", configurationPath];
  }

  /** So a task of one installation is never taken for another's: equal texts name equal paths. */
  lemma TaskArgumentsAreDistinct(cli: string, configuration: string, otherCli: string, otherConfiguration: string)
    ensures TaskArguments(cli, configuration) == TaskArguments(otherCli, otherConfiguration) <==>
            cli == otherCli && configuration == otherConfiguration
  {
    TaskArgumentsParseBack(cli, configuration);
    TaskArgumentsParseBack(otherCli, otherConfiguration);
  }
}
