/** Escaping of text for an XML definition, and the decoder that reads it back. */
module XmlText {
  import opened Wrappers
  import Text

  /** One replacement after the other; the ampersand has to come first. */
  function Escape(s: string): string {
    var t := Text.ReplaceAll(s, '&', "&amp;");
    var u := Text.ReplaceAll(Text.ReplaceAll(t, '<', "&lt;"), '>', "&gt;");
    Text.ReplaceAll(Text.ReplaceAll(u, '"', "&quot;"), '\'', "&apos;")
  }

  function IsDigit(c: char): bool {
    '0' <= c <= '9'
  }

  function IsHex(c: char): bool {
    IsDigit(c) || 'a' <= c <= 'f' || 'A' <= c <= 'F'
  }

  function HexValue(c: char): nat
    requires IsHex(c)
  {
    if IsDigit(c) then c as int - '0' as int else if c >= 'a' then c as int - 'a' as int + 10 else c as int - 'A' as int + 10
  }

  function Number(s: string, base: nat): nat
    requires forall c :: c in s ==> IsHex(c)
  {
    if s == "" then 0 else Number(s[..|s| - 1], base) * base + HexValue(s[|s| - 1])
  }

  predicate Named(e: string) {
    e in {"amp", "apos", "gt", "lt", "quot"}
  }

  /** `#` and decimal digits, or `#x` and hexadecimal ones. */
  predicate Decimal(e: string) {
    |e| > 1 && e[0] == '#' && forall i :: 1 <= i < |e| ==> IsDigit(e[i])
  }

  predicate Hexadecimal(e: string) {
    |e| > 2 && e[0] == '#' && e[1] == 'x' && forall i :: 2 <= i < |e| ==> IsHex(e[i])
  }

  predicate Entity(e: string) {
    Named(e) || Decimal(e) || Hexadecimal(e)
  }

  /** The text up to the next semicolon, if there is one. */
  function UpToSemicolon(s: string): Option<string> {
    if s == "" then None
    else if s[0] == ';' then Some("")
    else match UpToSemicolon(s[1..]) case None => None case Some(e) => Some([s[0]] + e)
  }

  /** The entity after an ampersand. */
  function EntityAt(s: string): Option<string> {
    match UpToSemicolon(s)
    case Some(e) => if Entity(e) then Some(e) else None
    case None => None
  }

  lemma {:induction false} UpToSemicolonIs(s: string)
    ensures var e := UpToSemicolon(s);
            e.Some? ==> |e.value| < |s| && s[..|e.value|] == e.value && s[|e.value|] == ';'
  {
    if s != "" && s[0] != ';' {
      UpToSemicolonIs(s[1..]);
    }
  }

  /** Some ampersand starts no entity. */
  predicate Stray(s: string) {
    s != "" && ((s[0] == '&' && EntityAt(s[1..]).None?) || Stray(s[1..]))
  }

  /** A number beyond the last code point, or one that is no character of its own, reads as U+FFFD. */
  function CharOf(n: nat): char {
    if n <= 0x10FFFF && !(0xD800 <= n < 0xE000) then n as char else '\U{FFFD}'
  }

  function Meaning(e: string): char
    requires Entity(e)
  {
    if e == "amp" then '&'
    else if e == "apos" then '\''
    else if e == "gt" then '>'
    else if e == "lt" then '<'
    else if e == "quot" then '"'
    else if Hexadecimal(e) then CharOf(Number(e[2..], 16))
    else CharOf(Number(e[1..], 10))
  }

  /** Each entity is replaced by its meaning, from left to right. */
  function Replaced(s: string): string
    decreases |s|
  {
    if s == "" then
      ""
    else if s[0] == '&' && EntityAt(s[1..]).Some? then
      var e := EntityAt(s[1..]).value;
      UpToSemicolonIs(s[1..]);
      [Meaning(e)] + Replaced(s[|e| + 2..])
    else
      [s[0]] + Replaced(s[1..])
  }

  function Decode(s: string): Option<string> {
    if Stray(s) then None else Some(Replaced(s))
  }

  // ----- Escaping, character by character -----

  /** The escaped form when only the first `k` of the five replacements were made. */
  function Staged(k: nat, c: char): string {
    if c == '&' && k > 0 then "&amp;"
    else if c == '<' && k > 1 then "&lt;"
    else if c == '>' && k > 2 then "&gt;"
    else if c == '"' && k > 3 then "&quot;"
    else if c == '\'' && k > 4 then "&apos;"
    else [c]
  }

  function StagedAll(k: nat, s: string): string {
    if s == "" then "" else Staged(k, s[0]) + StagedAll(k, s[1..])
  }

  /** The next replacement finds its character only where it was written, never in an entity made before. */
  lemma {:induction false} NextStage(k: nat, s: string, c: char, t: string)
    requires Staged(k, c) == [c] && Staged(k + 1, c) == t
    requires forall x :: x != c ==> c !in Staged(k, x) && Staged(k + 1, x) == Staged(k, x)
    ensures Text.ReplaceAll(StagedAll(k, s), c, t) == StagedAll(k + 1, s)
  {
    if s != "" {
      Text.ReplaceAllAppend(Staged(k, s[0]), StagedAll(k, s[1..]), c, t);
      NextStage(k, s[1..], c, t);
      if s[0] == c {
        assert Text.ReplaceAll([c], c, t) == t + Text.ReplaceAll("", c, t) == t;
      } else {
        Text.ReplaceNothing(Staged(k, s[0]), c, t);
      }
    }
  }

  lemma {:induction false} StageZero(s: string)
    ensures StagedAll(0, s) == s
  {
    if s != "" {
      StageZero(s[1..]);
    }
  }

  lemma EscapeByCharacter(s: string)
    ensures Escape(s) == StagedAll(5, s)
  {
    hide Text.ReplaceAll, StagedAll;
    StageZero(s);
    NextStage(0, s, '&', "&amp;");
    NextStage(1, s, '<', "&lt;");
    NextStage(2, s, '>', "&gt;");
    NextStage(3, s, '"', "&quot;");
    NextStage(4, s, '\'', "&apos;");
  }

  // ----- Decoding what was escaped -----

  lemma {:induction false} ScanEntity(e: string, rest: string)
    requires ';' !in e
    ensures UpToSemicolon(e + ";" + rest) == Some(e)
  {
    var s := e + ";" + rest;
    if e == "" {
      assert s[0] == ';';
    } else {
      assert s[0] == e[0] && s[1..] == e[1..] + ";" + rest;
      ScanEntity(e[1..], rest);
      assert [e[0]] + e[1..] == e;
    }
  }

  lemma ReadNamed(e: string, rest: string)
    requires Named(e)
    ensures var s := "&" + (e + ";" + rest);
            EntityAt(s[1..]) == Some(e) && Replaced(s) == [Meaning(e)] + Replaced(rest)
            && (Stray(s) <==> Stray(e + ";" + rest))
  {
    hide UpToSemicolon, Meaning;
    var s := "&" + (e + ";" + rest);
    assert s[1..] == e + ";" + rest;
    ScanEntity(e, rest);
    assert s[|e| + 2..] == rest;
  }

  lemma {:induction false} PlainIsNotStray(p: string, rest: string)
    requires '&' !in p
    ensures Stray(p + rest) <==> Stray(rest)
  {
    if p == "" {
      assert p + rest == rest;
    } else {
      assert (p + rest)[1..] == p[1..] + rest && p[0] in p;
      PlainIsNotStray(p[1..], rest);
    }
  }

  lemma ReadOne(e: string, rest: string)
    requires Named(e)
    ensures Replaced("&" + e + ";" + rest) == [Meaning(e)] + Replaced(rest)
    ensures Stray("&" + e + ";" + rest) <==> Stray(rest)
  {
    assert "&" + e + ";" + rest == "&" + (e + ";" + rest);
    ReadNamed(e, rest);
    PlainIsNotStray(e + ";", rest);
  }

  lemma ReadEscapedChar(c: char, rest: string)
    ensures Replaced(Staged(5, c) + rest) == [c] + Replaced(rest)
    ensures Stray(Staged(5, c) + rest) <==> Stray(rest)
  {
    hide Replaced, Stray;
    if c == '&' {
      ReadOne("amp", rest);
      assert "&" + "amp" + ";" == "&amp;";
    } else if c == '<' {
      ReadOne("lt", rest);
      assert "&" + "lt" + ";" == "&lt;";
    } else if c == '>' {
      ReadOne("gt", rest);
      assert "&" + "gt" + ";" == "&gt;";
    } else if c == '"' {
      ReadOne("quot", rest);
      assert "&" + "quot" + ";" == "&quot;";
    } else if c == '\'' {
      ReadOne("apos", rest);
      assert "&" + "apos" + ";" == "&apos;";
    } else {
      ReadPlain(c, rest);
    }
  }

  lemma ReadPlain(c: char, rest: string)
    requires c != '&'
    ensures Replaced([c] + rest) == [c] + Replaced(rest)
    ensures Stray([c] + rest) <==> Stray(rest)
  {
    assert ([c] + rest)[1..] == rest;
  }

  lemma {:induction false} ReadEscaped(s: string)
    ensures !Stray(StagedAll(5, s)) && Replaced(StagedAll(5, s)) == s
  {
    if s != "" {
      ReadEscaped(s[1..]);
      ReadEscapedChar(s[0], StagedAll(5, s[1..]));
    }
  }

  /** Decoding undoes escaping on every text. */
  lemma DecodeUndoesEscape(s: string)
    ensures Decode(Escape(s)) == Some(s)
  {
    EscapeByCharacter(s);
    ReadEscaped(s);
  }

  lemma {:induction false} StagedIsClean(s: string)
    ensures forall c :: c in StagedAll(5, s) ==> c != '<' && c != '>' && c != '"' && c != '\''
  {
    if s != "" {
      StagedIsClean(s[1..]);
    }
  }

  /** Escaped text holds no markup character, and texts that differ stay different. */
  lemma EscapedIsCleanAndDistinct(a: string, b: string)
    ensures forall c :: c in Escape(a) ==> c != '<' && c != '>' && c != '"' && c != '\''
    ensures Escape(a) == Escape(b) <==> a == b
  {
    EscapeByCharacter(a);
    StagedIsClean(a);
    DecodeUndoesEscape(a);
    DecodeUndoesEscape(b);
  }

  /** A decoder refuses exactly the texts in which some ampersand starts no entity. */
  lemma {:induction false} RefusesStrayAmpersands(s: string)
    ensures Decode(s).None? <==> exists i :: 0 <= i < |s| && s[i] == '&' && EntityAt(s[i + 1..]).None?
  {
    if s != "" {
      RefusesStrayAmpersands(s[1..]);
      if i :| 0 <= i < |s| && s[i] == '&' && EntityAt(s[i + 1..]).None? {
        if i > 0 {
          assert s[1..][i - 1] == '&' && s[1..][i..] == s[i + 1..];
        }
      }
      if i :| 0 <= i < |s[1..]| && s[1..][i] == '&' && EntityAt(s[1..][i + 1..]).None? {
        assert s[i + 1] == '&' && s[1..][i + 1..] == s[i + 2..];
      }
    }
  }
}
