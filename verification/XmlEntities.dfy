/** What the decoder makes of every text: a text is refused, or is a row of characters and entities, each read for what it is. */
module XmlEntities {
  import opened Wrappers
  import opened XmlText
  import Text

  const SMALL_HEX := "0123456789abcdef"
  const CAPITAL_HEX := "0123456789ABCDEF"

  /** A character, one of the five names, or a number in decimal or hexadecimal digits. */
  datatype Token = Plain(c: char) | Name(name: string, c: char) | Numeric(hex: bool, digits: string)

  /** The digit stands for this number. */
  predicate StandsFor(c: char, v: nat) {
    v < 16 && (SMALL_HEX[v] == c || CAPITAL_HEX[v] == c)
  }

  predicate IsDigitOf(c: char, base: nat) {
    exists v: nat :: StandsFor(c, v) && v < base
  }

  predicate Good(t: Token) {
    match t
    case Plain(c) => c != '&'
    case Name(name, c) => (name, c) in {("amp", '&'), ("apos", '\''), ("gt", '>'), ("lt", '<'), ("quot", '"')}
    case Numeric(hex, digits) => digits != "" && forall c :: c in digits ==> IsDigitOf(c, if hex then 16 else 10)
  }

  function Spelled(t: Token): string {
    match t
    case Plain(c) => [c]
    case Name(name, _) => "&" + name + ";"
    case Numeric(hex, digits) => "&" + ("#" + (if hex then "x" else "") + digits) + ";"
  }

  function Power(base: nat, n: nat): nat {
    if n == 0 then 1 else base * Power(base, n - 1)
  }

  ghost function WorthOf(c: char): (v: nat)
    requires IsDigitOf(c, 16)
    ensures StandsFor(c, v)
  {
    var v: nat :| StandsFor(c, v) && v < 16;
    v
  }

  /** The first digit counts most. */
  ghost function Worth(digits: string, base: nat): nat
    requires forall c :: c in digits ==> IsDigitOf(c, 16)
  {
    if digits == "" then 0
    else
      assert digits[0] in digits;
      WorthOf(digits[0]) * Power(base, |digits| - 1) + Worth(digits[1..], base)
  }

  /** A number that is no character by itself stands for the replacement character. */
  ghost function Sense(t: Token): char
    requires Good(t)
  {
    match t
    case Plain(c) => c
    case Name(_, c) => c
    case Numeric(hex, digits) =>
      assert forall c :: c in digits ==> IsDigitOf(c, 16);
      var n := Worth(digits, if hex then 16 else 10);
      if n < 0xD800 || 0xE000 <= n < 0x11_0000 then n as char else '\U{FFFD}'
  }

  predicate AllGood(ts: seq<Token>) {
    forall t :: t in ts ==> Good(t)
  }

  function SpelledAll(ts: seq<Token>): string {
    if ts == [] then "" else Spelled(ts[0]) + SpelledAll(ts[1..])
  }

  ghost function SenseAll(ts: seq<Token>): string
    requires AllGood(ts)
  {
    if ts == [] then "" else [Sense(ts[0])] + SenseAll(ts[1..])
  }

  // ----- Digits -----

  lemma SmallHexIs(v: nat)
    requires v < 16
    ensures SMALL_HEX[v] == if v < 10 then ('0' as int + v) as char else ('a' as int + v - 10) as char
    ensures CAPITAL_HEX[v] == if v < 10 then ('0' as int + v) as char else ('A' as int + v - 10) as char
  {
  }

  lemma HexDigitIs(c: char, v: nat)
    ensures StandsFor(c, v) <==> IsHex(c) && HexValue(c) == v
    ensures StandsFor(c, v) ==> (IsDigit(c) <==> v < 10)
  {
    if v < 16 {
      SmallHexIs(v);
    }
    hide SMALL_HEX, CAPITAL_HEX;
  }

  lemma DigitOf(c: char)
    ensures IsDigitOf(c, 16) <==> IsHex(c)
    ensures IsDigitOf(c, 10) <==> IsDigit(c)
  {
    if IsHex(c) {
      HexDigitIs(c, HexValue(c));
    }
    if v: nat :| StandsFor(c, v) {
      HexDigitIs(c, v);
    }
    hide SMALL_HEX, CAPITAL_HEX;
    if v: nat :| StandsFor(c, v) && v < 10 {
      HexDigitIs(c, v);
    }
    if v: nat :| StandsFor(c, v) && v < 16 {
      HexDigitIs(c, v);
    }
  }

  /** Taking the digits from the right gives the same number as counting them from the left. */
  lemma {:induction false} NumberIsWorth(digits: string, base: nat)
    requires forall c :: c in digits ==> IsHex(c)
    ensures forall c :: c in digits ==> IsDigitOf(c, 16)
    ensures Number(digits, base) == Worth(digits, base)
    decreases |digits|
  {
    forall c | c in digits ensures IsDigitOf(c, 16) {
      DigitOf(c);
    }
    if digits != "" {
      NumberIsWorth(digits[1..], base);
      NumberFromLeft(digits, base);
      assert digits[0] in digits;
      HexDigitIs(digits[0], WorthOf(digits[0]));
    }
  }

  lemma {:induction false} NumberFromLeft(digits: string, base: nat)
    requires digits != "" && forall c :: c in digits ==> IsHex(c)
    ensures Number(digits, base) == HexValue(digits[0]) * Power(base, |digits| - 1) + Number(digits[1..], base)
    decreases |digits|
  {
    var n := |digits| - 1;
    if n == 0 {
      assert digits[..0] == "" && digits[1..] == "";
    } else {
      var front := digits[..n];
      NumberFromLeft(front, base);
      assert front[1..] == digits[1..][..n - 1] && digits[1..][n - 1] == digits[n];
      Scaled(HexValue(digits[0]), Power(base, n - 1), base, Number(front[1..], base));
    }
  }

  lemma Scaled(v: nat, p: nat, base: nat, rest: nat)
    ensures (v * p + rest) * base == v * (base * p) + rest * base
  {
  }

  // ----- Reading one entity -----

  lemma ReadEntity(e: string, rest: string)
    requires Entity(e) && ';' !in e && '&' !in e
    ensures Replaced("&" + e + ";" + rest) == [Meaning(e)] + Replaced(rest)
    ensures Stray("&" + e + ";" + rest) <==> Stray(rest)
  {
    var s := "&" + (e + ";" + rest);
    assert "&" + e + ";" + rest == s;
    hide UpToSemicolon, Meaning, Entity;
    assert s[1..] == e + ";" + rest;
    ScanEntity(e, rest);
    assert s[|e| + 2..] == rest;
    PlainIsNotStray(e + ";", rest);
  }

  lemma DecimalIsEntity(digits: string)
    requires digits != "" && forall c :: c in digits ==> IsDigit(c)
    ensures var e := "#" + digits; Entity(e) && ';' !in e && '&' !in e && Meaning(e) == CharOf(Number(digits, 10))
  {
    hide Number, CharOf;
    var e := "#" + digits;
    assert e[1..] == digits && digits[0] in digits && e[1] == digits[0];
    assert forall i :: 1 <= i < |e| ==> e[i] == digits[i - 1] && digits[i - 1] in digits;
  }

  lemma HexadecimalIsEntity(digits: string)
    requires digits != "" && forall c :: c in digits ==> IsHex(c)
    ensures var e := "#x" + digits; Entity(e) && ';' !in e && '&' !in e && Meaning(e) == CharOf(Number(digits, 16))
  {
    hide Number, CharOf;
    var e := "#x" + digits;
    assert e[2..] == digits;
    assert forall i :: 2 <= i < |e| ==> e[i] == digits[i - 2] && digits[i - 2] in digits;
  }

  lemma NumericIsEntity(hex: bool, digits: string)
    requires Good(Numeric(hex, digits))
    ensures var e := "#" + (if hex then "x" else "") + digits;
            Entity(e) && ';' !in e && '&' !in e && Meaning(e) == Sense(Numeric(hex, digits))
  {
    forall c | c in digits ensures IsHex(c) && (!hex ==> IsDigit(c)) {
      DigitOf(c);
    }
    NumberIsWorth(digits, if hex then 16 else 10);
    hide Worth, Number, Entity, Meaning, IsDigitOf, IsHex, IsDigit;
    if hex {
      HexadecimalIsEntity(digits);
      assert "#" + "x" == "#x";
    } else {
      DecimalIsEntity(digits);
      assert "#" + "" == "#";
    }
  }

  lemma NameIsEntity(name: string, c: char)
    requires Good(Name(name, c))
    ensures Entity(name) && ';' !in name && '&' !in name && Meaning(name) == c
  {
    hide Number, CharOf;
  }

  lemma ReadToken(t: Token, rest: string)
    requires Good(t)
    ensures Replaced(Spelled(t) + rest) == [Sense(t)] + Replaced(rest)
    ensures Stray(Spelled(t) + rest) <==> Stray(rest)
  {
    hide Replaced, Stray, Entity, Meaning;
    match t
    case Plain(c) => ReadPlain(c, rest);
    case Name(name, c) =>
      NameIsEntity(name, c);
      ReadEntity(name, rest);
    case Numeric(hex, digits) =>
      NumericIsEntity(hex, digits);
      ReadEntity("#" + (if hex then "x" else "") + digits, rest);
  }

  // ----- Reading a text -----

  lemma {:induction false} ReadTokens(ts: seq<Token>)
    requires AllGood(ts)
    ensures !Stray(SpelledAll(ts)) && Replaced(SpelledAll(ts)) == SenseAll(ts)
    decreases |ts|
  {
    if ts != [] {
      ReadTokens(ts[1..]);
      ReadToken(ts[0], SpelledAll(ts[1..]));
    }
  }

  lemma EntityIsToken(e: string) returns (t: Token)
    requires Entity(e)
    ensures Good(t) && Spelled(t) == "&" + e + ";"
  {
    if Named(e) {
      t := Name(e, if e == "amp" then '&' else if e == "apos" then '\'' else if e == "gt" then '>'
                   else if e == "lt" then '<' else '"');
    } else if Hexadecimal(e) {
      t := Numeric(true, e[2..]);
      forall c | c in e[2..] ensures IsDigitOf(c, 16) {
        DigitOf(c);
      }
      assert e == "#" + "x" + e[2..];
    } else {
      t := Numeric(false, e[1..]);
      forall c | c in e[1..] ensures IsDigitOf(c, 10) {
        DigitOf(c);
      }
      assert e == "#" + "" + e[1..];
    }
  }

  lemma {:induction false} TokensOf(s: string) returns (ts: seq<Token>)
    requires !Stray(s)
    ensures AllGood(ts) && SpelledAll(ts) == s
    decreases |s|
  {
    if s == "" {
      ts := [];
    } else if s[0] != '&' {
      var rest := TokensOf(s[1..]);
      ts := [Plain(s[0])] + rest;
      assert s == [s[0]] + s[1..];
    } else {
      var e := EntityAt(s[1..]).value;
      UpToSemicolonIs(s[1..]);
      var t := EntityIsToken(e);
      var tail := s[|e| + 2..];
      assert s[1..][..|e|] == e && s[1..][|e|] == ';';
      assert s == "&" + e + ";" + tail;
      StrayTail(s, |e| + 2);
      var rest := TokensOf(tail);
      ts := [t] + rest;
    }
  }

  lemma {:induction false} StrayTail(s: string, n: nat)
    requires !Stray(s) && n <= |s|
    ensures !Stray(s[n..])
    decreases n
  {
    if n == 0 {
      assert s[0..] == s;
    } else {
      StrayTail(s[1..], n - 1);
      assert s[1..][n - 1..] == s[n..];
    }
  }

  /**
   * The decoder accepts exactly the texts that are rows of characters and entities, and answers with what the row
   * stands for.
   */
  lemma DecodeExactly(s: string)
    ensures Decode(s).Some? <==> exists ts :: AllGood(ts) && SpelledAll(ts) == s
    ensures forall ts :: AllGood(ts) && SpelledAll(ts) == s ==> Decode(s) == Some(SenseAll(ts))
  {
    if Decode(s).Some? {
      var ts := TokensOf(s);
    }
    forall ts | AllGood(ts) && SpelledAll(ts) == s ensures Decode(s) == Some(SenseAll(ts)) {
      ReadTokens(ts);
    }
  }
}
