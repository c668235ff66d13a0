/** Service versions and their precedence, as items 9 to 11 of Semantic Versioning 2.0.0 define it. */
module ServiceVersion {
  import opened Wrappers
  import Text

  const MAX_SAFE_INTEGER: nat := 9007199254740991

  datatype Version = Version(core: seq<nat>, prerelease: Option<seq<string>>)

  predicate IsDigit(c: char) { '0' <= c <= '9' }

  predicate IsIdentifierChar(c: char) {
    IsDigit(c) || 'A' <= c <= 'Z' || 'a' <= c <= 'z' || c == '-'
  }

  /** Digits, and the letters of ASCII with the hyphen. */
  lemma AlphabetExactly(c: char)
    ensures IsDigit(c) <==> c in Text.DIGITS
    ensures IsIdentifierChar(c) <==> c in Text.DIGITS + Text.CAPITAL + Text.SMALL + "-"
  {
    Text.DigitsAre(c);
    Text.CapitalAre(c);
    Text.SmallAre(c);
    hide Text.DIGITS, Text.CAPITAL, Text.SMALL;
  }

  predicate AllDigits(s: string) {
    s != "" && forall c :: c in s ==> IsDigit(c)
  }

  /** Digits without a leading zero, unless the number is zero itself. */
  predicate IsNumeric(s: string) {
    AllDigits(s) && (s[0] == '0' ==> s == "0")
  }

  predicate IsIdentifier(s: string) {
    s != "" && forall c :: c in s ==> IsIdentifierChar(c)
  }

  predicate AreIdentifiers(pieces: seq<string>) {
    forall p :: p in pieces ==> IsIdentifier(p)
  }

  function Pow10(n: nat): (r: nat)
    ensures r >= 1
  {
    if n == 0 then 1 else 10 * Pow10(n - 1)
  }

  function Digit(c: char): nat
    requires IsDigit(c)
  {
    (c as int) - ('0' as int)
  }

  /** The integer that a string of digits denotes. */
  function Value(s: string): nat
    requires forall c :: c in s ==> IsDigit(c)
  {
    if s == "" then 0 else Digit(s[0]) * Pow10(|s| - 1) + Value(s[1..])
  }

  function ParseCore(pieces: seq<string>): Option<seq<nat>> {
    if |pieces| == 3 && IsNumeric(pieces[0]) && IsNumeric(pieces[1]) && IsNumeric(pieces[2])
       && Value(pieces[0]) <= MAX_SAFE_INTEGER && Value(pieces[1]) <= MAX_SAFE_INTEGER
       && Value(pieces[2]) <= MAX_SAFE_INTEGER
    then Some([Value(pieces[0]), Value(pieces[1]), Value(pieces[2])])
    else None
  }

  predicate HasLeadingZero(s: string) {
    AllDigits(s) && s[0] == '0' && |s| > 1
  }

  /** Build metadata is checked and dropped; numeric prerelease identifiers have no leading zeros. */
  function Parse(version: string): Option<Version> {
    var (main, build) := Text.Cut(version, '+');
    var (coreText, prereleaseText) := Text.Cut(main, '-');
    var core := ParseCore(Text.Split(coreText, '.'));
    var prerelease := if prereleaseText.None? then None else Some(Text.Split(prereleaseText.value, '.'));
    if core.None?
       || (prerelease.Some? && !AreIdentifiers(prerelease.value))
       || (build.Some? && !AreIdentifiers(Text.Split(build.value, '.')))
       || (prerelease.Some? && exists p :: p in prerelease.value && HasLeadingZero(p))
    then None
    else Some(Version(core.value, prerelease))
  }

  /** The parts of a version in the grammar of item 2, 9 and 10. */
  datatype Parts = Parts(core: seq<string>, prerelease: Option<seq<string>>, build: Option<seq<string>>)

  predicate WellFormed(p: Parts) {
    && |p.core| == 3 && (forall i :: 0 <= i < 3 ==> IsNumeric(p.core[i]) && Value(p.core[i]) <= MAX_SAFE_INTEGER)
    && (p.prerelease.Some? ==>
          |p.prerelease.value| >= 1 && AreIdentifiers(p.prerelease.value)
          && forall i :: i in p.prerelease.value ==> !HasLeadingZero(i))
    && (p.build.Some? ==> |p.build.value| >= 1 && AreIdentifiers(p.build.value))
  }

  function Written(p: Parts): string
    requires WellFormed(p)
  {
    var prerelease := if p.prerelease.None? then None else Some(Text.Join(p.prerelease.value, '.'));
    var build := if p.build.None? then None else Some(Text.Join(p.build.value, '.'));
    Text.Glue(Text.Glue(Text.Join(p.core, '.'), prerelease, '-'), build, '+')
  }

  function Meaning(p: Parts): Version
    requires WellFormed(p)
  {
    Version([Value(p.core[0]), Value(p.core[1]), Value(p.core[2])], p.prerelease)
  }

  lemma {:induction false} JoinedFrom(pieces: seq<string>, sep: char, c: char)
    requires |pieces| >= 1 && c != sep && forall p :: p in pieces ==> c !in p
    ensures c !in Text.Join(pieces, sep)
    decreases |pieces|
  {
    if |pieces| > 1 {
      JoinedFrom(pieces[1..], sep, c);
    }
  }

  /** Every well-formed text parses to what its parts mean. */
  lemma ParseWritten(p: Parts)
    requires WellFormed(p)
    ensures Parse(Written(p)) == Some(Meaning(p))
  {
    var core := Text.Join(p.core, '.');
    var prerelease := if p.prerelease.None? then None else Some(Text.Join(p.prerelease.value, '.'));
    var build := if p.build.None? then None else Some(Text.Join(p.build.value, '.'));
    var main := Text.Glue(core, prerelease, '-');
    JoinedFrom(p.core, '.', '-');
    JoinedFrom(p.core, '.', '+');
    Text.SplitJoin(p.core, '.');
    if p.prerelease.Some? {
      JoinedFrom(p.prerelease.value, '.', '+');
      Text.SplitJoin(p.prerelease.value, '.');
    }
    if p.build.Some? {
      Text.SplitJoin(p.build.value, '.');
    }
    Text.CutExactly(Written(p), main, build, '+');
    Text.CutExactly(main, core, prerelease, '-');
  }

  /** Nothing else parses: a text that parses is written by well-formed parts with that meaning. */
  lemma {:induction false} ParsedIsWritten(version: string) returns (p: Parts)
    requires Parse(version).Some?
    ensures WellFormed(p) && Written(p) == version && Some(Meaning(p)) == Parse(version)
  {
    var (main, build) := Text.Cut(version, '+');
    var (core, prerelease) := Text.Cut(main, '-');
    Text.CutExactly(version, main, build, '+');
    Text.CutExactly(main, core, prerelease, '-');
    Text.JoinSplit(core, '.');
    if prerelease.Some? {
      Text.JoinSplit(prerelease.value, '.');
    }
    if build.Some? {
      Text.JoinSplit(build.value, '.');
    }
    p := Parts(
      Text.Split(core, '.'),
      if prerelease.None? then None else Some(Text.Split(prerelease.value, '.')),
      if build.None? then None else Some(Text.Split(build.value, '.')));
  }

  // ----- Comparison as it is coded -----

  function ComparePrereleaseIdentifier(left: string, right: string): (r: int)
    ensures -1 <= r <= 1
  {
    if IsNumeric(left) && IsNumeric(right) then
      if |left| != |right| then (if |left| < |right| then -1 else 1) else Text.Compare(left, right)
    else if IsNumeric(left) != IsNumeric(right) then
      if IsNumeric(left) then -1 else 1
    else
      Text.Compare(left, right)
  }

  /** Compares field by field; a missing prerelease is a release and comes last. */
  method ComparePrerelease(left: Option<seq<string>>, right: Option<seq<string>>) returns (r: int)
    requires left.Some? ==> Canonical(left.value)
    requires right.Some? ==> Canonical(right.value)
    ensures r == PrereleasePrecedence(left, right)
  {
    if left.None? || right.None? {
      return if left == right then 0 else if left.Some? then -1 else 1;
    }
    var l, s := left.value, right.value;
    var index := 0;
    assert l[0..] == l && s[0..] == s;
    while index < |l| || index < |s|
      decreases |l| + |s| - index
      invariant 0 <= index <= |l| && index <= |s|
      invariant FieldsPrecedence(l, s) == FieldsPrecedence(l[index..], s[index..])
    {
      if index >= |l| || index >= |s| {
        return if index >= |l| then -1 else 1;
      }
      CodedIdentifierOrder(l[index], s[index]);
      var comparison := ComparePrereleaseIdentifier(l[index], s[index]);
      if comparison != 0 {
        return comparison;
      }
      index := index + 1;
    }
    return 0;
  }

  /** None when either text is not a version; otherwise the sign of the comparison. */
  method CompareServiceVersions(left: string, right: string) returns (r: Option<int>)
    ensures r == Compare(left, right)
  {
    var parsedLeft, parsedRight := Parse(left), Parse(right);
    if parsedLeft.None? || parsedRight.None? {
      return None;
    }
    var a, b := parsedLeft.value, parsedRight.value;
    ParsedIsCanonical(left);
    ParsedIsCanonical(right);
    var index := 0;
    while index < 3
      invariant 0 <= index <= 3
      invariant forall i :: 0 <= i < index ==> a.core[i] == b.core[i]
    {
      if a.core[index] != b.core[index] {
        return Some(if a.core[index] < b.core[index] then -1 else 1);
      }
      index := index + 1;
    }
    var prerelease := ComparePrerelease(a.prerelease, b.prerelease);
    return Some(prerelease);
  }

  // ----- Precedence as the standard defines it -----

  function Sign(a: int, b: int): int {
    if a < b then -1 else if a > b then 1 else 0
  }

  /** Item 11.4: numeric fields by value, others in ASCII order, numeric before others. */
  function IdentifierPrecedence(left: string, right: string): int {
    if AllDigits(left) && AllDigits(right) then Sign(Value(left), Value(right))
    else if AllDigits(left) then -1
    else if AllDigits(right) then 1
    else Text.Compare(left, right)
  }

  /** Item 11.4.4: field by field, and with equal fields the longer list is higher. */
  function FieldsPrecedence(left: seq<string>, right: seq<string>): int {
    if left == [] || right == [] then
      Sign(|left|, |right|)
    else
      var first := IdentifierPrecedence(left[0], right[0]);
      if first != 0 then first else FieldsPrecedence(left[1..], right[1..])
  }

  /** Item 11.3: a prerelease comes before its release. */
  function PrereleasePrecedence(left: Option<seq<string>>, right: Option<seq<string>>): int {
    if left.None? then (if right.None? then 0 else 1)
    else if right.None? then -1
    else FieldsPrecedence(left.value, right.value)
  }

  /** Items 11.1 and 11.2: major, minor and patch decide first. */
  function Precedence(a: Version, b: Version): int
    requires |a.core| == 3 && |b.core| == 3
  {
    if a.core[0] != b.core[0] then Sign(a.core[0], b.core[0])
    else if a.core[1] != b.core[1] then Sign(a.core[1], b.core[1])
    else if a.core[2] != b.core[2] then Sign(a.core[2], b.core[2])
    else PrereleasePrecedence(a.prerelease, b.prerelease)
  }

  function Compare(left: string, right: string): Option<int> {
    var a, b := Parse(left), Parse(right);
    if a.None? || b.None? then None else Some(Precedence(a.value, b.value))
  }

  // ----- Length and then text is the order of values -----

  /** A prerelease list as Parse produces it: digits only without leading zeros. */
  predicate Canonical(fields: seq<string>) {
    forall i :: 0 <= i < |fields| ==> fields[i] != "" && !HasLeadingZero(fields[i])
  }

  lemma ParsedIsCanonical(version: string)
    ensures var v := Parse(version);
            v.Some? ==> |v.value.core| == 3 && (v.value.prerelease.Some? ==> Canonical(v.value.prerelease.value))
  {
    var v := Parse(version);
    if v.Some? && v.value.prerelease.Some? {
      var fields := v.value.prerelease.value;
      forall i | 0 <= i < |fields| ensures fields[i] != "" && !HasLeadingZero(fields[i]) {
        assert fields[i] in fields;
      }
    }
  }

  lemma {:induction false} ValueBelow(s: string)
    requires forall c :: c in s ==> IsDigit(c)
    ensures Value(s) < Pow10(|s|)
    decreases |s|
  {
    if s != "" {
      ValueBelow(s[1..]);
      Scaled(Digit(s[0]), 10, Pow10(|s| - 1));
    }
  }

  lemma {:induction false} Pow10Grows(a: nat, b: nat)
    requires a <= b
    ensures Pow10(a) <= Pow10(b)
    decreases b
  {
    if a < b {
      Pow10Grows(a, b - 1);
    }
  }

  lemma Scaled(x: nat, y: nat, p: nat)
    ensures x < y ==> x * p + p <= y * p
  {
    if x < y {
      assert y * p == x * p + (y - x) * p;
      assert (y - x) * p >= p by {
        var d := y - x - 1;
        assert (d + 1) * p == d * p + p;
      }
    }
  }

  lemma LeadingDigitDecides(x: nat, y: nat, p: nat, v: nat, w: nat)
    requires v < p && w < p
    ensures Sign(x * p + v, y * p + w) == if x != y then Sign(x, y) else Sign(v, w)
  {
    Scaled(x, y, p);
    Scaled(y, x, p);
  }

  lemma {:induction false} SameLengthOrder(a: string, b: string)
    requires |a| == |b| && (forall c :: c in a ==> IsDigit(c)) && forall c :: c in b ==> IsDigit(c)
    ensures Text.Compare(a, b) == Sign(Value(a), Value(b))
    decreases |a|
  {
    if a != "" {
      SameLengthOrder(a[1..], b[1..]);
      ValueBelow(a[1..]);
      ValueBelow(b[1..]);
      LeadingDigitDecides(Digit(a[0]), Digit(b[0]), Pow10(|a| - 1), Value(a[1..]), Value(b[1..]));
    }
  }

  lemma ShorterIsSmaller(a: string, b: string)
    requires IsNumeric(a) && IsNumeric(b) && |a| < |b|
    ensures Value(a) < Value(b)
  {
    ValueBelow(a);
    Pow10Grows(|a|, |b| - 1);
    assert b[0] != '0';
    Scaled(0, Digit(b[0]), Pow10(|b| - 1));
  }

  /** The coded comparison of two identifiers is their precedence, at any length. */
  lemma CodedIdentifierOrder(left: string, right: string)
    requires left != "" && right != "" && !HasLeadingZero(left) && !HasLeadingZero(right)
    ensures ComparePrereleaseIdentifier(left, right) == IdentifierPrecedence(left, right)
  {
    if IsNumeric(left) && IsNumeric(right) {
      if |left| < |right| {
        ShorterIsSmaller(left, right);
      } else if |right| < |left| {
        ShorterIsSmaller(right, left);
      } else {
        SameLengthOrder(left, right);
      }
    }
  }

  // ----- A total preorder -----

  lemma IdentifierOrder(a: string, b: string, c: string)
    ensures IdentifierPrecedence(a, b) == -IdentifierPrecedence(b, a)
    ensures Text.Transitive(IdentifierPrecedence(a, b), IdentifierPrecedence(b, c), IdentifierPrecedence(a, c))
  {
    Text.CompareIsOrder(a, b, c);
  }

  lemma {:induction false} FieldsOrder(a: seq<string>, b: seq<string>, c: seq<string>)
    ensures FieldsPrecedence(a, b) == -FieldsPrecedence(b, a)
    ensures Text.Transitive(FieldsPrecedence(a, b), FieldsPrecedence(b, c), FieldsPrecedence(a, c))
    decreases |a| + |b| + |c|
  {
    if a != [] && b != [] {
      IdentifierOrder(a[0], b[0], if c != [] then c[0] else "");
      FieldsOrder(a[1..], b[1..], if c != [] then c[1..] else []);
    }
  }

  lemma VersionOrder(a: Version, b: Version, c: Version)
    requires |a.core| == 3 && |b.core| == 3 && |c.core| == 3
    ensures Precedence(a, b) == -Precedence(b, a)
    ensures Text.Transitive(Precedence(a, b), Precedence(b, c), Precedence(a, c))
  {
    var none: seq<string> := [];
    FieldsOrder(
      if a.prerelease.Some? then a.prerelease.value else none,
      if b.prerelease.Some? then b.prerelease.value else none,
      if c.prerelease.Some? then c.prerelease.value else none);
  }

  /** On texts that parse, the comparison is antisymmetric in sign and transitive, ties included. */
  lemma CompareIsTotalPreorder(a: string, b: string, c: string)
    requires Parse(a).Some? && Parse(b).Some? && Parse(c).Some?
    ensures Compare(a, a) == Some(0)
    ensures Compare(a, b).Some? && Compare(a, b).value == -Compare(b, a).value
    ensures Text.Transitive(Compare(a, b).value, Compare(b, c).value, Compare(a, c).value)
  {
    VersionOrder(Parse(a).value, Parse(b).value, Parse(c).value);
    VersionOrder(Parse(a).value, Parse(a).value, Parse(a).value);
  }

  lemma {:induction false} SameValueSameText(a: string, b: string)
    requires IsNumeric(a) && IsNumeric(b) && Value(a) == Value(b)
    ensures a == b
  {
    if |a| < |b| {
      ShorterIsSmaller(a, b);
    } else if |b| < |a| {
      ShorterIsSmaller(b, a);
    } else {
      SameLengthOrder(a, b);
      Text.CompareIsOrder(a, b, a);
    }
  }

  lemma {:induction false} SameFields(a: seq<string>, b: seq<string>)
    requires Canonical(a) && Canonical(b)
    ensures FieldsPrecedence(a, b) == 0 <==> a == b
    decreases |a|
  {
    if a != [] && b != [] {
      if AllDigits(a[0]) && AllDigits(b[0]) && Value(a[0]) == Value(b[0]) {
        SameValueSameText(a[0], b[0]);
      }
      Text.CompareIsOrder(a[0], b[0], a[0]);
      SameFields(a[1..], b[1..]);
      assert a == [a[0]] + a[1..] && b == [b[0]] + b[1..];
    }
  }

  /** Two texts tie exactly when they differ in build metadata at most. */
  lemma TieMeansSameVersion(a: string, b: string)
    requires Parse(a).Some? && Parse(b).Some?
    ensures Compare(a, b) == Some(0) <==> Parse(a) == Parse(b)
  {
    var v, w := Parse(a).value, Parse(b).value;
    ParsedIsCanonical(a);
    ParsedIsCanonical(b);
    assert v.core == [v.core[0], v.core[1], v.core[2]] && w.core == [w.core[0], w.core[1], w.core[2]];
    if v.prerelease.Some? && w.prerelease.Some? {
      SameFields(v.prerelease.value, w.prerelease.value);
    }
  }

  /** The later version does not come before the earlier one. */
  predicate AtLeast(later: string, earlier: string) {
    Compare(later, earlier).Some? && Compare(later, earlier).value >= 0
  }

  lemma AtLeastItself(a: string)
    requires Parse(a).Some?
    ensures AtLeast(a, a)
  {
    CompareIsTotalPreorder(a, a, a);
  }

  lemma AtLeastChains(a: string, b: string, c: string)
    requires AtLeast(a, b) && AtLeast(b, c)
    ensures AtLeast(a, c)
  {
    hide Precedence, Parse;
    CompareIsTotalPreorder(c, b, a);
    CompareIsTotalPreorder(a, b, c);
    CompareIsTotalPreorder(a, c, b);
  }

  lemma AtLeastOrNewer(a: string, b: string)
    requires Parse(a).Some? && Parse(b).Some?
    ensures Compare(a, b).Some? && -1 <= Compare(a, b).value <= 1
    ensures Compare(a, b).value == 1 ==> AtLeast(a, b)
    ensures Compare(a, b).value != 1 ==> AtLeast(b, a)
  {
    CompareIsTotalPreorder(a, b, a);
    PrecedenceIsSign(Parse(a).value, Parse(b).value);
  }

  lemma PrecedenceIsSign(a: Version, b: Version)
    requires |a.core| == 3 && |b.core| == 3
    ensures -1 <= Precedence(a, b) <= 1
  {
    if a.prerelease.Some? && b.prerelease.Some? {
      FieldsSign(a.prerelease.value, b.prerelease.value);
    }
  }

  lemma {:induction false} FieldsSign(a: seq<string>, b: seq<string>)
    ensures -1 <= FieldsPrecedence(a, b) <= 1
    decreases |a|
  {
    if a != [] && b != [] {
      FieldsSign(a[1..], b[1..]);
    }
  }

  // ----- What the numbers and the order mean -----

  /** Reading one digit more: ten times the number before, plus the digit. */
  lemma {:induction false} ValueAppends(s: string, c: char)
    requires (forall d :: d in s ==> IsDigit(d)) && IsDigit(c)
    ensures Value(s + [c]) == 10 * Value(s) + (c as int - '0' as int)
    decreases |s|
  {
    if s == "" {
      assert s + [c] == [c] && [c][1..] == "" && Pow10(0) == 1;
    } else {
      assert (s + [c])[1..] == s[1..] + [c];
      ValueAppends(s[1..], c);
      assert Pow10(|s|) == 10 * Pow10(|s| - 1);
      var d, p := Digit(s[0]), Pow10(|s| - 1);
      assert d * (10 * p) == 10 * (d * p);
    }
  }

  /** A numeric field is above one of smaller value, any other is above a numeric one, and others go by ASCII. */
  ghost predicate FieldAbove(x: string, y: string) {
    if AllDigits(x) then AllDigits(y) && Value(x) > Value(y)
    else AllDigits(y) || Text.ComesAfter(x, y)
  }

  /** The lists agree up to a place at which the first one goes on, or has the field that is above. */
  ghost predicate FieldsAboveAt(a: seq<string>, b: seq<string>, k: nat) {
    k < |a| && k <= |b| && a[..k] == b[..k] && (k == |b| || FieldAbove(a[k], b[k]))
  }

  ghost predicate FieldsAbove(a: seq<string>, b: seq<string>) {
    exists k :: FieldsAboveAt(a, b, k)
  }

  /** The numbers agree up to one that is larger. */
  ghost predicate CoreAbove(p: Parts, q: Parts)
    requires WellFormed(p) && WellFormed(q)
  {
    exists i :: 0 <= i < 3 && Value(p.core[i]) > Value(q.core[i])
                && forall j :: 0 <= j < i ==> Value(p.core[j]) == Value(q.core[j])
  }

  /** Item 11 of Semantic Versioning 2.0.0: major, minor and patch, then no prerelease, then the prerelease fields. */
  ghost predicate Above(p: Parts, q: Parts)
    requires WellFormed(p) && WellFormed(q)
  {
    || CoreAbove(p, q)
    || (&& (forall i :: 0 <= i < 3 ==> Value(p.core[i]) == Value(q.core[i]))
        && q.prerelease.Some?
        && (p.prerelease.Some? ==> FieldsAbove(p.prerelease.value, q.prerelease.value)))
  }

  lemma IdentifierMeans(x: string, y: string)
    ensures IdentifierPrecedence(x, y) == 1 <==> FieldAbove(x, y)
  {
    Text.CompareMeans(x, y);
  }

  lemma FieldsAboveFirst(a: seq<string>, b: seq<string>, k: nat)
    requires a != [] && b != [] && a[0] == b[0]
    ensures FieldsAboveAt(a[1..], b[1..], k) <==> FieldsAboveAt(a, b, k + 1)
  {
    assert k < |a| ==> a[..k + 1] == [a[0]] + a[1..][..k];
    assert k < |b| ==> b[..k + 1] == [b[0]] + b[1..][..k];
    if k < |a| && k < |b| && a[..k + 1] == b[..k + 1] {
      assert a[1..][..k] == a[..k + 1][1..] && b[1..][..k] == b[..k + 1][1..];
    }
  }

  lemma FirstFieldAgrees(a: seq<string>, b: seq<string>, k: nat)
    requires FieldsAboveAt(a, b, k) && k > 0
    ensures b != [] && a[0] == b[0]
  {
    assert a[0] == a[..k][0] && b[0] == b[..k][0];
  }

  lemma SameFieldIsEqual(x: string, y: string)
    requires x != "" && y != "" && !HasLeadingZero(x) && !HasLeadingZero(y)
    ensures IdentifierPrecedence(x, y) == 0 <==> x == y
  {
    if AllDigits(x) && AllDigits(y) && Value(x) == Value(y) {
      SameValueSameText(x, y);
    }
    Text.CompareIsOrder(x, y, x);
  }

  lemma {:induction false} FieldsMean(a: seq<string>, b: seq<string>)
    requires Canonical(a) && Canonical(b)
    ensures FieldsPrecedence(a, b) == 1 <==> FieldsAbove(a, b)
    decreases |a|
  {
    hide IdentifierPrecedence, FieldAbove;
    if a == [] {
      assert forall k :: !FieldsAboveAt(a, b, k);
    } else if b == [] {
      assert FieldsAboveAt(a, b, 0);
    } else {
      IdentifierMeans(a[0], b[0]);
      SameFieldIsEqual(a[0], b[0]);
      assert FieldsAboveAt(a, b, 0) <==> FieldAbove(a[0], b[0]);
      if a[0] != b[0] {
        forall k: nat | FieldsAboveAt(a, b, k) ensures k == 0 {
          if k > 0 {
            FirstFieldAgrees(a, b, k);
          }
        }
      } else {
        FieldsMean(a[1..], b[1..]);
        if k: nat :| FieldsAboveAt(a, b, k) && k > 0 {
          FieldsAboveFirst(a, b, k - 1);
        }
        if k: nat :| FieldsAboveAt(a[1..], b[1..], k) {
          FieldsAboveFirst(a, b, k);
        }
      }
    }
  }

  /**
   * The comparison is the order of item 11, stated on the parts of both texts: the result is positive exactly when the
   * left version is above the right one, negative exactly when it is below, and zero otherwise.
   */
  lemma {:induction false} CompareMeansItem11(p: Parts, q: Parts)
    requires WellFormed(p) && WellFormed(q)
    ensures Compare(Written(p), Written(q)) ==
            Some(if Above(p, q) then 1 else if Above(q, p) then -1 else 0)
  {
    ParseWritten(p);
    ParseWritten(q);
    var v, w := Meaning(p), Meaning(q);
    VersionOrder(v, w, v);
    PrecedenceIsSign(v, w);
    PrecedenceMeans(p, q);
    PrecedenceMeans(q, p);
  }

  lemma IdentifiersAreCanonical(fields: seq<string>)
    requires AreIdentifiers(fields) && forall i :: i in fields ==> !HasLeadingZero(i)
    ensures Canonical(fields)
  {
    forall i | 0 <= i < |fields| ensures fields[i] != "" && !HasLeadingZero(fields[i]) {
      assert fields[i] in fields;
    }
  }

  lemma PrecedenceMeans(p: Parts, q: Parts)
    requires WellFormed(p) && WellFormed(q)
    ensures Precedence(Meaning(p), Meaning(q)) == 1 <==> Above(p, q)
  {
    hide FieldsPrecedence, Value, FieldsAbove;
    var none: seq<string> := [];
    var a := if p.prerelease.Some? then p.prerelease.value else none;
    var b := if q.prerelease.Some? then q.prerelease.value else none;
    IdentifiersAreCanonical(a);
    IdentifiersAreCanonical(b);
    FieldsMean(a, b);
    var x, y := Meaning(p).core, Meaning(q).core;
    assert forall i :: 0 <= i < 3 ==> x[i] == Value(p.core[i]) && y[i] == Value(q.core[i]);
    assert CoreAbove(p, q) <==> x[0] > y[0] || (x[0] == y[0] && (x[1] > y[1] || (x[1] == y[1] && x[2] > y[2]))) by {
      if CoreAbove(p, q) {
        var i :| 0 <= i < 3 && x[i] > y[i] && forall j :: 0 <= j < i ==> x[j] == y[j];
      }
    }
  }

  /** Both texts are versions, and the first one is above the second one. */
  ghost predicate VersionAbove(a: string, b: string) {
    exists p, q :: WellFormed(p) && WellFormed(q) && Written(p) == a && Written(q) == b && Above(p, q)
  }

  /** For all texts: a comparison is 1 exactly when both are versions and the first is above the second. */
  lemma {:induction false} CompareMeansAbove(a: string, b: string)
    ensures Compare(a, b) == Some(1) <==> VersionAbove(a, b)
  {
    hide Written, Above, WellFormed, Precedence;
    if Parse(a).Some? && Parse(b).Some? {
      var p := ParsedIsWritten(a);
      var q := ParsedIsWritten(b);
      CompareMeansItem11(p, q);
    }
    if p, q :| WellFormed(p) && WellFormed(q) && Written(p) == a && Written(q) == b && Above(p, q) {
      CompareMeansItem11(p, q);
    }
  }

  /** A version is at least another exactly when both are versions and the other is not above it. */
  lemma AtLeastMeans(later: string, earlier: string)
    ensures AtLeast(later, earlier) <==>
            Parse(later).Some? && Parse(earlier).Some? && !VersionAbove(earlier, later)
  {
    CompareMeansAbove(earlier, later);
    if Parse(later).Some? && Parse(earlier).Some? {
      CompareIsTotalPreorder(later, earlier, later);
      AtLeastOrNewer(earlier, later);
    }
  }
}
