/** Splitting and joining text at a separator character, and ordering it by code unit. */
module Text {
  import opened Wrappers

  /** The pieces of s between separators; always at least one. */
  function Split(s: string, sep: char): (pieces: seq<string>)
    ensures |pieces| >= 1
  {
    if s == "" then
      [""]
    else
      var rest := Split(s[1..], sep);
      if s[0] == sep then [""] + rest else [[s[0]] + rest[0]] + rest[1..]
  }

  function Join(pieces: seq<string>, sep: char): string
    requires |pieces| >= 1
  {
    if |pieces| == 1 then pieces[0] else pieces[0] + [sep] + Join(pieces[1..], sep)
  }

  predicate Free(s: string, sep: char) {
    sep !in s
  }

  predicate AllFree(pieces: seq<string>, sep: char) {
    forall p :: p in pieces ==> Free(p, sep)
  }

  lemma {:induction false} JoinSplit(s: string, sep: char)
    ensures Join(Split(s, sep), sep) == s && AllFree(Split(s, sep), sep)
    decreases |s|
  {
    if s != "" {
      JoinSplit(s[1..], sep);
      var rest := Split(s[1..], sep);
      if s[0] == sep {
        assert Split(s, sep)[1..] == rest;
        assert "" + [sep] + s[1..] == s;
      } else {
        var all := [[s[0]] + rest[0]] + rest[1..];
        assert all[1..] == rest[1..];
        assert Join(all, sep) == [s[0]] + Join(rest, sep);
        forall p | p in all ensures Free(p, sep) {
          if p in rest[1..] {
            assert p in rest;
          } else {
            assert p == all[0] && rest[0] in rest;
          }
        }
      }
    }
  }

  /** A piece without separators in front of a text only extends the first piece of it. */
  lemma {:induction false} SplitPrefix(p: string, s: string, sep: char)
    requires Free(p, sep)
    ensures Split(p + s, sep) == [p + Split(s, sep)[0]] + Split(s, sep)[1..]
    decreases |p|
  {
    if p == "" {
      assert p + s == s;
      assert Split(s, sep) == [Split(s, sep)[0]] + Split(s, sep)[1..];
      assert p + Split(s, sep)[0] == Split(s, sep)[0];
    } else {
      assert (p + s)[1..] == p[1..] + s && p[0] in p;
      assert forall c :: c in p[1..] ==> c in p;
      SplitPrefix(p[1..], s, sep);
      assert [p[0]] + (p[1..] + Split(s, sep)[0]) == p + Split(s, sep)[0];
    }
  }

  lemma {:induction false} SplitAt(p: string, s: string, sep: char)
    requires Free(p, sep)
    ensures Split(p + [sep] + s, sep) == [p] + Split(s, sep)
  {
    var t := [sep] + s;
    assert t[1..] == s;
    assert p + [sep] + s == p + t;
    SplitPrefix(p, t, sep);
    assert Split(t, sep) == [""] + Split(s, sep);
    assert p + "" == p;
  }

  lemma {:induction false} SplitFree(p: string, sep: char)
    requires Free(p, sep)
    ensures Split(p, sep) == [p]
  {
    SplitPrefix(p, "", sep);
    assert p + "" == p;
  }

  lemma {:induction false} SplitJoin(pieces: seq<string>, sep: char)
    requires |pieces| >= 1 && AllFree(pieces, sep)
    ensures Split(Join(pieces, sep), sep) == pieces
    decreases |pieces|
  {
    if |pieces| == 1 {
      SplitFree(pieces[0], sep);
    } else {
      SplitJoin(pieces[1..], sep);
      SplitAt(pieces[0], Join(pieces[1..], sep), sep);
      assert [pieces[0]] + pieces[1..] == pieces;
    }
  }

  /** The text before the first separator, and what follows it when there is one. */
  function Cut(s: string, sep: char): (string, Option<string>) {
    if s == "" then ("", None)
    else if s[0] == sep then ("", Some(s[1..]))
    else var (head, tail) := Cut(s[1..], sep); ([s[0]] + head, tail)
  }

  function Glue(head: string, tail: Option<string>, sep: char): string {
    if tail.None? then head else head + [sep] + tail.value
  }

  lemma {:induction false} CutExactly(s: string, head: string, tail: Option<string>, sep: char)
    ensures Cut(s, sep) == (head, tail) <==> Free(head, sep) && s == Glue(head, tail, sep)
    decreases |s|
  {
    if s == "" {
    } else if s[0] == sep {
      if head != "" {
        assert Glue(head, tail, sep)[0] == head[0] && head[0] in head;
      } else if tail.Some? {
        assert [sep] + tail.value == s <==> tail.value == s[1..];
      }
    } else {
      if head != "" {
        CutExactly(s[1..], head[1..], tail, sep);
        assert head == [head[0]] + head[1..];
        if s == Glue(head, tail, sep) {
          assert s[1..] == Glue(head[1..], tail, sep);
        }
        if s[0] == head[0] && s[1..] == Glue(head[1..], tail, sep) {
          assert s == [s[0]] + s[1..] == Glue(head, tail, sep);
        }
        assert Free(head, sep) <==> head[0] != sep && Free(head[1..], sep);
      }
    }
  }

  // ----- White space -----

  /** The characters that trimming removes. */
  predicate White(c: char) {
    || c == ' ' || '\t' <= c <= '\r' || c == '\U{A0}' || c == '\U{1680}' || '\U{2000}' <= c <= '\U{200A}'
    || c == '\U{2028}' || c == '\U{2029}' || c == '\U{202F}' || c == '\U{205F}' || c == '\U{3000}' || c == '\U{FEFF}'
  }

  predicate Blank(s: string) {
    forall c :: c in s ==> White(c)
  }

  // ----- Replacing a character -----

  function ReplaceAll(s: string, c: char, t: string): string {
    if s == "" then "" else (if s[0] == c then t else [s[0]]) + ReplaceAll(s[1..], c, t)
  }

  lemma {:induction false} ReplaceAllAppend(a: string, b: string, c: char, t: string)
    ensures ReplaceAll(a + b, c, t) == ReplaceAll(a, c, t) + ReplaceAll(b, c, t)
  {
    if a == "" {
      assert a + b == b;
    } else {
      assert (a + b)[1..] == a[1..] + b;
      ReplaceAllAppend(a[1..], b, c, t);
    }
  }

  lemma {:induction false} ReplaceNothing(s: string, c: char, t: string)
    requires c !in s
    ensures ReplaceAll(s, c, t) == s
  {
    if s != "" {
      ReplaceNothing(s[1..], c, t);
    }
  }

  // ----- Order by code unit -----

  /** The sign of the comparison of two texts, unit by unit; a proper prefix comes first. */
  function Compare(a: string, b: string): (r: int)
    ensures -1 <= r <= 1
  {
    if a == "" then (if b == "" then 0 else -1)
    else if b == "" then 1
    else if a[0] != b[0] then (if a[0] < b[0] then -1 else 1)
    else Compare(a[1..], b[1..])
  }

  /** What makes three comparison results consistent with a total preorder. */
  predicate Transitive(ab: int, bc: int, ac: int) {
    ab <= 0 && bc <= 0 ==> ac <= 0 && (ac == 0 ==> ab == 0 && bc == 0)
  }

  lemma {:induction false} CompareIsOrder(a: string, b: string, c: string)
    ensures Compare(a, b) == -Compare(b, a)
    ensures Compare(a, b) == 0 <==> a == b
    ensures Transitive(Compare(a, b), Compare(b, c), Compare(a, c))
    decreases |a|
  {
    if a != "" && b != "" {
      if c != "" {
        CompareIsOrder(a[1..], b[1..], c[1..]);
      } else {
        CompareIsOrder(a[1..], b[1..], c);
      }
      assert a == [a[0]] + a[1..] && b == [b[0]] + b[1..];
    }
  }

  predicate AfterAt(a: string, b: string, k: nat) {
    k < |a| && k <= |b| && a[..k] == b[..k] && (k == |b| || a[k] > b[k])
  }

  /** The first difference decides, and a text comes after each of its beginnings. */
  ghost predicate ComesAfter(a: string, b: string) {
    exists k :: AfterAt(a, b, k)
  }

  lemma AfterFirst(a: string, b: string, k: nat)
    requires a != "" && b != "" && a[0] == b[0]
    ensures AfterAt(a[1..], b[1..], k) <==> AfterAt(a, b, k + 1)
  {
    assert k < |a| ==> a[..k + 1] == [a[0]] + a[1..][..k];
    assert k < |b| ==> b[..k + 1] == [b[0]] + b[1..][..k];
    if k < |a| && k < |b| && a[..k + 1] == b[..k + 1] {
      assert a[1..][..k] == a[..k + 1][1..] && b[1..][..k] == b[..k + 1][1..];
    }
  }

  lemma FirstAgrees(a: string, b: string, k: nat)
    requires AfterAt(a, b, k) && k > 0
    ensures b != "" && a[0] == b[0]
  {
    assert a[0] == a[..k][0] && b[0] == b[..k][0];
  }

  /** A comparison is positive exactly when the first text comes after the second. */
  lemma {:induction false} CompareMeans(a: string, b: string)
    ensures Compare(a, b) == 1 <==> ComesAfter(a, b)
    decreases |a|
  {
    if a == "" {
      assert forall k :: !AfterAt(a, b, k);
    } else if b == "" {
      assert AfterAt(a, b, 0);
    } else if a[0] != b[0] {
      assert AfterAt(a, b, 0) <==> a[0] > b[0];
      forall k: nat | AfterAt(a, b, k) ensures k == 0 {
        if k > 0 {
          FirstAgrees(a, b, k);
        }
      }
    } else {
      CompareMeans(a[1..], b[1..]);
      assert !AfterAt(a, b, 0);
      if k: nat :| AfterAt(a, b, k) {
        AfterFirst(a, b, k - 1);
      }
      if k: nat :| AfterAt(a[1..], b[1..], k) {
        AfterFirst(a, b, k);
      }
    }
  }

  // ----- Alphabets -----

  const SMALL := "abcdefghijklmnopqrstuvwxyz"
  const CAPITAL := "ABCDEFGHIJKLMNOPQRSTUVWXYZ"
  const DIGITS := "0123456789"

  /** Every character is one of the alphabet. */
  predicate Spelled(s: string, alphabet: string) {
    forall c :: c in s ==> c in alphabet
  }

  lemma SmallAre(c: char)
    ensures c in SMALL <==> 'a' <= c <= 'z'
  {
    if 'a' <= c <= 'z' {
      assert SMALL[c as int - 'a' as int] == c;
    }
  }

  lemma CapitalAre(c: char)
    ensures c in CAPITAL <==> 'A' <= c <= 'Z'
  {
    if 'A' <= c <= 'Z' {
      assert CAPITAL[c as int - 'A' as int] == c;
    }
  }

  lemma DigitsAre(c: char)
    ensures c in DIGITS <==> '0' <= c <= '9'
  {
    if '0' <= c <= '9' {
      assert DIGITS[c as int - '0' as int] == c;
    }
  }
}
