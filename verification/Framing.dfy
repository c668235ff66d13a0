/** Cutting a stream of characters into lines, chunk by chunk, on both ends of the control socket. */
module Framing {
  import opened Wrappers
  import Sequences
  import Text

  const MAX_BUFFER_BYTES := 1024 * 1024

  /** The length in UTF-8. */
  function Bytes(s: string): nat {
    if s == "" then 0 else CharBytes(s[0]) + Bytes(s[1..])
  }

  function CharBytes(c: char): nat {
    if c as int < 0x80 then 1 else if c as int < 0x800 then 2 else if c as int < 0x10000 then 3 else 4
  }

  /** The frames that are not blank. */
  function Telling(frames: seq<string>): seq<string> {
    if frames == [] then [] else (if Text.Blank(frames[0]) then [] else [frames[0]]) + Telling(frames[1..])
  }

  /** The complete lines of a text, and what comes after the last line break. */
  function Complete(s: string): seq<string> {
    var pieces := Text.Split(s, '\n');
    pieces[..|pieces| - 1]
  }

  function Unfinished(s: string): string {
    var pieces := Text.Split(s, '\n');
    pieces[|pieces| - 1]
  }

  function Concat(chunks: seq<string>): string {
    if chunks == [] then "" else Concat(chunks[..|chunks| - 1]) + chunks[|chunks| - 1]
  }

  /** The frames a reader has handed on, and what it still holds. */
  datatype Reader = Reader(frames: seq<string>, buffer: string)

  const EMPTY: Reader := Reader([], "")

  function Feed(r: Reader, chunk: string): Reader {
    Reader(r.frames + Telling(Complete(r.buffer + chunk)), Unfinished(r.buffer + chunk))
  }

  function FeedAll(chunks: seq<string>): Reader {
    if chunks == [] then EMPTY else Feed(FeedAll(chunks[..|chunks| - 1]), chunks[|chunks| - 1])
  }

  /** The server's reader: it stops for good when its buffer gets too large. */
  datatype Guarded = Reading(reader: Reader) | TooLarge(frames: seq<string>)

  function FeedGuarded(g: Guarded, chunk: string): Guarded {
    match g
    case TooLarge(_) => g
    case Reading(r) => if Bytes(r.buffer + chunk) > MAX_BUFFER_BYTES then TooLarge(r.frames) else Reading(Feed(r, chunk))
  }

  function FeedAllGuarded(chunks: seq<string>): Guarded {
    if chunks == [] then Reading(EMPTY) else FeedGuarded(FeedAllGuarded(chunks[..|chunks| - 1]), chunks[|chunks| - 1])
  }

  // ----- Chunks do not matter -----

  /** The last piece of one text runs on into the first piece of the next. */
  function Merge(x: seq<string>, y: seq<string>): seq<string>
    requires x != [] && y != []
  {
    x[..|x| - 1] + [x[|x| - 1] + y[0]] + y[1..]
  }

  lemma MergeLonger(c: char, x: seq<string>, y: seq<string>)
    requires x != [] && y != []
    ensures Merge(x, y) != []
    ensures Merge([[c] + x[0]] + x[1..], y) == [[c] + Merge(x, y)[0]] + Merge(x, y)[1..]
  {
    var m, cx := Merge(x, y), [[c] + x[0]] + x[1..];
    if |x| == 1 {
      assert cx == [[c] + x[0]];
      assert Merge(cx, y) == [[c] + x[0] + y[0]] + y[1..];
      assert [c] + (x[0] + y[0]) == [c] + x[0] + y[0];
      assert m == [x[0] + y[0]] + y[1..];
    } else {
      assert cx[..|cx| - 1] == [[c] + x[0]] + x[1..|x| - 1];
      assert m == [x[0]] + (x[1..|x| - 1] + [x[|x| - 1] + y[0]] + y[1..]);
    }
  }

  lemma {:induction false} SplitAppend(a: string, b: string)
    ensures Text.Split(a + b, '\n') == Merge(Text.Split(a, '\n'), Text.Split(b, '\n'))
    decreases |a|
  {
    var y := Text.Split(b, '\n');
    if a == "" {
      assert a + b == b;
      assert Merge([""], y) == y by {
        assert "" + y[0] == y[0];
      }
    } else {
      assert (a + b)[1..] == a[1..] + b;
      SplitAppend(a[1..], b);
      var rest := Text.Split(a[1..], '\n');
      MergeLonger(a[0], rest, y);
      hide Merge;
    }
  }

  lemma MergeEnds(x: seq<string>, y: seq<string>)
    requires x != [] && y != []
    ensures var m, n := Merge(x, y), Merge([x[|x| - 1]], y);
            && m != [] && n != []
            && m[|m| - 1] == n[|n| - 1]
            && m[..|m| - 1] == x[..|x| - 1] + n[..|n| - 1]
  {
    var m, n := Merge(x, y), Merge([x[|x| - 1]], y);
    assert n == [x[|x| - 1] + y[0]] + y[1..];
    assert m == x[..|x| - 1] + n;
  }

  /** What was unfinished is completed by what follows; what was complete stays. */
  lemma LinesAppend(a: string, b: string)
    ensures Complete(a + b) == Complete(a) + Complete(Unfinished(a) + b)
    ensures Unfinished(a + b) == Unfinished(Unfinished(a) + b)
  {
    hide Text.Split, Merge;
    SplitAppend(a, b);
    SplitAppend(Unfinished(a), b);
    UnfinishedIsOneLine(a);
    MergeEnds(Text.Split(a, '\n'), Text.Split(b, '\n'));
  }

  lemma UnfinishedIsOneLine(s: string)
    ensures Text.Split(Unfinished(s), '\n') == [Unfinished(s)]
  {
    Text.JoinSplit(s, '\n');
    var pieces := Text.Split(s, '\n');
    assert pieces[|pieces| - 1] in pieces;
    Text.SplitFree(Unfinished(s), '\n');
  }

  lemma {:induction false} TellingAppend(a: seq<string>, b: seq<string>)
    ensures Telling(a + b) == Telling(a) + Telling(b)
    decreases |a|
  {
    if a == [] {
      assert a + b == b;
    } else {
      assert (a + b)[1..] == a[1..] + b;
      TellingAppend(a[1..], b);
    }
  }

  /** However a stream is cut into chunks, the reader hands on the lines of the whole and keeps the unfinished one. */
  lemma {:induction false} ChunksDoNotMatter(chunks: seq<string>)
    ensures FeedAll(chunks) == Reader(Telling(Complete(Concat(chunks))), Unfinished(Concat(chunks)))
    decreases |chunks|
  {
    if chunks == [] {
      assert Text.Split("", '\n') == [""];
    } else {
      var before, chunk := chunks[..|chunks| - 1], chunks[|chunks| - 1];
      ChunksDoNotMatter(before);
      LinesAppend(Concat(before), chunk);
      TellingAppend(Complete(Concat(before)), Complete(Unfinished(Concat(before)) + chunk));
    }
  }

  /** The buffer would grow too large when this chunk arrives. */
  predicate Overflows(chunks: seq<string>, k: nat)
    requires k < |chunks|
  {
    Bytes(Unfinished(Concat(chunks[..k])) + chunks[k]) > MAX_BUFFER_BYTES
  }

  lemma {:induction false} GuardedUntilOverflow(chunks: seq<string>)
    requires forall k :: 0 <= k < |chunks| ==> !Overflows(chunks, k)
    ensures FeedAllGuarded(chunks) == Reading(FeedAll(chunks))
    decreases |chunks|
  {
    if chunks != [] {
      var before := chunks[..|chunks| - 1];
      forall k | 0 <= k < |before| ensures !Overflows(before, k) {
        assert chunks[..k] == before[..k];
        assert !Overflows(chunks, k);
      }
      GuardedUntilOverflow(before);
      ChunksDoNotMatter(before);
      assert !Overflows(chunks, |chunks| - 1);
    }
  }

  lemma SameBefore(chunks: seq<string>, j: nat)
    requires j < |chunks| - 1
    ensures Overflows(chunks[..|chunks| - 1], j) <==> Overflows(chunks, j)
    ensures chunks[..|chunks| - 1][..j] == chunks[..j]
  {
    assert chunks[..|chunks| - 1][..j] == chunks[..j];
  }

  lemma {:induction false} GuardedAfterOverflow(chunks: seq<string>, k: nat)
    requires k < |chunks| && Overflows(chunks, k) && forall j :: 0 <= j < k ==> !Overflows(chunks, j)
    ensures FeedAllGuarded(chunks) == TooLarge(Telling(Complete(Concat(chunks[..k]))))
    decreases |chunks|
  {
    hide Telling, Complete, Concat;
    var before := chunks[..|chunks| - 1];
    forall j | 0 <= j < |before| ensures Overflows(before, j) <==> Overflows(chunks, j) {
      SameBefore(chunks, j);
    }
    if k == |before| {
      GuardedUntilOverflow(before);
      ChunksDoNotMatter(before);
    } else {
      SameBefore(chunks, k);
      hide Overflows;
      GuardedAfterOverflow(before, k);
    }
  }

  /**
   * The server hands on exactly the lines of the whole stream as long as no chunk makes its buffer too large;
   * otherwise exactly those that were complete before the first such chunk, and it reads nothing more.
   */
  lemma {:induction false} ServerReadsUntilOverflow(chunks: seq<string>)
    ensures (forall k :: 0 <= k < |chunks| ==> !Overflows(chunks, k)) ==>
              FeedAllGuarded(chunks) == Reading(Reader(Telling(Complete(Concat(chunks))), Unfinished(Concat(chunks))))
    ensures forall k :: 0 <= k < |chunks| && Overflows(chunks, k) && (forall j :: 0 <= j < k ==> !Overflows(chunks, j)) ==>
              FeedAllGuarded(chunks) == TooLarge(Telling(Complete(Concat(chunks[..k]))))
  {
    if forall k :: 0 <= k < |chunks| ==> !Overflows(chunks, k) {
      GuardedUntilOverflow(chunks);
      ChunksDoNotMatter(chunks);
    }
    forall k | 0 <= k < |chunks| && Overflows(chunks, k) && (forall j :: 0 <= j < k ==> !Overflows(chunks, j))
      ensures FeedAllGuarded(chunks) == TooLarge(Telling(Complete(Concat(chunks[..k]))))
    {
      GuardedAfterOverflow(chunks, k);
    }
  }

  // ----- A stream of encoded messages -----

  /** Encoded messages: JSON text, which has no raw line break and is never blank, and a line break. */
  predicate Encoded(text: string) {
    '\n' !in text && !Text.Blank(text)
  }

  function Stream(texts: seq<string>): string {
    if texts == [] then "" else texts[0] + "\n" + Stream(texts[1..])
  }

  lemma {:induction false} StreamLines(texts: seq<string>)
    requires forall i :: 0 <= i < |texts| ==> Encoded(texts[i])
    ensures Telling(Complete(Stream(texts))) == texts && Unfinished(Stream(texts)) == ""
    decreases |texts|
  {
    if texts == [] {
      assert Text.Split("", '\n') == [""];
    } else {
      StreamLines(texts[1..]);
      Text.SplitAt(texts[0], Stream(texts[1..]), '\n');
      var pieces, rest := Text.Split(Stream(texts), '\n'), Text.Split(Stream(texts[1..]), '\n');
      assert pieces == [texts[0]] + rest;
      assert pieces[..|pieces| - 1] == [texts[0]] + rest[..|rest| - 1];
      assert texts == [texts[0]] + texts[1..];
    }
  }

  /** A stream of encoded messages, cut anywhere, yields those messages in order and leaves nothing over. */
  lemma {:induction false} EncodedStreamReadsBack(texts: seq<string>, chunks: seq<string>)
    requires forall i :: 0 <= i < |texts| ==> Encoded(texts[i])
    requires Concat(chunks) == Stream(texts)
    ensures FeedAll(chunks) == Reader(texts, "")
  {
    ChunksDoNotMatter(chunks);
    StreamLines(texts);
  }

  // ----- The readers as they are written -----

  class FrameReader {
    var buffer: string
    /** The frames handed on so far. */
    var handled: seq<string>
    var destroyed: bool

    ghost function State(): Reader
      reads this
    {
      Reader(handled, buffer)
    }

    constructor ()
      ensures State() == EMPTY && !destroyed
    {
      buffer, handled, destroyed := "", [], false;
    }

    /** Hands on the frames that are not blank. */
    method HandleFrames(frames: seq<string>)
      modifies this`handled
      ensures handled == old(handled) + Telling(frames)
    {
      var i := 0;
      assert frames[0..] == frames;
      while i < |frames|
        invariant 0 <= i <= |frames|
        invariant handled + Telling(frames[i..]) == old(handled) + Telling(frames)
      {
        assert frames[i..][1..] == frames[i + 1..];
        if !Text.Blank(frames[i]) {
          Sequences.Assoc(handled, [frames[i]], Telling(frames[i + 1..]));
          handled := handled + [frames[i]];
        }
        i := i + 1;
      }
      Sequences.Empty(handled);
    }

    method HandleData(chunk: string)
      modifies this`buffer, this`handled
      ensures State() == Feed(old(State()), chunk)
    {
      hide Telling, Text.Split;
      buffer := buffer + chunk;
      var frames := Text.Split(buffer, '\n');
      buffer := frames[|frames| - 1];
      HandleFrames(frames[..|frames| - 1]);
    }

    /** The server's variant; a destroyed socket delivers no further data. */
    method HandleGuardedData(chunk: string)
      requires !destroyed
      modifies this
      ensures (if destroyed then TooLarge(handled) else Reading(State())) == FeedGuarded(Reading(old(State())), chunk)
    {
      if Bytes(buffer + chunk) > MAX_BUFFER_BYTES {
        buffer := buffer + chunk;
        destroyed := true;
        return;
      }
      HandleData(chunk);
    }
  }
}
