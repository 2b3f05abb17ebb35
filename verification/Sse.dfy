/**
 Sse: the line buffer and the usage extractors of server/src/router.rs. A stream arrives in
 chunks cut anywhere; the buffer hands the extractors complete lines only. What one line says is
 a parameter, `parse`: the program looks for a `data:` prefix and a JSON `usage` there.
 */
module Sse {
  import opened Options
  import opened Utf8

  const MAX_CARRY: nat := 0x10_0000

  // ---- The buffer ----

  /** Where the last newline is, or -1. */
  function LastNewline(s: seq<Byte>): (i: int)
    ensures -1 <= i < |s|
    ensures i >= 0 ==> s[i] == NEWLINE
    ensures forall k :: i < k < |s| ==> s[k] != NEWLINE
  {
    if s == [] then -1 else if s[|s| - 1] == NEWLINE then |s| - 1 else LastNewline(s[..|s| - 1])
  }

  method FindLastNewline(s: seq<Byte>) returns (i: int)
    ensures i == LastNewline(s)
  {
    i := |s| - 1;
    while i >= 0 && s[i] != NEWLINE
      invariant -1 <= i < |s|
      invariant forall k :: i < k < |s| ==> s[k] != NEWLINE
    {
      i := i - 1;
    }
  }

  /** The complete lines, and the unfinished one. */
  function Head(s: seq<Byte>): seq<Byte> { s[..LastNewline(s) + 1] }

  function Tail(s: seq<Byte>): seq<Byte> { s[LastNewline(s) + 1..] }

  function Bounded(carry: seq<Byte>): seq<Byte> {
    if |carry| > MAX_CARRY then [] else carry
  }

  /** The span handed to the parser by a push ([] when it is not called), and the new carry. */
  function Pushed(carry: seq<Byte>, bytes: seq<Byte>): (seq<Byte>, seq<Byte>) {
    (Head(carry + bytes), Bounded(Tail(carry + bytes)))
  }

  /**
   A span ends in a newline; span and carry together are all the bytes, unless the unfinished line
   is longer than MAX_CARRY, and then that line alone is lost.
   */
  lemma PushedSplits(carry: seq<Byte>, bytes: seq<Byte>)
    ensures var (span, rest) := Pushed(carry, bytes);
            && WholeLines(span) && |rest| <= 1024 * 1024 && NEWLINE !in rest
            && span <= carry + bytes
            && var unfinished := (carry + bytes)[|span|..];
               NEWLINE !in unfinished && rest == if |unfinished| > 1024 * 1024 then [] else unfinished
  {
    hide LastNewline;
  }

  class SseLineBuffer {
    var carry: seq<Byte>

    constructor ()
      ensures carry == []
    {
      carry := [];
    }

    /** Calls the parser exactly when a line was completed, with all lines completed by now. */
    method Push(bytes: seq<Byte>) returns (span: Option<seq<Byte>>)
      modifies this
      ensures (if span.Some? then span.value else [], carry) == Pushed(old(carry), bytes)
      ensures span.Some? ==> span.value != []
    {
      hide LastNewline;
      carry := carry + bytes;
      var nl := FindLastNewline(carry);
      if nl >= 0 {
        span := Some(carry[..nl + 1]);
        carry := carry[nl + 1..];
      } else {
        span := None;
      }
      if |carry| > MAX_CARRY {
        carry := [];
      }
    }

    /** Hands over whatever is left. */
    method Flush() returns (span: Option<seq<Byte>>)
      modifies this
      ensures carry == []
      ensures span == if old(carry) == [] then None else Some(old(carry))
    {
      span := None;
      if carry != [] {
        span := Some(carry);
        carry := [];
      }
    }
  }

  // ---- Chunks ----

  function Flat(ss: seq<seq<Byte>>): seq<Byte> {
    if ss == [] then [] else Flat(ss[..|ss| - 1]) + ss[|ss| - 1]
  }

  /** The carry after pushing all chunks into a new buffer. */
  function Carry(chunks: seq<seq<Byte>>): seq<Byte> {
    if chunks == [] then [] else Pushed(Carry(chunks[..|chunks| - 1]), chunks[|chunks| - 1]).1
  }

  /** The spans of the pushes, one per chunk. */
  function Spans(chunks: seq<seq<Byte>>): seq<seq<Byte>> {
    if chunks == [] then []
    else
      var before, last := chunks[..|chunks| - 1], chunks[|chunks| - 1];
      Spans(before) + [Pushed(Carry(before), last).0]
  }

  /** No push leaves an unfinished line longer than the bound. */
  ghost predicate Kept(chunks: seq<seq<Byte>>) {
    forall i :: 0 <= i <= |chunks| ==> FitsAt(chunks, i)
  }

  lemma FlatSnoc(ss: seq<seq<Byte>>, s: seq<Byte>)
    ensures Flat(ss + [s]) == Flat(ss) + s
  {
    assert (ss + [s])[..|ss|] == ss;
  }

  lemma LastNewlineIs(s: seq<Byte>, i: int)
    requires -1 <= i < |s|
    requires i >= 0 ==> s[i] == NEWLINE
    requires forall k :: i < k < |s| ==> s[k] != NEWLINE
    ensures LastNewline(s) == i
  {
  }

  lemma TailAfter(h: seq<Byte>, t: seq<Byte>)
    requires WholeLines(h)
    ensures Head(h + t) == h + Head(t) && Tail(h + t) == Tail(t)
  {
    hide LastNewline;
    LastNewlineAfter(h, t);
    var n, cut := |h|, LastNewline(t) + 1;
    assert (h + t)[..n + cut] == h + t[..cut];
    assert (h + t)[n + cut..] == t[cut..];
  }

  lemma LastNewlineAfter(h: seq<Byte>, t: seq<Byte>)
    requires WholeLines(h)
    ensures LastNewline(h + t) == |h| + LastNewline(t)
  {
    hide LastNewline;
    var i, s := LastNewline(t), h + t;
    forall k | |h| + i < k < |s|
      ensures s[k] != NEWLINE
    {
      assert s[k] == t[k - |h|];
    }
    LastNewlineIs(s, |h| + i);
  }

  lemma HeadAndTail(s: seq<Byte>)
    ensures s == Head(s) + Tail(s) && WholeLines(Head(s)) && NEWLINE !in Tail(s)
  {
    hide LastNewline;
  }

  /** A longer stream: its complete lines and its unfinished one. */
  lemma TailGrows(a: seq<Byte>, b: seq<Byte>)
    ensures Head(a + b) == Head(a) + Head(Tail(a) + b)
    ensures Tail(a + b) == Tail(Tail(a) + b)
  {
    hide LastNewline, Head, Tail, WholeLines;
    HeadAndTail(a);
    assert a + b == Head(a) + (Tail(a) + b);
    TailAfter(Head(a), Tail(a) + b);
  }

  /** After `i` chunks the unfinished line fits. */
  ghost predicate FitsAt(chunks: seq<seq<Byte>>, i: nat)
    requires i <= |chunks|
  {
    |Tail(Flat(chunks[..i]))| <= MAX_CARRY
  }

  lemma FitsAtPrefix(chunks: seq<seq<Byte>>, i: nat)
    requires i < |chunks|
    ensures FitsAt(chunks, i) <==> FitsAt(chunks[..|chunks| - 1], i)
  {
    hide Tail, Flat;
    assert chunks[..|chunks| - 1][..i] == chunks[..i];
  }

  lemma FitsAtEnd(chunks: seq<seq<Byte>>)
    ensures FitsAt(chunks, |chunks|) <==> |Tail(Flat(chunks))| <= MAX_CARRY
  {
    hide Tail, Flat;
    assert chunks[..|chunks|] == chunks;
  }

  lemma KeptPrefix(chunks: seq<seq<Byte>>)
    requires chunks != []
    ensures Kept(chunks) <==> Kept(chunks[..|chunks| - 1]) && |Tail(Flat(chunks))| <= MAX_CARRY
  {
    hide Tail, Flat, FitsAt;
    var before := chunks[..|chunks| - 1];
    FitsAtEnd(chunks);
    forall i | 0 <= i <= |before|
      ensures FitsAt(chunks, i) <==> FitsAt(before, i)
    {
      FitsAtPrefix(chunks, i);
    }
  }

  /** While no line is dropped, the carry is the stream's unfinished line and the spans are the rest. */
  lemma {:induction false} KeptIsSplit(chunks: seq<seq<Byte>>)
    requires Kept(chunks)
    ensures Carry(chunks) == Tail(Flat(chunks)) && Flat(Spans(chunks)) == Head(Flat(chunks))
  {
    hide Kept, LastNewline;
    if chunks != [] {
      var before, last := chunks[..|chunks| - 1], chunks[|chunks| - 1];
      KeptPrefix(chunks);
      KeptIsSplit(before);
      TailGrows(Flat(before), last);
      FlatSnoc(Spans(before), Pushed(Carry(before), last).0);
    }
  }

  lemma PushedLength(carry: seq<Byte>, bytes: seq<Byte>)
    ensures var (span, rest) := Pushed(carry, bytes);
            && |span| + |rest| <= |carry| + |bytes|
            && (|Tail(carry + bytes)| > MAX_CARRY ==> |span| + |rest| < |carry| + |bytes|)
  {
  }

  /** Bytes are only ever lost. */
  lemma {:induction false} DroppedIsShorter(chunks: seq<seq<Byte>>)
    ensures |Flat(Spans(chunks))| + |Carry(chunks)| <= |Flat(chunks)|
    ensures !Kept(chunks) ==> |Flat(Spans(chunks))| + |Carry(chunks)| < |Flat(chunks)|
  {
    hide Kept, LastNewline;
    if chunks == [] {
      NothingIsKept();
    } else {
      var before, last := chunks[..|chunks| - 1], chunks[|chunks| - 1];
      DroppedIsShorter(before);
      KeptPrefix(chunks);
      PushedLength(Carry(before), last);
      FlatSnoc(Spans(before), Pushed(Carry(before), last).0);
      if Kept(before) {
        KeptIsSplit(before);
        TailGrows(Flat(before), last);
      }
    }
  }

  lemma NothingIsKept()
    ensures Kept([])
  {
    var none: seq<seq<Byte>> := [];
    assert none[..0] == none;
  }

  /**
   The spans of the pushes and the final flush give back the stream, byte for byte, if and only if
   no push left an unfinished line of more than MAX_CARRY bytes.
   */
  lemma SpansAreTheStream(chunks: seq<seq<Byte>>)
    ensures Flat(Spans(chunks)) + Carry(chunks) == Flat(chunks) <==> Kept(chunks)
  {
    hide Kept, Head, Tail, Carry, Spans, Flat;
    if Kept(chunks) {
      KeptIsSplit(chunks);
      HeadAndTail(Flat(chunks));
    } else {
      DroppedIsShorter(chunks);
    }
  }

  /** Every run of bytes without a newline is at most MAX_CARRY long. */
  ghost predicate ShortLines(b: seq<Byte>) {
    forall i, j :: 0 <= i <= j <= |b| && NEWLINE !in b[i..j] ==> j - i <= MAX_CARRY
  }

  lemma {:induction false} FlatPrefix(chunks: seq<seq<Byte>>, i: nat)
    requires i <= |chunks|
    ensures Flat(chunks[..i]) <= Flat(chunks)
  {
    if i < |chunks| {
      FlatPrefix(chunks[..|chunks| - 1], i);
      assert chunks[..|chunks| - 1][..i] == chunks[..i];
    } else {
      assert chunks[..i] == chunks;
    }
  }

  lemma ShortLinesFitAt(chunks: seq<seq<Byte>>, i: nat)
    requires ShortLines(Flat(chunks)) && i <= |chunks|
    ensures FitsAt(chunks, i)
  {
    hide LastNewline, Flat;
    var b, p := Flat(chunks), Flat(chunks[..i]);
    FlatPrefix(chunks, i);
    HeadAndTail(p);
    var cut := |Head(p)|;
    assert b[cut..|p|] == p[cut..] == Tail(p);
  }

  lemma ShortLinesAreKept(chunks: seq<seq<Byte>>)
    requires ShortLines(Flat(chunks))
    ensures Kept(chunks)
  {
    hide ShortLines, Flat, FitsAt;
    forall i | 0 <= i <= |chunks|
      ensures FitsAt(chunks, i)
    {
      ShortLinesFitAt(chunks, i);
    }
  }

  /** Nothing is lost however a stream is cut if and only if all its lines fit the bound. */
  lemma AnyChunkingKeeps(b: seq<Byte>)
    ensures (forall chunks :: Flat(chunks) == b ==> Kept(chunks)) <==> ShortLines(b)
  {
    if ShortLines(b) {
      forall chunks | Flat(chunks) == b
        ensures Kept(chunks)
      {
        ShortLinesAreKept(chunks);
      }
    } else {
      var i, j :| 0 <= i <= j <= |b| && NEWLINE !in b[i..j] && j - i > MAX_CARRY;
      LongLineIsDropped(b, i, j);
    }
  }

  /** A run without a newline at the end belongs to the unfinished line. */
  lemma TailReachesBack(p: seq<Byte>, i: nat)
    requires i <= |p| && NEWLINE !in p[i..]
    ensures |Tail(p)| >= |p| - i
  {
    hide LastNewline;
    forall k | i <= k < |p|
      ensures p[k] != NEWLINE
    {
      assert p[k] == p[i..][k - i];
    }
  }

  lemma FlatTwo(x: seq<Byte>, y: seq<Byte>)
    ensures Flat([x, y]) == x + y && Flat([x, y][..1]) == x
  {
    FlatSnoc([], x);
    FlatSnoc([x], y);
    assert [] + [x] == [x] && [x] + [y] == [x, y] && [x, y][..1] == [x];
    assert [] + x == x;
  }

  lemma LongLineIsDropped(b: seq<Byte>, i: nat, j: nat)
    requires i <= j <= |b| && NEWLINE !in b[i..j] && j - i > MAX_CARRY
    ensures Flat([b[..j], b[j..]]) == b && !Kept([b[..j], b[j..]])
  {
    hide LastNewline, Tail, Flat;
    var p := b[..j];
    assert p[i..] == b[i..j];
    TailReachesBack(p, i);
    FlatTwo(p, b[j..]);
    assert p + b[j..] == b;
    assert !FitsAt([p, b[j..]], 1);
  }
}
