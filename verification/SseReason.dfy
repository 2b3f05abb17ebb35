/**
 SseReason: the finish reason of a stream. An extractor returns the first reason of a span and the
 caller keeps the last span's, so the result can depend on where the stream was cut. Exactly when
 it does is proved here.
 */
module SseReason {
  import opened Options
  import opened Utf8
  import opened Sse
  import opened SseUsage

  /** All lines that state a reason state the same. */
  ghost predicate Agree<U>(parse: Parser<U>, lines: seq<seq<Byte>>) {
    forall i, j :: 0 <= i < j < |lines| && parse(lines[i]).Some? && parse(lines[j]).Some? ==>
      parse(lines[i]) == parse(lines[j])
  }

  lemma {:induction false} FirstSaidBySome<U>(parse: Parser<U>, lines: seq<seq<Byte>>)
    ensures FirstSaid(parse, lines).Some? ==> exists i :: 0 <= i < |lines| && parse(lines[i]) == FirstSaid(parse, lines)
    ensures forall i :: 0 <= i < |lines| && parse(lines[i]).Some? ==> FirstSaid(parse, lines).Some?
  {
    if lines != [] {
      FirstSaidBySome(parse, lines[1..]);
      if parse(lines[0]).None? && FirstSaid(parse, lines).Some? {
        var i :| 0 <= i < |lines| - 1 && parse(lines[1..][i]) == FirstSaid(parse, lines[1..]);
        assert parse(lines[i + 1]) == FirstSaid(parse, lines);
      }
    }
  }

  /** Where reasons agree, the first of one part and the first of another are the same. */
  lemma AgreedReason<U>(parse: Parser<U>, a: seq<seq<Byte>>, b: seq<seq<Byte>>)
    requires Agree(parse, a + b)
    ensures FirstSaid(parse, a + b) == Latest(FirstSaid(parse, a), FirstSaid(parse, b))
    ensures Agree(parse, a)
  {
    hide FirstSaid;
    var s := a + b;
    FirstSaidConcat(parse, a, b);
    FirstSaidBySome(parse, a);
    FirstSaidBySome(parse, b);
    forall i, j | 0 <= i < j < |a| && parse(a[i]).Some? && parse(a[j]).Some?
      ensures parse(a[i]) == parse(a[j])
    {
      assert s[i] == a[i] && s[j] == a[j];
    }
    if FirstSaid(parse, a).Some? && FirstSaid(parse, b).Some? {
      var i :| 0 <= i < |a| && parse(a[i]) == FirstSaid(parse, a);
      var j :| 0 <= j < |b| && parse(b[j]) == FirstSaid(parse, b);
      assert s[i] == a[i] && s[|a| + j] == b[j];
    }
  }

  lemma {:induction false} AgreedPushes<U>(parse: Parser<U>, chunks: seq<seq<Byte>>)
    requires Kept(chunks) && Valid(Head(Flat(chunks))) && Agree(parse, Lines(Head(Flat(chunks))))
    ensures AfterPushes(ReasonIn(parse), chunks) == FirstSaid(parse, Lines(Head(Flat(chunks))))
  {
    hide Kept, LastNewline, Lines, Valid, Head, FirstSaid, Agree;
    if chunks == [] {
      NothingSaid(parse);
    } else {
      var before, last := chunks[..|chunks| - 1], chunks[|chunks| - 1];
      SpanContinues(chunks);
      AgreedReason(parse, Lines(Head(Flat(before))), Lines(Pushed(Carry(before), last).0));
      AgreedPushes(parse, before);
    }
  }

  /** The reason at the end, for a kept stream of text: the unfinished line's, or else the pushes'. */
  lemma ReasonAtEnd<U>(parse: Parser<U>, chunks: seq<seq<Byte>>)
    requires Kept(chunks) && Valid(Flat(chunks))
    ensures Valid(Head(Flat(chunks))) && Valid(Tail(Flat(chunks)))
    ensures AtEnd(ReasonIn(parse), chunks) ==
            Latest(AfterPushes(ReasonIn(parse), chunks), FirstSaid(parse, Lines(Tail(Flat(chunks)))))
  {
    hide Kept, LastNewline, Lines, Valid, Head, Tail, FirstSaid, WholeLines;
    var all := Flat(chunks);
    HeadAndTail(all);
    ValidAtNewline(Head(all), Tail(all));
    KeptIsSplit(chunks);
  }

  /** The stream settles its reason whatever the cuts: the unfinished line states one, or all lines agree. */
  ghost predicate ReasonIsSettled<U>(parse: Parser<U>, b: seq<Byte>) {
    FirstSaid(parse, Lines(Tail(b))).Some? || Agree(parse, Lines(Head(b)))
  }

  lemma SettledReason<U>(parse: Parser<U>, chunks: seq<seq<Byte>>)
    requires Kept(chunks) && Valid(Flat(chunks)) && ReasonIsSettled(parse, Flat(chunks))
    ensures AtEnd(ReasonIn(parse), chunks) ==
            Latest(FirstSaid(parse, Lines(Head(Flat(chunks)))), FirstSaid(parse, Lines(Tail(Flat(chunks)))))
  {
    hide Kept, LastNewline, Lines, Valid, Head, Tail, FirstSaid, Agree, AtEnd;
    ReasonAtEnd(parse, chunks);
    if Agree(parse, Lines(Head(Flat(chunks)))) {
      AgreedPushes(parse, chunks);
    }
  }

  /** Where line `j` starts. */
  lemma {:induction false} LineStart(s: seq<Byte>, j: nat) returns (p: nat)
    requires WholeLines(s) && j <= |Lines(s)|
    ensures p <= |s| && (p > 0 ==> s[p - 1] == NEWLINE)
    ensures Lines(s[p..]) == Lines(s)[j..]
  {
    hide WithoutReturn, FirstNewline, Lines;
    if j == 0 {
      p := 0;
      assert s[0..] == s;
    } else {
      NoLines();
      var i := FirstNewline(s);
      assert s != [] && s[|s| - 1] == NEWLINE;
      FirstLine(s, i);
      var rest := s[i + 1..];
      var q := LineStart(rest, j - 1);
      p := i + 1 + q;
      assert s[p..] == rest[q..];
      assert Lines(s)[j..] == Lines(rest)[j - 1..];
    }
  }

  /** When two complete lines disagree and the unfinished line is silent, two ways to cut give two reasons. */
  lemma UnsettledReason<U>(parse: Parser<U>, b: seq<Byte>) returns (chunks: seq<seq<Byte>>)
    requires ShortLines(b) && Valid(b) && !ReasonIsSettled(parse, b)
    ensures Flat(chunks) == b && Flat([b]) == b
    ensures AtEnd(ReasonIn(parse), chunks) != AtEnd(ReasonIn(parse), [b])
  {
    hide Kept, LastNewline, Lines, Valid, Tail, Head, FirstSaid, WholeLines, ShortLines;
    var h := Head(b);
    var lines := Lines(h);
    OneChunk(parse, b);
    FirstSaidBySome(parse, lines);
    var i, j :| 0 <= i < j < |lines| && parse(lines[i]).Some? && parse(lines[j]).Some?
                && parse(lines[i]) != parse(lines[j]);
    var odd := if parse(lines[j]) != FirstSaid(parse, lines) then j else i;
    HeadAndTail(b);
    var p := LineStart(h, odd);
    assert lines[odd..][0] == lines[odd];
    FirstSaidHere(parse, lines[odd..]);
    assert p > 0 ==> b[p - 1] == h[p - 1];
    TwoChunks(parse, b, p);
    chunks := [b[..p], b[p..]];
  }

  lemma FirstSaidHere<U>(parse: Parser<U>, lines: seq<seq<Byte>>)
    requires lines != [] && parse(lines[0]).Some?
    ensures FirstSaid(parse, lines) == parse(lines[0])
  {
  }

  /** Uncut, the first line's reason is the result. */
  lemma OneChunk<U>(parse: Parser<U>, b: seq<Byte>)
    requires ShortLines(b) && Valid(b)
    ensures Flat([b]) == b
    ensures AtEnd(ReasonIn(parse), [b]) == Latest(FirstSaid(parse, Lines(Head(b))), FirstSaid(parse, Lines(Tail(b))))
  {
    hide LastNewline, Lines, Valid, FirstSaid, ShortLines, Kept, Head, Tail;
    FlatOne(b);
    ShortLinesAreKept([b]);
    ReasonAtEnd(parse, [b]);
    FirstPush(parse, b);
  }

  lemma FlatOne(b: seq<Byte>)
    ensures Flat([b]) == b
  {
    assert [b][..0] == [];
    assert [] + b == b;
  }

  lemma FirstPush<U>(parse: Parser<U>, b: seq<Byte>)
    ensures AfterPushes(ReasonIn(parse), [b]) == Reason(parse, Head(b))
  {
    hide Reason, Head, Tail;
    assert [b][..0] == [];
    assert [] + b == b;
  }

  /** Cut at the start of a complete line, a reason stated from there on is the result. */
  lemma TwoChunks<U>(parse: Parser<U>, b: seq<Byte>, p: nat)
    requires ShortLines(b) && Valid(b) && p <= |Head(b)| && (p > 0 ==> b[p - 1] == NEWLINE)
    requires FirstSaid(parse, Lines(Head(b)[p..])).Some?
    ensures Flat([b[..p], b[p..]]) == b
    ensures AtEnd(ReasonIn(parse), [b[..p], b[p..]]) ==
            Latest(FirstSaid(parse, Lines(Head(b)[p..])), FirstSaid(parse, Lines(Tail(b))))
  {
    hide LastNewline, Lines, Valid, FirstSaid, ShortLines, Kept, Head, Tail, AtEnd;
    hide WholeLines, Flat, AfterPushes, Pushed;
    HeadAndTail(b);
    var x, y := b[..p], b[p..];
    FlatTwo(b, p);
    ShortLinesAreKept([x, y]);
    ReasonAtEnd(parse, [x, y]);
    HeadAfterNewline(b, p);
    SecondPush(parse, x, y);
    SecondSpanIsText(b, p);
  }

  lemma FlatTwo(b: seq<Byte>, p: nat)
    requires p <= |b|
    ensures Flat([b[..p], b[p..]]) == b
  {
    var x, y := b[..p], b[p..];
    assert [x, y][..1] == [x];
    FlatOne(x);
    assert x + y == b;
  }

  lemma SecondSpanIsText(b: seq<Byte>, p: nat)
    requires Valid(Head(b)) && p <= |Head(b)| && (p > 0 ==> b[p - 1] == NEWLINE)
    ensures Valid(Head(b[p..]))
  {
    hide LastNewline, Head, Tail, Valid;
    HeadAndTail(b);
    HeadAfterNewline(b, p);
    var h := Head(b);
    assert h == h[..p] + h[p..];
    assert p > 0 ==> h[p - 1] == b[p - 1];
    ValidAtNewline(h[..p], h[p..]);
  }

  lemma SecondPush<U>(parse: Parser<U>, x: seq<Byte>, y: seq<Byte>)
    requires x != [] ==> x[|x| - 1] == NEWLINE
    ensures Pushed(Carry([x, y][..1]), y).0 == Head(y)
    ensures AfterPushes(ReasonIn(parse), [x, y]) == Latest(AfterPushes(ReasonIn(parse), [x]), Reason(parse, Head(y)))
  {
    hide Reason, Head, Tail;
    assert [x, y][..1] == [x];
    NoCarryAfterNewline(x);
    assert [] + y == y;
  }

  lemma NoCarryAfterNewline(x: seq<Byte>)
    requires x != [] ==> x[|x| - 1] == NEWLINE
    ensures Carry([x]) == []
  {
    assert [x][..0] == [];
    assert [] + x == x;
  }

  lemma HeadAfterNewline(b: seq<Byte>, p: nat)
    requires p <= |Head(b)| && (p > 0 ==> b[p - 1] == NEWLINE)
    ensures Head(b)[p..] == Head(b[p..])
  {
    hide LastNewline, Head, Tail;
    HeadAndTail(b);
    TailAfter(b[..p], b[p..]);
    assert b[..p] + b[p..] == b;
  }

  /**
   For text with lines within the bound: every way to cut it gives the same finish reason if and
   only if its unfinished line states one or all its complete lines that state one agree.
   */
  lemma ReasonIgnoresCutsIffSettled<U(!new)>(parse: Parser<U>, b: seq<Byte>)
    requires Valid(b) && ShortLines(b)
    ensures (forall chunks, others :: Flat(chunks) == b && Flat(others) == b ==>
               AtEnd(ReasonIn(parse), chunks) == AtEnd(ReasonIn(parse), others))
            <==> ReasonIsSettled(parse, b)
  {
    hide Valid, ShortLines, Kept, ReasonIsSettled, AtEnd, Flat, Lines, Head, Tail;
    if ReasonIsSettled(parse, b) {
      forall chunks, others | Flat(chunks) == b && Flat(others) == b
        ensures AtEnd(ReasonIn(parse), chunks) == AtEnd(ReasonIn(parse), others)
      {
        ShortLinesAreKept(chunks);
        ShortLinesAreKept(others);
        SettledReason(parse, chunks);
        SettledReason(parse, others);
      }
    } else {
      var chunks := UnsettledReason(parse, b);
      assert AtEnd(ReasonIn(parse), chunks) != AtEnd(ReasonIn(parse), [b]);
    }
  }

  // ---- Such a stream exists ----

  /** A parser for which a line of one byte states that byte. */
  function OneByte(): Parser<Byte> {
    line => if |line| == 1 then Some(line[0]) else None
  }

  /** "a", newline, "b", newline. */
  const TWO_REASONS: seq<Byte> := [0x61, NEWLINE, 0x62, NEWLINE]

  lemma TwoReasonsAreText()
    ensures Valid(TWO_REASONS)
  {
    var b := TWO_REASONS;
    assert b[1..][1..] == b[2..] && b[2..][1..] == b[3..] && b[3..][1..] == [];
    assert FirstLength(b[3..]) == 1 && FirstLength(b[2..]) == 1 && FirstLength(b[1..]) == 1 && FirstLength(b) == 1;
    assert Valid(b[3..]);
    assert Valid(b[2..]);
    assert Valid(b[1..]);
  }

  lemma LinesOfTwoReasons()
    ensures Head(TWO_REASONS) == TWO_REASONS && Tail(TWO_REASONS) == []
    ensures Lines(TWO_REASONS) == [[0x61], [0x62]]
  {
    hide FirstNewline, Lines, LastNewline;
    var b, rest := TWO_REASONS, [0x62, NEWLINE];
    NoLines();
    FirstLine(b, 1);
    FirstLine(rest, 1);
    assert b[..1] == [0x61] && b[2..] == rest && rest[..1] == [0x62] && rest[2..] == [];
    assert WithoutReturn([0x61]) == [0x61] && WithoutReturn([0x62]) == [0x62];
    LastNewlineIs(b, 3);
  }

  /** Cut in two ways, this stream has two finish reasons. */
  lemma CutsCanChangeTheReason() returns (chunks: seq<seq<Byte>>)
    ensures Flat(chunks) == Flat([TWO_REASONS]) == TWO_REASONS
    ensures AtEnd(ReasonIn(OneByte()), chunks) != AtEnd(ReasonIn(OneByte()), [TWO_REASONS])
  {
    hide Flat, AtEnd, Lines, Valid, Head, Tail;
    TwoReasonsAreText();
    LinesOfTwoReasons();
    NoLines();
    var lines := Lines(TWO_REASONS);
    assert OneByte()(lines[0]) == Some(0x61) && OneByte()(lines[1]) == Some(0x62);
    chunks := UnsettledReason(OneByte(), TWO_REASONS);
  }
}
