/**
 SseUsage: what the extractors of server/src/router.rs find in a stream of server-sent events
 that was cut into chunks. Token usage does not depend on the cuts; the finish reason may.
 */
module SseUsage {
  import opened Options
  import opened Utf8
  import opened Sse

  /** What one line says: nothing, or a value. */
  type Parser<!U> = seq<Byte> -> Option<U>

  // ---- Lines ----

  function FirstNewline(s: seq<Byte>): (i: nat)
    ensures i <= |s|
    ensures forall k :: 0 <= k < i ==> s[k] != NEWLINE
    ensures i < |s| ==> s[i] == NEWLINE
  {
    if s == [] || s[0] == NEWLINE then 0 else 1 + FirstNewline(s[1..])
  }

  function WithoutReturn(line: seq<Byte>): seq<Byte> {
    if line != [] && line[|line| - 1] == RETURN then line[..|line| - 1] else line
  }

  /** Split at newlines; a return before a newline goes too; nothing follows the last newline. */
  function Lines(s: seq<Byte>): seq<seq<Byte>> {
    var i := FirstNewline(s);
    if s == [] then []
    else if i == |s| then [s]
    else [WithoutReturn(s[..i])] + Lines(s[i + 1..])
  }

  function Latest<U>(a: Option<U>, b: Option<U>): Option<U> {
    if b.Some? then b else a
  }

  /** What the last line that says something says. */
  function LastSaid<U>(parse: Parser<U>, lines: seq<seq<Byte>>): Option<U> {
    if lines == [] then None else Latest(parse(lines[0]), LastSaid(parse, lines[1..]))
  }

  /** What the first line that says something says. */
  function FirstSaid<U>(parse: Parser<U>, lines: seq<seq<Byte>>): Option<U> {
    if lines == [] then None else Latest(FirstSaid(parse, lines[1..]), parse(lines[0]))
  }

  /** The usage in a span: the last one stated; nothing when the span is not text. */
  function Usage<U>(parse: Parser<U>, bytes: seq<Byte>): Option<U> {
    if Valid(bytes) then LastSaid(parse, Lines(bytes)) else None
  }

  /** The finish reason in a span: the first one stated. */
  function Reason<U>(parse: Parser<U>, bytes: seq<Byte>): Option<U> {
    if Valid(bytes) then FirstSaid(parse, Lines(bytes)) else None
  }

  lemma {:induction false} LastSaidConcat<U>(parse: Parser<U>, a: seq<seq<Byte>>, b: seq<seq<Byte>>)
    ensures LastSaid(parse, a + b) == Latest(LastSaid(parse, a), LastSaid(parse, b))
  {
    if a == [] {
      assert a + b == b;
    } else {
      LastSaidConcat(parse, a[1..], b);
      assert (a + b)[1..] == a[1..] + b;
    }
  }

  lemma {:induction false} FirstSaidConcat<U>(parse: Parser<U>, a: seq<seq<Byte>>, b: seq<seq<Byte>>)
    ensures FirstSaid(parse, a + b) == Latest(FirstSaid(parse, b), FirstSaid(parse, a))
  {
    if a == [] {
      assert a + b == b;
    } else {
      FirstSaidConcat(parse, a[1..], b);
      assert (a + b)[1..] == a[1..] + b;
    }
  }

  lemma FirstNewlineIs(s: seq<Byte>, i: nat)
    requires i < |s| && s[i] == NEWLINE && forall k :: 0 <= k < i ==> s[k] != NEWLINE
    ensures FirstNewline(s) == i
  {
  }

  lemma FirstLine(s: seq<Byte>, i: nat)
    requires i < |s| && s[i] == NEWLINE && forall k :: 0 <= k < i ==> s[k] != NEWLINE
    ensures Lines(s) == [WithoutReturn(s[..i])] + Lines(s[i + 1..])
  {
    hide FirstNewline, WithoutReturn;
    FirstNewlineIs(s, i);
  }

  lemma NoLines()
    ensures Lines([]) == []
  {
  }

  /** Cut after a newline, the lines are those of both parts. */
  lemma {:induction false} LinesConcat(a: seq<Byte>, b: seq<Byte>)
    requires WholeLines(a)
    ensures Lines(a + b) == Lines(a) + Lines(b)
  {
    hide FirstNewline, WithoutReturn, Lines;
    if a == [] {
      NoLines();
      assert a + b == b;
    } else {
      var i := FirstNewline(a);
      assert i < |a|;
      assert forall k :: 0 <= k < |a| ==> (a + b)[k] == a[k];
      var rest := a[i + 1..];
      assert (a + b)[i + 1..] == rest + b;
      assert (a + b)[..i] == a[..i];
      FirstLine(a, i);
      FirstLine(a + b, i);
      LinesConcat(rest, b);
    }
  }

  // ---- A stream ----

  /** The value kept after all pushes: the one of the last span that has any. */
  function AfterPushes<U>(extract: Parser<U>, chunks: seq<seq<Byte>>): Option<U> {
    if chunks == [] then None
    else
      var before, last := chunks[..|chunks| - 1], chunks[|chunks| - 1];
      Latest(AfterPushes(extract, before), extract(Pushed(Carry(before), last).0))
  }

  /** And after the flush. */
  function AtEnd<U>(extract: Parser<U>, chunks: seq<seq<Byte>>): Option<U> {
    Latest(AfterPushes(extract, chunks), extract(Carry(chunks)))
  }

  function UsageIn<U>(parse: Parser<U>): Parser<U> { bytes => Usage(parse, bytes) }

  function ReasonIn<U>(parse: Parser<U>): Parser<U> { bytes => Reason(parse, bytes) }

  /** One more chunk: the new span continues the complete lines seen so far. */
  lemma SpanContinues(chunks: seq<seq<Byte>>)
    requires chunks != [] && Kept(chunks) && Valid(Head(Flat(chunks)))
    ensures var before, last := chunks[..|chunks| - 1], chunks[|chunks| - 1];
            var span := Pushed(Carry(before), last).0;
            && Kept(before) && Valid(Head(Flat(before))) && Valid(span)
            && Lines(Head(Flat(chunks))) == Lines(Head(Flat(before))) + Lines(span)
  {
    hide Kept, LastNewline, Lines, Valid, Head, Tail, WholeLines;
    var before, last := chunks[..|chunks| - 1], chunks[|chunks| - 1];
    KeptPrefix(chunks);
    KeptIsSplit(before);
    TailGrows(Flat(before), last);
    HeadAndTail(Flat(before));
    var span := Pushed(Carry(before), last).0;
    ValidAtNewline(Head(Flat(before)), span);
    LinesConcat(Head(Flat(before)), span);
  }

  /** The pushes find what one parse of all complete lines finds. */
  lemma {:induction false} PushesFindUsage<U>(parse: Parser<U>, chunks: seq<seq<Byte>>)
    requires Kept(chunks) && Valid(Head(Flat(chunks)))
    ensures AfterPushes(UsageIn(parse), chunks) == LastSaid(parse, Lines(Head(Flat(chunks))))
  {
    hide Kept, LastNewline, Lines, Valid, Head, LastSaid;
    if chunks == [] {
      NothingSaid(parse);
    } else {
      var before, last := chunks[..|chunks| - 1], chunks[|chunks| - 1];
      SpanContinues(chunks);
      PushesFindUsage(parse, before);
      LastSaidConcat(parse, Lines(Head(Flat(before))), Lines(Pushed(Carry(before), last).0));
    }
  }

  lemma NothingSaid<U>(parse: Parser<U>)
    ensures Head([]) == [] && LastSaid(parse, Lines([])) == None && FirstSaid(parse, Lines([])) == None
  {
  }

  /**
   Chunk independence: for text whose unfinished lines never outgrow the buffer, the usage kept at
   the end is the usage of the whole body parsed at once.
   */
  lemma UsageIsOfTheWhole<U>(parse: Parser<U>, chunks: seq<seq<Byte>>)
    requires Kept(chunks) && Valid(Flat(chunks))
    ensures AtEnd(UsageIn(parse), chunks) == Usage(parse, Flat(chunks))
  {
    hide Kept, LastNewline, Lines, Valid, Head, Tail, LastSaid, WholeLines;
    var all := Flat(chunks);
    HeadAndTail(all);
    ValidAtNewline(Head(all), Tail(all));
    PushesFindUsage(parse, chunks);
    KeptIsSplit(chunks);
    LinesConcat(Head(all), Tail(all));
    LastSaidConcat(parse, Lines(Head(all)), Lines(Tail(all)));
  }

  /** With all lines within the bound, no cut matters. */
  lemma UsageIgnoresCuts<U>(parse: Parser<U>, chunks: seq<seq<Byte>>, others: seq<seq<Byte>>)
    requires Flat(chunks) == Flat(others) && Valid(Flat(chunks)) && ShortLines(Flat(chunks))
    ensures AtEnd(UsageIn(parse), chunks) == AtEnd(UsageIn(parse), others)
  {
    hide Kept, ShortLines, AtEnd, Usage;
    ShortLinesAreKept(chunks);
    ShortLinesAreKept(others);
    UsageIsOfTheWhole(parse, chunks);
    UsageIsOfTheWhole(parse, others);
  }

  // ---- The loops ----

  /** The extractors' loop: over the lines, the last usage found. */
  method ExtractUsage<U>(parse: Parser<U>, bytes: seq<Byte>) returns (found: Option<U>)
    ensures found == Usage(parse, bytes)
  {
    hide FirstNewline, WithoutReturn, Lines, LastSaid;
    found := None;
    if !Valid(bytes) {
      return;
    }
    var rest := bytes;
    NoLines();
    SaidOfNone(parse);
    while rest != []
      invariant LastSaid(parse, Lines(bytes)) == Latest(found, LastSaid(parse, Lines(rest)))
      decreases |rest|
    {
      var i := FirstNewline(rest);
      var line := if i < |rest| then WithoutReturn(rest[..i]) else rest;
      NextLine(parse, rest, i, line);
      var u := parse(line);
      if u.Some? {
        found := u;
      }
      rest := if i < |rest| then rest[i + 1..] else [];
    }
  }

  lemma SaidOfNone<U>(parse: Parser<U>)
    ensures LastSaid(parse, []) == None
  {
  }

  lemma NextLine<U>(parse: Parser<U>, s: seq<Byte>, i: nat, line: seq<Byte>)
    requires s != [] && i == FirstNewline(s)
    requires line == if i < |s| then WithoutReturn(s[..i]) else s
    ensures LastSaid(parse, Lines(s)) ==
            Latest(parse(line), LastSaid(parse, Lines(if i < |s| then s[i + 1..] else [])))
  {
    hide FirstNewline, WithoutReturn;
  }

  /** A streaming response: every chunk is pushed, then the rest is flushed. */
  method StreamUsage<U>(parse: Parser<U>, chunks: seq<seq<Byte>>) returns (usage: Option<U>)
    ensures usage == AtEnd(UsageIn(parse), chunks)
    ensures Valid(Flat(chunks)) && ShortLines(Flat(chunks)) ==> usage == Usage(parse, Flat(chunks))
  {
    hide Usage, ShortLines, LastNewline, Valid, Kept, Flat, Head, Tail, Bounded;
    var buffer := new SseLineBuffer();
    usage := None;
    EmptySpanSaysNothing(parse);
    for i := 0 to |chunks|
      invariant buffer.carry == Carry(chunks[..i])
      invariant usage == AfterPushes(UsageIn(parse), chunks[..i])
    {
      assert chunks[..i + 1][..i] == chunks[..i];
      var span := buffer.Push(chunks[i]);
      if span.Some? {
        var u := ExtractUsage(parse, span.value);
        usage := if u.Some? then u else usage;
      }
    }
    assert chunks[..|chunks|] == chunks;
    var span := buffer.Flush();
    if span.Some? {
      var u := ExtractUsage(parse, span.value);
      usage := if u.Some? then u else usage;
    }
    if Valid(Flat(chunks)) && ShortLines(Flat(chunks)) {
      ShortLinesAreKept(chunks);
      UsageIsOfTheWhole(parse, chunks);
    }
  }

  lemma EmptySpanSaysNothing<U>(parse: Parser<U>)
    ensures Usage(parse, []) == None
  {
  }
}
