/**
 SseLines: what the lines of a text are, and which of them decides. A body is given as lines, each
 ended by a newline or by a return and a newline, and perhaps one unfinished line.
 */
module SseLines {
  import opened Options
  import opened Utf8
  import opened Sse
  import opened SseUsage

  /** A line and how it ends. */
  datatype Ended = Ended(line: seq<Byte>, withReturn: bool)

  function Ending(e: Ended): seq<Byte> {
    if e.withReturn then [RETURN, NEWLINE] else [NEWLINE]
  }

  /** No newline inside, and no return that would be taken for part of the ending. */
  predicate Proper(e: Ended) {
    NEWLINE !in e.line && (e.withReturn || e.line == [] || e.line[|e.line| - 1] != RETURN)
  }

  predicate AllProper(body: seq<Ended>) {
    forall i :: 0 <= i < |body| ==> Proper(body[i])
  }

  function Text(body: seq<Ended>): seq<Byte> {
    if body == [] then [] else body[0].line + Ending(body[0]) + Text(body[1..])
  }

  /** The lines without their endings; an unfinished line counts unless it is empty. */
  function LinesIn(body: seq<Ended>, unfinished: seq<Byte>): (lines: seq<seq<Byte>>)
    ensures |lines| == |body| + if unfinished == [] then 0 else 1
    ensures forall i :: 0 <= i < |body| ==> lines[i] == body[i].line
    ensures unfinished != [] ==> lines[|body|] == unfinished
  {
    if body == [] then if unfinished == [] then [] else [unfinished]
    else [body[0].line] + LinesIn(body[1..], unfinished)
  }

  // ---- Splitting ----

  /** A newline ends a line and takes nothing of it. */
  lemma LineThenNewline(x: seq<Byte>, y: seq<Byte>)
    requires NEWLINE !in x && (x == [] || x[|x| - 1] != RETURN)
    ensures Lines(x + [NEWLINE] + y) == [x] + Lines(y)
  {
    hide Lines;
    var s := x + [NEWLINE] + y;
    assert s[..|x|] == x && s[|x| + 1..] == y;
    assert forall k :: 0 <= k < |x| ==> s[k] == x[k];
    FirstLine(s, |x|);
  }

  /** A return before the newline goes with it, and only that one. */
  lemma LineThenReturnNewline(x: seq<Byte>, y: seq<Byte>)
    requires NEWLINE !in x
    ensures Lines(x + [RETURN, NEWLINE] + y) == [x] + Lines(y)
  {
    hide Lines;
    var s, n := x + [RETURN, NEWLINE] + y, |x| + 1;
    assert s[..n] == x + [RETURN] && s[n + 1..] == y;
    assert forall k :: 0 <= k < n ==> s[k] == (x + [RETURN])[k];
    FirstLine(s, n);
    assert (x + [RETURN])[..|x|] == x;
  }

  /** A last line without a newline is a line as it stands. */
  lemma UnfinishedLine(x: seq<Byte>)
    requires NEWLINE !in x
    ensures Lines(x) == if x == [] then [] else [x]
  {
  }

  lemma {:induction false} LinesOfText(body: seq<Ended>, unfinished: seq<Byte>)
    requires AllProper(body) && NEWLINE !in unfinished
    ensures Lines(Text(body) + unfinished) == LinesIn(body, unfinished)
  {
    hide Lines;
    if body == [] {
      assert [] + unfinished == unfinished;
      UnfinishedLine(unfinished);
    } else {
      var first, rest := body[0], Text(body[1..]) + unfinished;
      assert Proper(first);
      LinesOfText(body[1..], unfinished);
      assert Text(body) + unfinished == first.line + Ending(first) + rest;
      if first.withReturn {
        LineThenReturnNewline(first.line, rest);
      } else {
        LineThenNewline(first.line, rest);
      }
    }
  }

  // ---- The line that decides ----

  /** Line `i` states something and no later line does. */
  predicate LastToSpeak<U>(parse: Parser<U>, lines: seq<seq<Byte>>, i: nat) {
    i < |lines| && parse(lines[i]).Some? && forall j :: i < j < |lines| ==> parse(lines[j]).None?
  }

  /** Line `i` states something and no earlier line does. */
  predicate FirstToSpeak<U>(parse: Parser<U>, lines: seq<seq<Byte>>, i: nat) {
    i < |lines| && parse(lines[i]).Some? && forall j :: 0 <= j < i ==> parse(lines[j]).None?
  }

  predicate AllSilent<U>(parse: Parser<U>, lines: seq<seq<Byte>>) {
    forall j :: 0 <= j < |lines| ==> parse(lines[j]).None?
  }

  lemma {:induction false} LastSaidIs<U>(parse: Parser<U>, lines: seq<seq<Byte>>)
    ensures AllSilent(parse, lines) ==> LastSaid(parse, lines) == None
    ensures forall i: nat :: LastToSpeak(parse, lines, i) ==> LastSaid(parse, lines) == parse(lines[i])
  {
    if lines != [] {
      var rest := lines[1..];
      LastSaidIs(parse, rest);
      forall i: nat | LastToSpeak(parse, lines, i)
        ensures LastSaid(parse, lines) == parse(lines[i])
      {
        assert forall j :: 0 <= j < |rest| ==> rest[j] == lines[j + 1];
        if i == 0 {
          assert AllSilent(parse, rest);
        } else {
          assert LastToSpeak(parse, rest, i - 1);
        }
      }
    }
  }

  lemma {:induction false} FirstSaidIs<U>(parse: Parser<U>, lines: seq<seq<Byte>>)
    ensures AllSilent(parse, lines) ==> FirstSaid(parse, lines) == None
    ensures forall i: nat :: FirstToSpeak(parse, lines, i) ==> FirstSaid(parse, lines) == parse(lines[i])
  {
    if lines != [] {
      var rest := lines[1..];
      FirstSaidIs(parse, rest);
      forall i: nat | FirstToSpeak(parse, lines, i)
        ensures FirstSaid(parse, lines) == parse(lines[i])
      {
        assert forall j :: 0 <= j < |rest| ==> rest[j] == lines[j + 1];
        if i > 0 {
          assert FirstToSpeak(parse, rest, i - 1);
        }
      }
    }
  }

  /**
   The usage of a streamed body, however it was cut: that of the last line that states one, under either
   ending and whether or not the last line was finished; none when no line does.
   */
  lemma UsageIsTheLastStated<U>(
      parse: Parser<U>, chunks: seq<seq<Byte>>, body: seq<Ended>, unfinished: seq<Byte>, i: nat)
    requires AllProper(body) && NEWLINE !in unfinished
    requires Flat(chunks) == Text(body) + unfinished && Valid(Flat(chunks)) && Kept(chunks)
    ensures LastToSpeak(parse, LinesIn(body, unfinished), i) ==>
              AtEnd(UsageIn(parse), chunks) == parse(LinesIn(body, unfinished)[i])
    ensures AllSilent(parse, LinesIn(body, unfinished)) ==> AtEnd(UsageIn(parse), chunks) == None
  {
    hide Lines, Text, Valid, Kept, AtEnd, LastSaid;
    UsageIsOfTheWhole(parse, chunks);
    LinesOfText(body, unfinished);
    LastSaidIs(parse, LinesIn(body, unfinished));
  }

  /** The finish reason of a span of such lines: that of the first line that states one. */
  lemma ReasonIsTheFirstStated<U>(parse: Parser<U>, body: seq<Ended>, unfinished: seq<Byte>, i: nat)
    requires AllProper(body) && NEWLINE !in unfinished && Valid(Text(body) + unfinished)
    ensures FirstToSpeak(parse, LinesIn(body, unfinished), i) ==>
              Reason(parse, Text(body) + unfinished) == parse(LinesIn(body, unfinished)[i])
    ensures AllSilent(parse, LinesIn(body, unfinished)) ==> Reason(parse, Text(body) + unfinished) == None
  {
    hide Lines, Text, Valid, FirstSaid;
    LinesOfText(body, unfinished);
    FirstSaidIs(parse, LinesIn(body, unfinished));
  }

  /** A span that is not text says nothing: what was kept before it stays. */
  lemma BrokenSpanIsSkipped<U>(parse: Parser<U>, chunks: seq<seq<Byte>>, chunk: seq<Byte>)
    requires !Valid(Pushed(Carry(chunks), chunk).0)
    ensures AfterPushes(UsageIn(parse), chunks + [chunk]) == AfterPushes(UsageIn(parse), chunks)
    ensures AfterPushes(ReasonIn(parse), chunks + [chunk]) == AfterPushes(ReasonIn(parse), chunks)
  {
    hide Valid, Pushed, Carry;
    assert (chunks + [chunk])[..|chunks|] == chunks;
  }
}
