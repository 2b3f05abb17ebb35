/**
 PathNormalizer: the metric path of server/src/middleware.rs, computed in one pass over the bytes
 of a path, against split on "/", replace, and join.
 */
module PathNormalizer {
  import opened Options
  import opened Utf8

  const SLASH: Byte := 0x2F
  const UNDERSCORE: Byte := 0x5F
  const DASH: Byte := 0x2D
  /** The bytes of "{id}". */
  const PLACEHOLDER: seq<Byte> := [0x7B, 0x69, 0x64, 0x7D]

  predicate IsDigit(b: Byte) { 0x30 <= b <= 0x39 }

  predicate IsHexDigit(b: Byte) {
    IsDigit(b) || 0x41 <= b <= 0x46 || 0x61 <= b <= 0x66
  }

  /** A prefixed id, a UUID-like string, or a number. */
  predicate IsDynamicId(s: seq<Byte>) {
    || (|s| > 10 && UNDERSCORE in s)
    || (|s| >= 32 && forall i :: 0 <= i < |s| ==> IsHexDigit(s[i]) || s[i] == DASH)
    || (s != [] && forall i :: 0 <= i < |s| ==> IsDigit(s[i]))
  }

  // ---- Split, replace, join ----

  /** The segments between slashes; always at least one. */
  function Split(path: seq<Byte>): (segments: seq<seq<Byte>>)
    ensures segments != []
  {
    if path == [] then [[]]
    else
      var before, b := Split(path[..|path| - 1]), path[|path| - 1];
      if b == SLASH then before + [[]]
      else before[..|before| - 1] + [before[|before| - 1] + [b]]
  }

  function Join(segments: seq<seq<Byte>>): seq<Byte>
    requires segments != []
  {
    if |segments| == 1 then segments[0]
    else Join(segments[..|segments| - 1]) + [SLASH] + segments[|segments| - 1]
  }

  /** Segments 0 to 2 are fixed. */
  function Shown(segment: seq<Byte>, i: nat): seq<Byte> {
    if i > 2 && IsDynamicId(segment) then PLACEHOLDER else segment
  }

  function Replaced(segments: seq<seq<Byte>>): (out: seq<seq<Byte>>)
    ensures |out| == |segments| && forall i :: 0 <= i < |segments| ==> out[i] == Shown(segments[i], i)
  {
    if segments == [] then []
    else Replaced(segments[..|segments| - 1]) + [Shown(segments[|segments| - 1], |segments| - 1)]
  }

  function Normalized(path: seq<Byte>): seq<Byte> {
    Join(Replaced(Split(path)))
  }

  // ---- Round trips ----

  /** Segments each followed by a slash. */
  function Lead(segments: seq<seq<Byte>>): seq<Byte> {
    if segments == [] then [] else Lead(segments[..|segments| - 1]) + segments[|segments| - 1] + [SLASH]
  }

  lemma {:induction false} JoinIsLead(front: seq<seq<Byte>>, last: seq<Byte>)
    ensures Join(front + [last]) == Lead(front) + last
  {
    assert (front + [last])[..|front|] == front;
    if front == [] {
      assert [] + last == last;
    } else {
      JoinIsLead(front[..|front| - 1], front[|front| - 1]);
      assert front == front[..|front| - 1] + [front[|front| - 1]];
    }
  }

  lemma {:induction false} JoinSplit(path: seq<Byte>)
    ensures Join(Split(path)) == path
  {
    if path != [] {
      var p, b := path[..|path| - 1], path[|path| - 1];
      JoinSplit(p);
      var before := Split(p);
      assert path == p + [b];
      if b == SLASH {
        assert (before + [[]])[..|before|] == before;
      } else {
        var front, last := before[..|before| - 1], before[|before| - 1];
        assert before == front + [last];
        JoinLonger(front, last, b);
      }
    }
  }

  lemma JoinLonger(front: seq<seq<Byte>>, last: seq<Byte>, b: Byte)
    ensures Join(front + [last + [b]]) == Join(front + [last]) + [b]
  {
    hide Join, Lead;
    JoinIsLead(front, last);
    JoinIsLead(front, last + [b]);
    var lead := Lead(front);
    assert lead + (last + [b]) == lead + last + [b];
  }

  predicate SlashFree(segments: seq<seq<Byte>>) {
    forall i :: 0 <= i < |segments| ==> SLASH !in segments[i]
  }

  lemma {:induction false} SplitIsSlashFree(path: seq<Byte>)
    ensures SlashFree(Split(path))
  {
    if path != [] {
      SplitIsSlashFree(path[..|path| - 1]);
    }
  }

  lemma SplitOneMore(path: seq<Byte>, b: Byte)
    requires b != SLASH
    ensures Split(path + [b]) == Split(path)[..|Split(path)| - 1] + [Split(path)[|Split(path)| - 1] + [b]]
  {
    assert (path + [b])[..|path|] == path;
  }

  lemma {:induction false} SplitAppend(path: seq<Byte>, segment: seq<Byte>)
    requires SLASH !in segment
    ensures Split(path + segment) == Split(path)[..|Split(path)| - 1] + [Split(path)[|Split(path)| - 1] + segment]
  {
    hide Split;
    var whole := Split(path);
    var front, last := whole[..|whole| - 1], whole[|whole| - 1];
    if segment == [] {
      assert path + segment == path && last + segment == last;
    } else {
      var s, b := segment[..|segment| - 1], segment[|segment| - 1];
      SplitAppend(path, s);
      SplitOneMore(path + s, b);
      var shorter := Split(path + s);
      assert path + segment == path + s + [b];
      assert shorter[..|shorter| - 1] == front && shorter[|shorter| - 1] == last + s;
      assert last + s + [b] == last + segment;
    }
  }

  lemma SplitAfterSlash(p: seq<Byte>, last: seq<Byte>)
    requires SLASH !in last
    ensures Split(p + [SLASH] + last) == Split(p) + [last]
  {
    var q := p + [SLASH];
    assert q[..|q| - 1] == p;
    SplitAppend(q, last);
    assert [] + last == last;
  }

  lemma {:induction false} SplitJoin(segments: seq<seq<Byte>>)
    requires segments != [] && SlashFree(segments)
    ensures Split(Join(segments)) == segments
  {
    hide Split;
    var front, last := segments[..|segments| - 1], segments[|segments| - 1];
    if front == [] {
      SplitOne(last);
      assert segments == [last];
    } else {
      SplitJoin(front);
      SplitAfterSlash(Join(front), last);
    }
  }

  lemma SplitOne(segment: seq<Byte>)
    requires SLASH !in segment
    ensures Split(segment) == [segment]
  {
    SplitAppend([], segment);
    assert [] + segment == segment;
  }

  /** The segments of a normalised path are the replaced segments of the path. */
  lemma NormalizedSegments(path: seq<Byte>)
    ensures Split(Normalized(path)) == Replaced(Split(path))
  {
    SplitIsSlashFree(path);
    SplitJoin(Replaced(Split(path)));
  }

  predicate Between(b: Byte, low: char, high: char) {
    low as int <= b as int <= high as int
  }

  /** More than ten bytes with an underscore, 32 or more of hexadecimal digits and dashes, or a number. */
  predicate LooksLikeAnId(s: seq<Byte>) {
    || (|s| > 10 && exists k :: 0 <= k < |s| && s[k] as int == '_' as int)
    || (|s| >= 32 && forall k :: 0 <= k < |s| ==>
          Between(s[k], '0', '9') || Between(s[k], 'a', 'f') || Between(s[k], 'A', 'F') || s[k] as int == '-' as int)
    || (|s| > 0 && forall k :: 0 <= k < |s| ==> Between(s[k], '0', '9'))
  }

  lemma DynamicIds(s: seq<Byte>)
    ensures IsDynamicId(s) <==> LooksLikeAnId(s)
  {
  }

  /**
   Segment by segment: the first three stay, of the others exactly those that look like an id become
   "{id}", and none is added or lost.
   */
  lemma SegmentsShown(path: seq<Byte>, i: nat)
    requires i < |Split(path)|
    ensures |Split(Normalized(path))| == |Split(path)|
    ensures var (was, now) := (Split(path)[i], Split(Normalized(path))[i]);
            if i >= 3 && LooksLikeAnId(was)
            then |now| == 4 && now[0] as int == '{' as int && now[1] as int == 'i' as int
                 && now[2] as int == 'd' as int && now[3] as int == '}' as int
            else now == was
  {
    hide Split, IsDynamicId, LooksLikeAnId, Normalized;
    NormalizedSegments(path);
    DynamicIds(Split(path)[i]);
  }

  /** Normalising twice is normalising once. */
  lemma NormalizingIsIdempotent(path: seq<Byte>)
    ensures Normalized(Normalized(path)) == Normalized(path)
  {
    hide Split, IsDynamicId;
    NormalizedSegments(path);
    var once := Replaced(Split(path));
    PlaceholderIsNotAnId();
    assert Replaced(once) == once;
  }

  lemma PlaceholderIsNotAnId()
    ensures !IsDynamicId(PLACEHOLDER) && SLASH !in PLACEHOLDER
  {
    assert !IsDigit(PLACEHOLDER[0]);
  }

  // ---- One pass ----

  /** The output so far: the copy if there is one, otherwise the path itself up to `upTo`. */
  function Built(result: Option<seq<Byte>>, path: seq<Byte>, upTo: nat): seq<Byte>
    requires upTo <= |path|
  {
    if result.Some? then result.value else path[..upTo]
  }

  /** All segments but the last one, replaced. */
  function FrontOf(path: seq<Byte>): seq<Byte> {
    Lead(Replaced(Split(path)[..|Split(path)| - 1]))
  }

  function LastOf(path: seq<Byte>): seq<Byte> {
    Split(path)[|Split(path)| - 1]
  }

  lemma NormalizedIs(path: seq<Byte>)
    ensures Normalized(path) == FrontOf(path) + Shown(LastOf(path), |Split(path)| - 1)
  {
    hide Split, Shown;
    var segments := Split(path);
    JoinIsLead(Replaced(segments[..|segments| - 1]), Shown(LastOf(path), |segments| - 1));
  }

  lemma SplitNext(p: seq<Byte>, b: Byte)
    ensures b != SLASH ==> |Split(p + [b])| == |Split(p)| && FrontOf(p + [b]) == FrontOf(p)
    ensures b != SLASH ==> LastOf(p + [b]) == LastOf(p) + [b]
    ensures b == SLASH ==> |Split(p + [b])| == |Split(p)| + 1 && LastOf(p + [b]) == []
    ensures b == SLASH ==> FrontOf(p + [b]) == FrontOf(p) + Shown(LastOf(p), |Split(p)| - 1) + [SLASH]
  {
    hide Shown;
    assert (p + [b])[..|p|] == p;
    var segments := Split(p);
    if b == SLASH {
      assert (segments + [[]])[..|segments|] == segments;
    } else {
      var front, last := segments[..|segments| - 1], segments[|segments| - 1];
      assert (front + [last + [b]])[..|front|] == front;
    }
  }

  /** Starts the copy at the first dynamic segment; from then on every segment is copied. */
  method PushSegment(
      path: seq<Byte>, start: nat, end: nat, idx: nat, result: Option<seq<Byte>>) returns (more: Option<seq<Byte>>)
    requires start <= end <= |path|
    ensures Built(more, path, end) == Built(result, path, start) + Shown(path[start..end], idx)
  {
    var segment := path[start..end];
    assert path[..start] + segment == path[..end];
    if idx > 2 && segment != [] && IsDynamicId(segment) {
      more := Some((if result.Some? then result.value else path[..start]) + PLACEHOLDER);
    } else if result.Some? {
      more := Some(result.value + segment);
    } else {
      more := None;
    }
  }

  method NormalizePath(path: seq<Byte>) returns (out: seq<Byte>)
    ensures out == Normalized(path)
  {
    hide Split, Shown, FrontOf, LastOf, Normalized, IsDynamicId;
    var segmentStart, segmentIdx := 0, 0;
    var result: Option<seq<Byte>> := None;
    EmptyPath();
    for pos := 0 to |path|
      invariant segmentStart <= pos && segmentIdx == |Split(path[..pos])| - 1
      invariant path[segmentStart..pos] == LastOf(path[..pos])
      invariant pos == |path| && segmentStart < pos ==> Built(result, path, pos) == Normalized(path)
      invariant pos < |path| || segmentStart == pos ==> Built(result, path, segmentStart) == FrontOf(path[..pos])
    {
      var b := path[pos];
      assert path[..pos] + [b] == path[..pos + 1];
      SplitNext(path[..pos], b);
      assert path[segmentStart..pos] + [b] == path[segmentStart..pos + 1];
      if b == SLASH || pos == |path| - 1 {
        var segmentEnd := if b == SLASH then pos else pos + 1;
        result := PushSegment(path, segmentStart, segmentEnd, segmentIdx, result);
        if b == SLASH {
          assert path[..pos + 1] == path[..pos] + [SLASH];
          if result.Some? {
            result := Some(result.value + [SLASH]);
          }
          segmentStart := pos + 1;
          segmentIdx := segmentIdx + 1;
        } else {
          assert path[..pos + 1] == path;
          NormalizedIs(path);
        }
      }
    }
    assert path[..|path|] == path;
    NormalizedIs(path);
    out := if result.Some? then result.value else path;
  }

  lemma EmptyPath()
    ensures |Split([])| == 1 && LastOf([]) == [] && FrontOf([]) == [] && forall i: nat :: Shown([], i) == []
  {
  }
}
