/**
 ConfigPolling: the version-gated database pollers of server/src/server.rs as a reader and a writer
 whose steps interleave. The admin plane changes tables and bumps the version in one step; a poll
 reads the version, then the tables one query at a time. A version is the number of changes so far.
 */
module ConfigPolling {
  import opened Options

  /** A query's answer: rows of columns. */
  type Table = seq<seq<string>>

  /** What a poller keeps between ticks: the tables it last loaded, and when it did. */
  datatype Poller = Poller(cache: seq<Table>, lastVersion: Option<nat>, lastFull: int)

  /** What a complete load of `content` yields: without routes, nothing else is read. */
  function Image(content: seq<Table>): seq<Table> {
    if content != [] && content[0] == [] then [[]] else content
  }

  function ElapsedSecs(since: int, now: int): nat {
    if now >= since then (now - since) / 1000 else 0
  }

  /** The version is the loaded one, and no forced reload is due. */
  predicate Skips(p: Poller, forceSecs: nat, current: Option<nat>, now: int) {
    !(forceSecs > 0 && ElapsedSecs(p.lastFull, now) >= forceSecs) && current.Some? && current == p.lastVersion
  }

  /** A failed load changes nothing, so that the next tick tries again. */
  function Settle(p: Poller, current: Option<nat>, loaded: Option<seq<Table>>, now: int): Poller {
    if loaded.Some? then Poller(loaded.value, current, now) else p
  }

  predicate Complete(tables: nat, parts: seq<Table>) {
    parts != [] && (parts[0] == [] || |parts| == tables)
  }

  // ---- Interleaved steps ----

  datatype Phase = Idle | Loading(current: Option<nat>, parts: seq<Table>)

  /** Every content the database ever had, the last one current, and one poller. */
  datatype System = System(history: seq<seq<Table>>, poller: Poller, phase: Phase)

  datatype Event =
    | Mutate(content: seq<Table>)
    | Poll(at: int, readable: bool)
    | Query(at: int, readable: bool)

  predicate Shaped(tables: nat, s: System) {
    && tables > 0 && s.history != [] && (forall k :: 0 <= k < |s.history| ==> |s.history[k]| == tables)
    && (s.phase.Loading? ==> |s.phase.parts| < tables)
  }

  function Step(tables: nat, forceSecs: nat, s: System, e: Event): System
    requires Shaped(tables, s) && (e.Mutate? ==> |e.content| == tables)
  {
    match e
    case Mutate(content) => s.(history := s.history + [content])
    case Poll(at, readable) =>
      var current := if readable then Some(|s.history| - 1) else None;
      if s.phase.Loading? || Skips(s.poller, forceSecs, current, at) then s
      else s.(phase := Loading(current, []))
    case Query(at, readable) =>
      if s.phase.Idle? then s
      else Answered(tables, s, at, if readable then Some(s.history[|s.history| - 1][|s.phase.parts|]) else None)
  }

  /** The load gets one more answer, or none. */
  function Answered(tables: nat, s: System, at: int, answer: Option<Table>): System
    requires s.phase.Loading?
  {
    if answer.None? then s.(poller := Settle(s.poller, s.phase.current, None, at), phase := Idle)
    else
      var parts := s.phase.parts + [answer.value];
      if Complete(tables, parts) then s.(poller := Settle(s.poller, s.phase.current, Some(parts), at), phase := Idle)
      else s.(phase := Loading(s.phase.current, parts))
  }

  /** Table `j` was `t` at some version from `v` on. */
  ghost predicate Held(history: seq<seq<Table>>, v: nat, j: nat, t: Table) {
    exists k :: v <= k < |history| && j < |history[k]| && history[k][j] == t
  }

  /** Each part is what its table held at version `v` or later. */
  ghost predicate NoOlderThan(parts: seq<Table>, history: seq<seq<Table>>, v: nat) {
    forall j :: 0 <= j < |parts| ==> Held(history, v, j, parts[j])
  }

  /** Parts stop at an empty first table. */
  predicate Stops(parts: seq<Table>) {
    parts != [] && parts[0] == [] ==> |parts| == 1
  }

  ghost predicate Sound(tables: nat, s: System) {
    && Shaped(tables, s)
    && (s.poller.lastVersion.Some? ==>
          s.poller.lastVersion.value < |s.history| && Complete(tables, s.poller.cache) && Stops(s.poller.cache)
          && NoOlderThan(s.poller.cache, s.history, s.poller.lastVersion.value))
    && (s.phase.Loading? ==>
          (s.phase.parts != [] ==> s.phase.parts[0] != [])
          && (s.phase.current.Some? ==>
                s.phase.current.value < |s.history| && NoOlderThan(s.phase.parts, s.history, s.phase.current.value)))
  }

  lemma HeldLater(history: seq<seq<Table>>, content: seq<Table>, v: nat, j: nat, t: Table)
    requires Held(history, v, j, t)
    ensures Held(history + [content], v, j, t)
  {
    var k :| v <= k < |history| && j < |history[k]| && history[k][j] == t;
    assert (history + [content])[k] == history[k];
  }

  lemma MoreHistory(parts: seq<Table>, history: seq<seq<Table>>, content: seq<Table>, v: nat)
    requires NoOlderThan(parts, history, v)
    ensures NoOlderThan(parts, history + [content], v)
  {
    hide Held;
    forall j | 0 <= j < |parts|
      ensures Held(history + [content], v, j, parts[j])
    {
      HeldLater(history, content, v, j, parts[j]);
    }
  }

  lemma OnePartMore(parts: seq<Table>, history: seq<seq<Table>>, v: nat)
    requires NoOlderThan(parts, history, v) && v < |history| && |parts| < |history[|history| - 1]|
    ensures NoOlderThan(parts + [history[|history| - 1][|parts|]], history, v)
  {
    assert Held(history, v, |parts|, history[|history| - 1][|parts|]);
  }

  lemma StepKeepsSound(tables: nat, forceSecs: nat, s: System, e: Event)
    requires Sound(tables, s) && (e.Mutate? ==> |e.content| == tables)
    ensures Sound(tables, Step(tables, forceSecs, s, e))
  {
    hide NoOlderThan;
    match e
    case Mutate(content) =>
      if s.poller.lastVersion.Some? {
        MoreHistory(s.poller.cache, s.history, content, s.poller.lastVersion.value);
      }
      if s.phase.Loading? && s.phase.current.Some? {
        MoreHistory(s.phase.parts, s.history, content, s.phase.current.value);
      }
    case Poll(_, _) => NothingIsOld(s.history, |s.history| - 1);
    case Query(_, _) =>
      if s.phase.Loading? && s.phase.current.Some? {
        OnePartMore(s.phase.parts, s.history, s.phase.current.value);
      }
  }

  lemma NothingIsOld(history: seq<seq<Table>>, v: nat)
    ensures NoOlderThan([], history, v)
  {
  }

  function Run(tables: nat, forceSecs: nat, s: System, es: seq<Event>): System
    requires Shaped(tables, s) && Wide(tables, es)
    ensures Shaped(tables, Run(tables, forceSecs, s, es))
  {
    if es == [] then s else Step(tables, forceSecs, Run(tables, forceSecs, s, es[..|es| - 1]), es[|es| - 1])
  }

  predicate Wide(tables: nat, es: seq<Event>) {
    forall i :: 0 <= i < |es| && es[i].Mutate? ==> |es[i].content| == tables
  }

  /** After the startup load, which nothing is known about: no version yet, so the first tick reloads. */
  predicate Starts(tables: nat, s: System) {
    Shaped(tables, s) && s.phase.Idle? && s.poller.lastVersion.None?
  }

  lemma {:induction false} RunIsSound(tables: nat, forceSecs: nat, s: System, es: seq<Event>)
    requires Starts(tables, s) && Wide(tables, es)
    ensures Sound(tables, Run(tables, forceSecs, s, es))
  {
    hide Step, Sound;
    if es == [] {
      StartIsSound(tables, s);
    } else {
      var before := es[..|es| - 1];
      RunIsSound(tables, forceSecs, s, before);
      StepKeepsSound(tables, forceSecs, Run(tables, forceSecs, s, before), es[|es| - 1]);
    }
  }

  lemma StartIsSound(tables: nat, s: System)
    requires Starts(tables, s)
    ensures Sound(tables, s)
  {
  }

  /** Parts no older than the current content are that content. */
  lemma NewestIsCurrent(tables: nat, parts: seq<Table>, history: seq<seq<Table>>)
    requires history != [] && |history[|history| - 1]| == tables
    requires NoOlderThan(parts, history, |history| - 1) && Complete(tables, parts) && Stops(parts)
    ensures parts == Image(history[|history| - 1])
  {
    var now := history[|history| - 1];
    forall j | 0 <= j < |parts|
      ensures j < tables && parts[j] == now[j]
    {
      assert Held(history, |history| - 1, j, parts[j]);
    }
    if parts[0] == [] {
      assert parts == [[]];
    } else {
      assert parts == now;
    }
  }

  /**
   No stale skip: in any run of admin changes, polls, slow multi-query loads and failed reads, when
   the last loaded version is the database's version, the cache is what a load would give now. So a
   poll that finds them equal loses nothing by skipping.
   */
  lemma SkipIsFresh(tables: nat, forceSecs: nat, s: System, es: seq<Event>)
    requires Starts(tables, s) && Wide(tables, es)
    ensures var t := Run(tables, forceSecs, s, es);
            t.poller.lastVersion == Some(|t.history| - 1) ==> t.poller.cache == Image(t.history[|t.history| - 1])
  {
    hide NoOlderThan, Run;
    RunIsSound(tables, forceSecs, s, es);
    var t := Run(tables, forceSecs, s, es);
    if t.poller.lastVersion == Some(|t.history| - 1) {
      NewestIsCurrent(tables, t.poller.cache, t.history);
    }
  }

  /** In general each cached table is what the database held at the last loaded version or later. */
  lemma CacheIsNoOlder(tables: nat, forceSecs: nat, s: System, es: seq<Event>)
    requires Starts(tables, s) && Wide(tables, es)
    ensures var t := Run(tables, forceSecs, s, es);
            t.poller.lastVersion.Some? ==> NoOlderThan(t.poller.cache, t.history, t.poller.lastVersion.value)
  {
    hide NoOlderThan, Run;
    RunIsSound(tables, forceSecs, s, es);
  }

  // ---- Catching up ----

  /** Queries that all succeed, with no change in between. */
  function Queries(tables: nat, forceSecs: nat, s: System, times: seq<int>): System
    requires Shaped(tables, s)
    ensures Shaped(tables, Queries(tables, forceSecs, s, times))
    decreases |times|
  {
    if times == [] then s else Queries(tables, forceSecs, Step(tables, forceSecs, s, Query(times[0], true)), times[1..])
  }

  lemma {:induction false} IdleStaysIdle(tables: nat, forceSecs: nat, s: System, times: seq<int>)
    requires Shaped(tables, s) && s.phase.Idle?
    ensures Queries(tables, forceSecs, s, times) == s
  {
    if times != [] {
      IdleStaysIdle(tables, forceSecs, s, times[1..]);
    }
  }

  lemma {:induction false} QueriesFinish(tables: nat, forceSecs: nat, s: System, times: seq<int>)
    requires Shaped(tables, s) && s.phase.Loading? && |s.phase.parts| + |times| == tables
    requires s.phase.parts <= s.history[|s.history| - 1] && (s.phase.parts != [] ==> s.phase.parts[0] != [])
    ensures var t := Queries(tables, forceSecs, s, times);
            t.phase.Idle? && t.history == s.history && t.poller.lastVersion == s.phase.current
            && t.poller.cache == Image(s.history[|s.history| - 1])
    decreases |times|
  {
    var now := s.history[|s.history| - 1];
    var parts := s.phase.parts + [now[|s.phase.parts|]];
    var next := Step(tables, forceSecs, s, Query(times[0], true));
    assert parts <= now;
    if Complete(tables, parts) {
      IdleStaysIdle(tables, forceSecs, next, times[1..]);
      if parts[0] == [] {
        assert parts == [[]];
      } else {
        assert parts == now;
      }
    } else {
      QueriesFinish(tables, forceSecs, next, times[1..]);
    }
  }

  /**
   Whatever happened before, including failed loads, one undisturbed poll whose reads succeed makes
   the cache current, whether it reloads or skips.
   */
  lemma UndisturbedPollCatchesUp(tables: nat, forceSecs: nat, s: System, es: seq<Event>, at: int, times: seq<int>)
    requires Starts(tables, s) && Wide(tables, es) && |times| == tables
    requires Run(tables, forceSecs, s, es).phase.Idle?
    ensures var before := Run(tables, forceSecs, s, es);
            var t := Queries(tables, forceSecs, Step(tables, forceSecs, before, Poll(at, true)), times);
            t.phase.Idle? && t.poller.cache == Image(t.history[|t.history| - 1])
  {
    hide Run, Queries;
    var before := Run(tables, forceSecs, s, es);
    var polled := Step(tables, forceSecs, before, Poll(at, true));
    if polled.phase.Idle? {
      SkipIsFresh(tables, forceSecs, s, es);
      IdleStaysIdle(tables, forceSecs, polled, times);
    } else {
      QueriesFinish(tables, forceSecs, polled, times);
    }
  }

  // ---- The forced reload ----

  /** The forced reload is due, on the clock of the last finished load. */
  predicate ForcedDue(p: Poller, forceSecs: nat, now: int) {
    forceSecs > 0 && now >= p.lastFull + 1000 * forceSecs
  }

  /**
   Exactly when a poll of an idle poller loads: the forced reload is due, the version could not be read,
   or it is not the loaded one. Otherwise the poll changes nothing.
   */
  lemma PollLoadsIff(tables: nat, forceSecs: nat, s: System, at: int, readable: bool)
    requires Shaped(tables, s) && s.phase.Idle?
    ensures var t := Step(tables, forceSecs, s, Poll(at, readable));
            var loads := ForcedDue(s.poller, forceSecs, at) || !readable
                         || s.poller.lastVersion != Some(|s.history| - 1);
            && (loads ==> t.phase.Loading? && t.phase.parts == [] && t.poller == s.poller)
            && (!loads ==> t == s)
  {
    if forceSecs > 0 {
      ElapsedIsReached(s.poller.lastFull, at, forceSecs);
    }
  }

  lemma ElapsedIsReached(since: int, now: int, secs: nat)
    requires secs > 0
    ensures ElapsedSecs(since, now) >= secs <==> now >= since + 1000 * secs
  {
  }

  /**
   A due poll makes the cache current from any idle state at all, whatever versions say: a change whose
   version bump was lost is picked up then at the latest.
   */
  lemma ForcedPollCatchesUp(tables: nat, forceSecs: nat, s: System, at: int, readable: bool, times: seq<int>)
    requires Shaped(tables, s) && s.phase.Idle? && ForcedDue(s.poller, forceSecs, at) && |times| == tables
    ensures var t := Queries(tables, forceSecs, Step(tables, forceSecs, s, Poll(at, readable)), times);
            t.phase.Idle? && t.poller.cache == Image(t.history[|t.history| - 1])
  {
    hide Queries, Image;
    PollLoadsIff(tables, forceSecs, s, at, readable);
    QueriesFinish(tables, forceSecs, Step(tables, forceSecs, s, Poll(at, readable)), times);
  }

  /** A load that finishes restarts the interval at its time; one that fails leaves it, the cache and the version. */
  lemma FinishedLoadRestartsInterval(tables: nat, forceSecs: nat, s: System, at: int, readable: bool)
    requires Shaped(tables, s) && s.phase.Loading?
    ensures var t := Step(tables, forceSecs, s, Query(at, readable));
            && (readable && t.phase.Idle? ==> t.poller.lastFull == at && t.poller.lastVersion == s.phase.current)
            && (!readable || t.phase.Loading? ==> t.poller == s.poller)
            && (!readable ==> t.phase.Idle?)
  {
  }

  // ---- The poller as an object ----

  /** What a load returns that has `parts` and still gets `answers`. */
  function LoadedFrom(tables: nat, parts: seq<Table>, answers: seq<Option<Table>>): Option<seq<Table>>
    decreases |answers|
  {
    if answers == [] || answers[0].None? then None
    else
      var more := parts + [answers[0].value];
      if Complete(tables, more) then Some(more) else LoadedFrom(tables, more, answers[1..])
  }

  predicate AllAnswered(answers: seq<Option<Table>>) {
    forall j :: 0 <= j < |answers| ==> answers[j].Some?
  }

  /** Unless there are no routes, every query counts. */
  lemma {:induction false} RestIsLoaded(tables: nat, parts: seq<Table>, answers: seq<Option<Table>>)
    requires answers != [] && |parts| + |answers| == tables
    requires if parts == [] then answers[0] != Some([]) else parts[0] != []
    ensures var loaded := LoadedFrom(tables, parts, answers);
            && (loaded.Some? <==> AllAnswered(answers))
            && (loaded.Some? ==> |loaded.value| == tables && loaded.value[..|parts|] == parts)
            && (loaded.Some? ==> forall j :: |parts| <= j < tables ==> loaded.value[j] == answers[j - |parts|].value)
    decreases |answers|
  {
    if answers[0].Some? && |answers| > 1 {
      var rest := answers[1..];
      RestIsLoaded(tables, parts + [answers[0].value], rest);
      assert AllAnswered(rest) ==> AllAnswered(answers) by {
        assert forall j :: 0 < j < |answers| ==> answers[j] == rest[j - 1];
      }
      var loaded := LoadedFrom(tables, parts, answers);
      if loaded.Some? {
        forall j | |parts| <= j < tables
          ensures loaded.value[j] == answers[j - |parts|].value
        {
          if j > |parts| {
            assert answers[j - |parts|] == rest[j - |parts| - 1];
          }
        }
      }
    }
  }

  /**
   A load that finds no routes yields just that, whatever the other queries would have said. Any other
   load succeeds exactly if all its queries do, and yields their answers in order.
   */
  lemma LoadIsItsAnswers(answers: seq<Option<Table>>)
    requires answers != []
    ensures var loaded := LoadedFrom(|answers|, [], answers);
            if answers[0] == Some([]) then loaded == Some([[]])
            else && (loaded.Some? <==> AllAnswered(answers))
                 && (loaded.Some? ==> |loaded.value| == |answers|)
                 && (loaded.Some? ==> forall j :: 0 <= j < |answers| ==> loaded.value[j] == answers[j].value)
  {
    if answers[0] == Some([]) {
      assert [] + [answers[0].value] == [[]];
    } else {
      RestIsLoaded(|answers|, [], answers);
    }
  }

  /** The load: one query after another until one fails, or the first finds no routes. */
  method Load(answers: seq<Option<Table>>) returns (loaded: Option<seq<Table>>)
    requires answers != []
    ensures loaded == LoadedFrom(|answers|, [], answers)
  {
    var parts := [];
    assert answers[0..] == answers;
    for j := 0 to |answers|
      invariant |parts| == j && (j > 0 ==> parts[0] != [])
      invariant LoadedFrom(|answers|, [], answers) == LoadedFrom(|answers|, parts, answers[j..])
    {
      if answers[j].None? {
        return None;
      }
      parts := parts + [answers[j].value];
      assert answers[j..][1..] == answers[j + 1..];
      if parts[0] == [] || j + 1 == |answers| {
        return Some(parts);
      }
    }
    loaded := None;
  }

  /** One query of a load: the changes that came before it, and whether it could be read. */
  datatype Round = Round(changes: seq<seq<Table>>, at: int, readable: bool)

  predicate WideRounds(tables: nat, rounds: seq<Round>) {
    forall r, c :: r in rounds && c in r.changes ==> |c| == tables
  }

  lemma WideRest(tables: nat, rounds: seq<Round>, s: System)
    requires rounds != [] && WideRounds(tables, rounds) && Shaped(tables, s)
    ensures WideRounds(tables, rounds[1..]) && Shaped(tables, Changed(s, rounds[0].changes))
  {
    assert rounds[0] in rounds;
  }

  function Changed(s: System, changes: seq<seq<Table>>): System {
    s.(history := s.history + changes)
  }

  /** The machine through the rounds of one load. */
  function Rounds(tables: nat, forceSecs: nat, s: System, rounds: seq<Round>): System
    requires Shaped(tables, s) && WideRounds(tables, rounds)
    decreases |rounds|
  {
    if rounds == [] || s.phase.Idle? then s
    else
      var r := rounds[0];
      WideRest(tables, rounds, s);
      Rounds(tables, forceSecs, Step(tables, forceSecs, Changed(s, r.changes), Query(r.at, r.readable)), rounds[1..])
  }

  /** What the queries of a load answer, from table `j` on. */
  function AnswersTo(tables: nat, s: System, j: nat, rounds: seq<Round>): (answers: seq<Option<Table>>)
    requires Shaped(tables, s) && WideRounds(tables, rounds) && j + |rounds| <= tables
    ensures |answers| == |rounds|
    decreases |rounds|
  {
    if rounds == [] then []
    else
      WideRest(tables, rounds, s);
      var now := Changed(s, rounds[0].changes);
      [if rounds[0].readable then Some(now.history[|now.history| - 1][j]) else None]
      + AnswersTo(tables, now, j + 1, rounds[1..])
  }

  /** A load of the machine, with changes between its queries, settles the poller as the program's load does. */
  lemma {:induction false} RoundsAreLoad(tables: nat, forceSecs: nat, s: System, rounds: seq<Round>)
    requires Shaped(tables, s) && s.phase.Loading? && |s.phase.parts| + |rounds| == tables
    requires s.phase.parts != [] ==> s.phase.parts[0] != []
    requires WideRounds(tables, rounds)
    ensures var t := Rounds(tables, forceSecs, s, rounds);
            var loaded := LoadedFrom(tables, s.phase.parts, AnswersTo(tables, s, |s.phase.parts|, rounds));
            t.phase.Idle? && t.poller == Settle(s.poller, s.phase.current, loaded, t.poller.lastFull)
    decreases |rounds|
  {
    hide WideRounds, Rounds, AnswersTo;
    var r, j := rounds[0], |s.phase.parts|;
    WideRest(tables, rounds, s);
    var changed := Changed(s, r.changes);
    var next := Step(tables, forceSecs, changed, Query(r.at, r.readable));
    OneRound(tables, forceSecs, s, rounds);
    var answers := AnswersTo(tables, s, j, rounds);
    assert answers == [answers[0]] + answers[1..];
    if next.phase.Loading? {
      SameAnswers(tables, changed, next, j + 1, rounds[1..]);
      RoundsAreLoad(tables, forceSecs, next, rounds[1..]);
    } else {
      NoRounds(tables, forceSecs, next, rounds[1..]);
      LoadEnds(tables, s.phase.parts, answers);
    }
  }

  lemma OneRound(tables: nat, forceSecs: nat, s: System, rounds: seq<Round>)
    requires Shaped(tables, s) && s.phase.Loading? && |s.phase.parts| + |rounds| == tables && rounds != []
    requires WideRounds(tables, rounds) && WideRounds(tables, rounds[1..])
    requires Shaped(tables, Changed(s, rounds[0].changes))
    ensures var r, now := rounds[0], Changed(s, rounds[0].changes);
            var answers := AnswersTo(tables, s, |s.phase.parts|, rounds);
            && Rounds(tables, forceSecs, s, rounds) ==
               Rounds(tables, forceSecs, Step(tables, forceSecs, now, Query(r.at, r.readable)), rounds[1..])
            && answers[0] == (if r.readable then Some(now.history[|now.history| - 1][|s.phase.parts|]) else None)
            && answers[1..] == AnswersTo(tables, now, |s.phase.parts| + 1, rounds[1..])
  {
    hide WideRounds, Step;
  }

  lemma NoRounds(tables: nat, forceSecs: nat, s: System, rounds: seq<Round>)
    requires Shaped(tables, s) && WideRounds(tables, rounds) && s.phase.Idle?
    ensures Rounds(tables, forceSecs, s, rounds) == s
  {
  }

  lemma LoadEnds(tables: nat, parts: seq<Table>, answers: seq<Option<Table>>)
    requires answers != [] && (answers[0].None? || Complete(tables, parts + [answers[0].value]))
    ensures LoadedFrom(tables, parts, answers) == if answers[0].None? then None else Some(parts + [answers[0].value])
  {
  }

  /** The answers depend on the database alone. */
  lemma {:induction false} SameAnswers(tables: nat, s: System, t: System, j: nat, rounds: seq<Round>)
    requires Shaped(tables, s) && Shaped(tables, t) && s.history == t.history
    requires WideRounds(tables, rounds) && j + |rounds| <= tables
    ensures AnswersTo(tables, s, j, rounds) == AnswersTo(tables, t, j, rounds)
    decreases |rounds|
  {
    hide Shaped, WideRounds;
    if rounds != [] {
      WideRest(tables, rounds, s);
      WideRest(tables, rounds, t);
      SameAnswers(tables, Changed(s, rounds[0].changes), Changed(t, rounds[0].changes), j + 1, rounds[1..]);
    }
  }

  class ConfigPoller {
    const forceReloadSecs: nat
    var cache: seq<Table>
    var lastVersion: Option<nat>
    var lastFull: int

    constructor (forceReloadSecs: nat, startup: seq<Table>, now: int)
      ensures View() == Poller(startup, None, now) && this.forceReloadSecs == forceReloadSecs
    {
      this.forceReloadSecs := forceReloadSecs;
      cache, lastVersion, lastFull := startup, None, now;
    }

    function View(): Poller
      reads this
    {
      Poller(cache, lastVersion, lastFull)
    }

    /** One tick: the version read at `readAt`, and the answers of the load, done by `doneAt`. */
    method Tick(current: Option<nat>, readAt: int, answers: seq<Option<Table>>, doneAt: int)
      requires answers != []
      modifies this
      ensures View() == if Skips(old(View()), forceReloadSecs, current, readAt) then old(View())
                        else Settle(old(View()), current, LoadedFrom(|answers|, [], answers), doneAt)
      ensures Skips(old(View()), forceReloadSecs, current, readAt) <==>
                && current.Some? && current == old(lastVersion)
                && (forceReloadSecs == 0 || readAt < old(lastFull) + 1000 * forceReloadSecs)
    {
      if forceReloadSecs > 0 {
        ElapsedIsReached(lastFull, readAt, forceReloadSecs);
      }
      var elapsed := if readAt >= lastFull then (readAt - lastFull) / 1000 else 0;
      var forced := forceReloadSecs > 0 && elapsed >= forceReloadSecs;
      if !forced && current.Some? && current == lastVersion {
        return;
      }
      var result := Load(answers);
      if result.Some? {
        cache := result.value;
        lastVersion := current;
        lastFull := doneAt;
      }
    }
  }
}
