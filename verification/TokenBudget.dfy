/**
 The soft token limit: tokens are checked before a request and recorded after its response
 (server/src/rate_limit_memory.rs, core/src/rate_limit.rs), so requests under way may overshoot.
 */
module TokenBudget {
  import opened Windows

  /** For one bucket: a request checked, an admitted one ending, or anything on other buckets. */
  datatype Event =
    | Begin(limit: U32, at: int)
    | End(tokens: nat, at: int)
    | Other(op: Op, at: int)

  function OpOf(k: Key, e: Event): Timed {
    match e
    case Begin(limit, at) => Timed(CheckTpm(k, limit), at)
    case End(tokens, at) => Timed(Record(k, tokens), at)
    case Other(op, at) => Timed(op, at)
  }

  function OpsOf(k: Key, es: seq<Event>): (ops: seq<Timed>)
    ensures |ops| == |es|
    ensures forall i :: 0 <= i < |es| ==> ops[i] == OpOf(k, es[i])
  {
    if es == [] then [] else OpsOf(k, es[..|es| - 1]) + [OpOf(k, es[|es| - 1])]
  }

  /** Requests admitted and not yet ended. */
  function Underway(w: nat, k: Key, es: seq<Event>): int {
    if es == [] then 0
    else
      var before, e := es[..|es| - 1], es[|es| - 1];
      Underway(w, k, before) + match e
        case Begin(limit, at) => if Allows(w, Run(w, OpsOf(k, before)), CheckTpm(k, limit), at) then 1 else 0
        case End(_, _) => -1
        case Other(_, _) => 0
  }

  /** The tokens in the bucket's window at `t`. */
  function Tokens(w: nat, k: Key, es: seq<Event>, t: int): nat {
    WindowSum(Of(Run(w, OpsOf(k, es)).tpm, k), t, w)
  }

  ghost predicate Concerns(op: Op, k: Key) {
    (op.CheckTpm? || op.Record?) && op.key == k
  }

  /** Limits at most `limit`, responses at most `m` tokens, never more than `cap` under way. */
  ghost predicate Traffic(w: nat, k: Key, es: seq<Event>, limit: nat, m: nat, cap: nat) {
    && (forall i :: 0 <= i < |es| ==>
          && (es[i].Begin? ==> es[i].limit <= limit)
          && (es[i].End? ==> es[i].tokens <= m)
          && (es[i].Other? ==> !Concerns(es[i].op, k)))
    && (forall n: nat :: n <= |es| ==> 0 <= Underway(w, k, es[..n]) <= cap)
  }

  /** The most a window can hold. */
  function Budget(limit: nat, m: nat, cap: nat): nat {
    (if limit == 0 then 0 else limit - 1) + cap * m
  }

  lemma TrafficPrefix(w: nat, k: Key, es: seq<Event>, limit: nat, m: nat, cap: nat)
    requires Traffic(w, k, es, limit, m, cap) && es != []
    ensures Traffic(w, k, es[..|es| - 1], limit, m, cap)
    ensures 0 <= Underway(w, k, es[..|es| - 1]) <= cap
    ensures 0 <= Underway(w, k, es) <= cap
  {
    hide Underway;
    var before := es[..|es| - 1];
    assert before[..|before|] == before;
    forall n: nat | n <= |before|
      ensures 0 <= Underway(w, k, before[..n]) <= cap
    {
      assert before[..n] == es[..n];
    }
    assert es[..|es|] == es;
  }

  lemma OpsPrefix(k: Key, es: seq<Event>)
    requires es != []
    ensures OpsOf(k, es)[..|es| - 1] == OpsOf(k, es[..|es| - 1])
    ensures OpsOf(k, es)[|es| - 1] == OpOf(k, es[|es| - 1])
  {
  }

  lemma Scale(m: int, n: int)
    ensures m * (n + 1) == m * n + m && m * (n - 1) == m * n - m
  {
  }

  lemma ScaleMonotone(m: nat, n: int, cap: int)
    requires n <= cap
    ensures m * n <= cap * m
  {
  }

  lemma RecordedTokens(h: seq<Entry>, e: Entry, w: nat, t: int)
    requires Ordered(h, e.at)
    ensures t < e.at ==> WindowSum(h + [e], t, w) == WindowSum(h, t, w)
    ensures t >= e.at ==> WindowSum(h + [e], t, w) <= WindowSum(h, e.at, w) + e.n
  {
    WindowSumSnoc(h, e, t, w);
    if t >= e.at {
      LaterWindowSeesLess(h, e.at, t, w);
    }
  }

  /** What one event does to the bucket. */
  lemma Step(w: nat, k: Key, es: seq<Event>, upTo: int)
    requires es != [] && Clocked(OpsOf(k, es), upTo)
    requires es[|es| - 1].Other? ==> !Concerns(es[|es| - 1].op, k)
    ensures var before, e := es[..|es| - 1], es[|es| - 1];
            var was := Of(Run(w, OpsOf(k, before)).tpm, k);
            && Clocked(OpsOf(k, before), e.at) && e.at <= upTo
            && Ordered(was, e.at)
            && Of(Run(w, OpsOf(k, es)).tpm, k) == if e.End? && e.tokens > 0 then was + [Entry(e.at, e.tokens)] else was
  {
    var before, e := es[..|es| - 1], es[|es| - 1];
    OpsPrefix(k, es);
    ClockedPrefix(OpsOf(k, es), upTo);
    RunIsOrdered(w, OpsOf(k, before), e.at);
    assert LedgerOrdered(Run(w, OpsOf(k, before)), e.at);
  }

  /**
   Bounded overshoot: with limits at most `limit`, at most `cap` requests under way and at most
   `m` tokens each, no window of the bucket ever holds more than limit - 1 + cap * m tokens, and
   from the last event on it holds at most that less m for every request still under way.
   */
  lemma {:induction false} OvershootIsBounded(
      w: nat, k: Key, es: seq<Event>, limit: nat, m: nat, cap: nat, upTo: int, t: int)
    requires Clocked(OpsOf(k, es), upTo) && Traffic(w, k, es, limit, m, cap)
    ensures Tokens(w, k, es, t) <= Budget(limit, m, cap)
    ensures t >= upTo ==> Tokens(w, k, es, t) + m * Underway(w, k, es) <= Budget(limit, m, cap)
  {
    hide Run, Traffic, Clocked, Budget, WindowSum;
    if es == [] {
      NothingCounted(w, k, limit, m, cap, t);
    } else {
      var before, e := es[..|es| - 1], es[|es| - 1];
      TrafficPrefix(w, k, es, limit, m, cap);
      LastOfTraffic(w, k, es, limit, m, cap);
      Step(w, k, es, upTo);
      OvershootIsBounded(w, k, before, limit, m, cap, e.at, t);
      OvershootIsBounded(w, k, before, limit, m, cap, e.at, e.at);
      OneEvent(w, limit, m, cap, Of(Run(w, OpsOf(k, before)).tpm, k), Underway(w, k, before), e, t, upTo);
    }
  }

  lemma NothingCounted(w: nat, k: Key, limit: nat, m: nat, cap: nat, t: int)
    ensures Tokens(w, k, [], t) + m * Underway(w, k, []) <= Budget(limit, m, cap)
  {
  }

  lemma LastOfTraffic(w: nat, k: Key, es: seq<Event>, limit: nat, m: nat, cap: nat)
    requires Traffic(w, k, es, limit, m, cap) && es != []
    ensures var e := es[|es| - 1];
            && (e.Begin? ==> e.limit <= limit) && (e.End? ==> e.tokens <= m) && (e.Other? ==> !Concerns(e.op, k))
  {
  }

  /** The bucket `was`, with `n` requests under way, through one event. */
  lemma OneEvent(w: nat, limit: nat, m: nat, cap: nat, was: seq<Entry>, n: int, e: Event, t: int, upTo: int)
    requires Ordered(was, e.at) && e.at <= upTo && 0 <= n <= cap
    requires WindowSum(was, t, w) <= Budget(limit, m, cap)
    requires WindowSum(was, e.at, w) + m * n <= Budget(limit, m, cap)
    requires t >= e.at ==> WindowSum(was, t, w) + m * n <= Budget(limit, m, cap)
    requires (e.Begin? ==> e.limit <= limit) && (e.End? ==> e.tokens <= m && n >= 1)
    requires e.Begin? && WindowSum(was, e.at, w) < e.limit ==> n < cap
    ensures var now := if e.End? && e.tokens > 0 then was + [Entry(e.at, e.tokens)] else was;
            var left := n + if e.Begin? && WindowSum(was, e.at, w) < e.limit then 1 else if e.End? then -1 else 0;
            && WindowSum(now, t, w) <= Budget(limit, m, cap)
            && (t >= upTo ==> WindowSum(now, t, w) + m * left <= Budget(limit, m, cap))
  {
    Scale(m, n);
    match e {
      case Begin(_, at) =>
        if WindowSum(was, at, w) < e.limit && t >= upTo {
          LaterWindowSeesLess(was, at, t, w);
          ScaleMonotone(m, n + 1, cap);
        }
      case End(tokens, at) =>
        ScaleMonotone(m, 1, n);
        RecordedTokens(was, Entry(at, tokens), w, t);
      case Other(_, _) =>
    }
  }
}
