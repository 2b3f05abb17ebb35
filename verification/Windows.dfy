/**
 Sliding windows over a full history, and the reference limiter: a bucket is the list of
 everything it ever counted, and a check at `now` compares what lies in (now - window, now]
 with the limit. The in-process and the Redis limiter are proved to answer like it.
 */
module Windows {

  /** A bucket of core/src/rate_limit.rs. */
  datatype Key =
    | KeyModel(apiKeyId: string, modelId: string)
    | Model(modelId: string)
    | PrimaryTier(modelId: string, protocol: string)

  /** Something counted: one request, or the tokens of one response. */
  datatype Entry = Entry(at: int, n: nat)

  const TWO_32: nat := 0x1_0000_0000

  type U32 = x: nat | x < 0x1_0000_0000

  /** What was counted after `cutoff`. */
  function SumAfter(h: seq<Entry>, cutoff: int): nat {
    if h == [] then 0
    else
      var e := h[|h| - 1];
      SumAfter(h[..|h| - 1], cutoff) + if e.at > cutoff then e.n else 0
  }

  /** What was counted in (t - window, t]. */
  function WindowSum(h: seq<Entry>, t: int, window: nat): nat {
    if h == [] then 0
    else
      var e := h[|h| - 1];
      WindowSum(h[..|h| - 1], t, window) + if t - window < e.at <= t then e.n else 0
  }

  /** Times in order, none later than `upTo`. */
  ghost predicate Ordered(h: seq<Entry>, upTo: int) {
    && (forall i :: 0 <= i < |h| ==> h[i].at <= upTo)
    && (forall i, j :: 0 <= i < j < |h| ==> h[i].at <= h[j].at)
  }

  lemma {:induction false} WindowIsTail(h: seq<Entry>, now: int, window: nat)
    requires forall i :: 0 <= i < |h| ==> h[i].at <= now
    ensures WindowSum(h, now, window) == SumAfter(h, now - window)
  {
    if h != [] {
      WindowIsTail(h[..|h| - 1], now, window);
    }
  }

  lemma SumAfterSnoc(h: seq<Entry>, e: Entry, cutoff: int)
    ensures SumAfter(h + [e], cutoff) == SumAfter(h, cutoff) + if e.at > cutoff then e.n else 0
  {
    assert (h + [e])[..|h|] == h;
  }

  lemma WindowSumSnoc(h: seq<Entry>, e: Entry, t: int, window: nat)
    ensures WindowSum(h + [e], t, window) == WindowSum(h, t, window) + if t - window < e.at <= t then e.n else 0
  {
    assert (h + [e])[..|h|] == h;
  }

  /** When everything counted is at most `now`, a window ending later sees no more. */
  lemma {:induction false} LaterWindowSeesLess(h: seq<Entry>, now: int, t: int, window: nat)
    requires forall i :: 0 <= i < |h| ==> h[i].at <= now
    requires now <= t
    ensures WindowSum(h, t, window) <= WindowSum(h, now, window)
  {
    if h != [] {
      LaterWindowSeesLess(h[..|h| - 1], now, t, window);
    }
  }

  // ---- The reference limiter ----

  datatype Op =
    | CheckRpm(key: Key, limit: U32)
    | CheckTpm(key: Key, limit: U32)
    | Record(key: Key, tokens: nat)
    | Cleanup(busy: set<Key>)

  datatype Timed = Timed(op: Op, at: int)

  datatype Ledger = Ledger(rpm: map<Key, seq<Entry>>, tpm: map<Key, seq<Entry>>)

  const EMPTY: Ledger := Ledger(map[], map[])

  function Of<T>(m: map<Key, seq<T>>, k: Key): seq<T> {
    if k in m then m[k] else []
  }

  function Add<T>(m: map<Key, seq<T>>, k: Key, x: T): map<Key, seq<T>> {
    m[k := Of(m, k) + [x]]
  }

  /** Whether a check is allowed; other operations always are. */
  function Allows(w: nat, s: Ledger, op: Op, now: int): bool {
    match op
    case CheckRpm(k, limit) => WindowSum(Of(s.rpm, k), now, w) < limit
    case CheckTpm(k, limit) => WindowSum(Of(s.tpm, k), now, w) < limit
    case Record(_, _) => true
    case Cleanup(_) => true
  }

  /** An allowed request check counts one; recorded tokens count unless zero. */
  function After(w: nat, s: Ledger, op: Op, now: int): Ledger {
    match op
    case CheckRpm(k, limit) => if Allows(w, s, op, now) then s.(rpm := Add(s.rpm, k, Entry(now, 1))) else s
    case CheckTpm(_, _) => s
    case Record(k, tokens) => if tokens == 0 then s else s.(tpm := Add(s.tpm, k, Entry(now, tokens)))
    case Cleanup(_) => s
  }

  function Run(w: nat, ops: seq<Timed>): Ledger {
    if ops == [] then EMPTY
    else
      var last := ops[|ops| - 1];
      After(w, Run(w, ops[..|ops| - 1]), last.op, last.at)
  }

  /** The answers to all operations, in order. */
  function Answers(w: nat, ops: seq<Timed>): seq<bool> {
    if ops == [] then []
    else
      var before, last := ops[..|ops| - 1], ops[|ops| - 1];
      Answers(w, before) + [Allows(w, Run(w, before), last.op, last.at)]
  }

  /** The clock does not run backwards, and is at most `upTo` at the end. */
  ghost predicate Clocked(ops: seq<Timed>, upTo: int) {
    && (forall i :: 0 <= i < |ops| ==> ops[i].at <= upTo)
    && (forall i, j :: 0 <= i < j < |ops| ==> ops[i].at <= ops[j].at)
  }

  ghost predicate LedgerOrdered(s: Ledger, upTo: int) {
    forall k :: Ordered(Of(s.rpm, k), upTo) && Ordered(Of(s.tpm, k), upTo)
  }

  lemma OrderedSnoc(h: seq<Entry>, e: Entry, was: int)
    requires Ordered(h, was) && was <= e.at
    ensures Ordered(h + [e], e.at)
  {
  }

  lemma OrderedLater(h: seq<Entry>, was: int, now: int)
    requires Ordered(h, was) && was <= now
    ensures Ordered(h, now)
  {
  }

  lemma AfterKeepsOrder(w: nat, s: Ledger, op: Op, was: int, now: int)
    requires LedgerOrdered(s, was) && was <= now
    ensures LedgerOrdered(After(w, s, op, now), now)
  {
    hide Ordered, Allows;
    var t := After(w, s, op, now);
    forall k
      ensures Ordered(Of(t.rpm, k), now) && Ordered(Of(t.tpm, k), now)
    {
      assert Ordered(Of(s.rpm, k), was) && Ordered(Of(s.tpm, k), was);
      OrderedLater(Of(s.rpm, k), was, now);
      OrderedLater(Of(s.tpm, k), was, now);
      OrderedSnoc(Of(s.rpm, k), Entry(now, 1), was);
      if op.Record? {
        OrderedSnoc(Of(s.tpm, k), Entry(now, op.tokens), was);
      }
    }
  }

  lemma ClockedPrefix(ops: seq<Timed>, upTo: int)
    requires Clocked(ops, upTo) && ops != []
    ensures Clocked(ops[..|ops| - 1], ops[|ops| - 1].at) && ops[|ops| - 1].at <= upTo
  {
  }

  lemma {:induction false} RunIsOrdered(w: nat, ops: seq<Timed>, upTo: int)
    requires Clocked(ops, upTo)
    ensures LedgerOrdered(Run(w, ops), upTo)
  {
    hide After, LedgerOrdered, Clocked;
    if ops == [] {
      EmptyIsOrdered(upTo);
    } else {
      var before, last := ops[..|ops| - 1], ops[|ops| - 1];
      ClockedPrefix(ops, upTo);
      RunIsOrdered(w, before, last.at);
      AfterKeepsOrder(w, Run(w, before), last.op, last.at, last.at);
      LedgerOrderedLater(Run(w, ops), last.at, upTo);
    }
  }

  lemma EmptyIsOrdered(upTo: int)
    ensures LedgerOrdered(EMPTY, upTo)
  {
  }

  lemma LedgerOrderedLater(s: Ledger, was: int, now: int)
    requires LedgerOrdered(s, was) && was <= now
    ensures LedgerOrdered(s, now)
  {
    hide Ordered;
    forall k
      ensures Ordered(Of(s.rpm, k), now) && Ordered(Of(s.tpm, k), now)
    {
      OrderedLater(Of(s.rpm, k), was, now);
      OrderedLater(Of(s.tpm, k), was, now);
    }
  }

  /** No window of a bucket ever holds more than `limit`. */
  ghost predicate WithinLimit(h: seq<Entry>, w: nat, limit: nat) {
    forall t :: WindowSum(h, t, w) <= limit
  }

  lemma CountingOneMore(h: seq<Entry>, w: nat, limit: nat, now: int)
    requires WithinLimit(h, w, limit) && Ordered(h, now)
    requires WindowSum(h, now, w) < limit
    ensures WithinLimit(h + [Entry(now, 1)], w, limit)
  {
    forall t
      ensures WindowSum(h + [Entry(now, 1)], t, w) <= limit
    {
      WindowSumSnoc(h, Entry(now, 1), t, w);
      if now <= t {
        LaterWindowSeesLess(h, now, t, w);
      }
    }
  }

  lemma AfterKeepsLimit(w: nat, s: Ledger, op: Op, now: int, k: Key, limit: nat)
    requires LedgerOrdered(s, now) && WithinLimit(Of(s.rpm, k), w, limit)
    requires op.CheckRpm? && op.key == k ==> op.limit <= limit
    ensures WithinLimit(Of(After(w, s, op, now).rpm, k), w, limit)
  {
    hide WithinLimit, Ordered;
    if op.CheckRpm? && op.key == k && Allows(w, s, op, now) {
      CountingOneMore(Of(s.rpm, k), w, limit, now);
    }
  }

  /**
   The request limit holds in every window: when every check of a bucket used a limit of at
   most `limit`, no interval (t - window, t], wherever it ends, holds more than `limit` allowed
   requests of that bucket.
   */
  lemma {:induction false} RpmWindowBound(w: nat, ops: seq<Timed>, upTo: int, k: Key, limit: nat)
    requires Clocked(ops, upTo)
    requires forall i :: 0 <= i < |ops| && ops[i].op.CheckRpm? && ops[i].op.key == k ==> ops[i].op.limit <= limit
    ensures WithinLimit(Of(Run(w, ops).rpm, k), w, limit)
  {
    hide After, LedgerOrdered, Clocked;
    if ops != [] {
      var before, last := ops[..|ops| - 1], ops[|ops| - 1];
      ClockedPrefix(ops, upTo);
      RpmWindowBound(w, before, last.at, k, limit);
      RunIsOrdered(w, before, last.at);
      AfterKeepsLimit(w, Run(w, before), last.op, last.at, k, limit);
    }
  }
}
