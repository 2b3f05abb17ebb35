/**
 The in-process limiter of server/src/rate_limit_memory.rs: one queue of times or of token
 entries per bucket, evicted from the front. Each public operation is one atomic step that
 reads the clock once. `u32` lengths wrap as the program's cast does.
 */
module MemoryLimiter {
  import opened Windows

  datatype State = State(rpm: map<Key, seq<int>>, tpm: map<Key, seq<Entry>>)

  function EvictTimes(q: seq<int>, cutoff: int): seq<int> {
    if q != [] && q[0] <= cutoff then EvictTimes(q[1..], cutoff) else q
  }

  function EvictEntries(q: seq<Entry>, cutoff: int): seq<Entry> {
    if q != [] && q[0].at <= cutoff then EvictEntries(q[1..], cutoff) else q
  }

  function Total(q: seq<Entry>): nat {
    if q == [] then 0 else Total(q[..|q| - 1]) + q[|q| - 1].n
  }

  function CleanedTimes(m: map<Key, seq<int>>, busy: set<Key>, cutoff: int): map<Key, seq<int>> {
    map k | k in m && (k in busy || EvictTimes(m[k], cutoff) != [])
      :: if k in busy then m[k] else EvictTimes(m[k], cutoff)
  }

  function CleanedEntries(m: map<Key, seq<Entry>>, busy: set<Key>, cutoff: int): map<Key, seq<Entry>> {
    map k | k in m && (k in busy || EvictEntries(m[k], cutoff) != [])
      :: if k in busy then m[k] else EvictEntries(m[k], cutoff)
  }

  /** The state after an operation, and whether it allows. */
  function Step(w: nat, s: State, op: Op, now: int): (State, bool) {
    match op
    case CheckRpm(k, limit) =>
      var q := EvictTimes(Of(s.rpm, k), now - w);
      if |q| % TWO_32 >= limit then (s.(rpm := s.rpm[k := q]), false)
      else (s.(rpm := s.rpm[k := q + [now]]), true)
    case CheckTpm(k, limit) =>
      var q := EvictEntries(Of(s.tpm, k), now - w);
      (s.(tpm := s.tpm[k := q]), Total(q) < limit)
    case Record(k, tokens) =>
      (if tokens == 0 then s else s.(tpm := Add(s.tpm, k, Entry(now, tokens))), true)
    case Cleanup(busy) =>
      (State(CleanedTimes(s.rpm, busy, now - w), CleanedEntries(s.tpm, busy, now - w)), true)
  }

  const NEW: State := State(map[], map[])

  function RunMemory(w: nat, ops: seq<Timed>): State {
    if ops == [] then NEW
    else
      var last := ops[|ops| - 1];
      Step(w, RunMemory(w, ops[..|ops| - 1]), last.op, last.at).0
  }

  function MemoryAnswers(w: nat, ops: seq<Timed>): seq<bool> {
    if ops == [] then []
    else
      var before, last := ops[..|ops| - 1], ops[|ops| - 1];
      MemoryAnswers(w, before) + [Step(w, RunMemory(w, before), last.op, last.at).1]
  }

  // ---- A queue stands for its bucket's history ----

  /** How many times lie after `cutoff`. */
  function CountAfter(q: seq<int>, cutoff: int): nat {
    if q == [] then 0
    else CountAfter(q[..|q| - 1], cutoff) + if q[|q| - 1] > cutoff then 1 else 0
  }

  ghost predicate Sorted(q: seq<int>) {
    forall i, j :: 0 <= i < j < |q| ==> q[i] <= q[j]
  }

  ghost predicate SortedEntries(q: seq<Entry>) {
    forall i, j :: 0 <= i < j < |q| ==> q[i].at <= q[j].at
  }

  /** The queue and the history agree on everything after `from`. */
  ghost predicate TimesStandFor(q: seq<int>, h: seq<Entry>, from: int, clock: int) {
    && Sorted(q) && |q| < TWO_32
    && (forall i :: 0 <= i < |q| ==> q[i] <= clock)
    && (forall c :: c >= from ==> CountAfter(q, c) == SumAfter(h, c))
  }

  ghost predicate EntriesStandFor(q: seq<Entry>, h: seq<Entry>, from: int, clock: int) {
    && SortedEntries(q)
    && (forall i :: 0 <= i < |q| ==> q[i].at <= clock)
    && (forall c :: c >= from ==> SumAfter(q, c) == SumAfter(h, c))
  }

  lemma {:induction false} CountAfterDrop(q: seq<int>, c: int)
    requires q != []
    ensures CountAfter(q, c) == CountAfter(q[1..], c) + if q[0] > c then 1 else 0
  {
    if |q| > 1 {
      CountAfterDrop(q[..|q| - 1], c);
      assert q[..|q| - 1][1..] == q[1..][..|q| - 2];
    }
  }

  lemma {:induction false} SumAfterDrop(q: seq<Entry>, c: int)
    requires q != []
    ensures SumAfter(q, c) == SumAfter(q[1..], c) + if q[0].at > c then q[0].n else 0
  {
    if |q| > 1 {
      SumAfterDrop(q[..|q| - 1], c);
      assert q[..|q| - 1][1..] == q[1..][..|q| - 2];
    }
  }

  lemma {:induction false} AllCounted(q: seq<int>, c: int)
    requires forall i :: 0 <= i < |q| ==> q[i] > c
    ensures CountAfter(q, c) == |q|
  {
    if q != [] {
      AllCounted(q[..|q| - 1], c);
    }
  }

  lemma {:induction false} AllSummed(q: seq<Entry>, c: int)
    requires forall i :: 0 <= i < |q| ==> q[i].at > c
    ensures SumAfter(q, c) == Total(q)
  {
    if q != [] {
      AllSummed(q[..|q| - 1], c);
    }
  }

  /** Evicting a sorted queue keeps what lies after the cutoff and nothing else. */
  lemma {:induction false} EvictTimesKeepsTail(q: seq<int>, cutoff: int, clock: int)
    requires Sorted(q) && forall i :: 0 <= i < |q| ==> q[i] <= clock
    ensures var r := EvictTimes(q, cutoff);
            && Sorted(r) && |r| <= |q| && (forall i :: 0 <= i < |r| ==> cutoff < r[i] <= clock)
            && |r| == CountAfter(q, cutoff)
            && forall c :: c >= cutoff ==> CountAfter(r, c) == CountAfter(q, c)
  {
    if q != [] && q[0] <= cutoff {
      EvictTimesKeepsTail(q[1..], cutoff, clock);
      forall c | c >= cutoff
        ensures CountAfter(q, c) == CountAfter(q[1..], c)
      {
        CountAfterDrop(q, c);
      }
    } else {
      AllCounted(q, cutoff);
    }
  }

  lemma {:induction false} EvictEntriesKeepsTail(q: seq<Entry>, cutoff: int, clock: int)
    requires SortedEntries(q) && forall i :: 0 <= i < |q| ==> q[i].at <= clock
    ensures var r := EvictEntries(q, cutoff);
            && SortedEntries(r) && (forall i :: 0 <= i < |r| ==> cutoff < r[i].at <= clock)
            && Total(r) == SumAfter(q, cutoff)
            && forall c :: c >= cutoff ==> SumAfter(r, c) == SumAfter(q, c)
  {
    if q != [] && q[0].at <= cutoff {
      EvictEntriesKeepsTail(q[1..], cutoff, clock);
      forall c | c >= cutoff
        ensures SumAfter(q, c) == SumAfter(q[1..], c)
      {
        SumAfterDrop(q, c);
      }
    } else {
      AllSummed(q, cutoff);
    }
  }

  lemma TimesEvicted(q: seq<int>, h: seq<Entry>, w: nat, was: int, now: int)
    requires TimesStandFor(q, h, was - w, was) && was <= now
    ensures TimesStandFor(EvictTimes(q, now - w), h, now - w, now)
    ensures |EvictTimes(q, now - w)| == SumAfter(h, now - w)
  {
    EvictTimesKeepsTail(q, now - w, was);
  }

  lemma EntriesEvicted(q: seq<Entry>, h: seq<Entry>, w: nat, was: int, now: int)
    requires EntriesStandFor(q, h, was - w, was) && was <= now
    ensures EntriesStandFor(EvictEntries(q, now - w), h, now - w, now)
    ensures Total(EvictEntries(q, now - w)) == SumAfter(h, now - w)
  {
    EvictEntriesKeepsTail(q, now - w, was);
  }

  lemma TimesPushed(q: seq<int>, h: seq<Entry>, from: int, now: int)
    requires TimesStandFor(q, h, from, now) && |q| + 1 < TWO_32
    ensures TimesStandFor(q + [now], h + [Entry(now, 1)], from, now)
  {
    forall c | c >= from
      ensures CountAfter(q + [now], c) == SumAfter(h + [Entry(now, 1)], c)
    {
      assert (q + [now])[..|q|] == q;
      SumAfterSnoc(h, Entry(now, 1), c);
    }
  }

  lemma EntriesPushed(q: seq<Entry>, h: seq<Entry>, from: int, e: Entry)
    requires EntriesStandFor(q, h, from, e.at)
    ensures EntriesStandFor(q + [e], h + [e], from, e.at)
  {
    forall c | c >= from
      ensures SumAfter(q + [e], c) == SumAfter(h + [e], c)
    {
      SumAfterSnoc(q, e, c);
      SumAfterSnoc(h, e, c);
    }
  }

  /** Every queue stands for its bucket's history. */
  ghost predicate StandsFor(w: nat, s: State, l: Ledger, clock: int) {
    && (forall k :: TimesStandFor(Of(s.rpm, k), Of(l.rpm, k), clock - w, clock))
    && (forall k :: EntriesStandFor(Of(s.tpm, k), Of(l.tpm, k), clock - w, clock))
  }

  lemma TimePasses(w: nat, s: State, l: Ledger, was: int, now: int)
    requires StandsFor(w, s, l, was) && was <= now
    ensures StandsFor(w, s, l, now)
  {
  }

  /** Changing one bucket's queue together with its history. */
  lemma StandsForChangedRpm(w: nat, s: State, l: Ledger, now: int, k: Key, q: seq<int>, h: seq<Entry>)
    requires StandsFor(w, s, l, now) && TimesStandFor(q, h, now - w, now)
    ensures StandsFor(w, s.(rpm := s.rpm[k := q]), l.(rpm := l.rpm[k := h]), now)
    ensures h == Of(l.rpm, k) ==> StandsFor(w, s.(rpm := s.rpm[k := q]), l, now)
  {
    hide TimesStandFor, EntriesStandFor;
    forall j
      ensures TimesStandFor(Of(s.rpm[k := q], j), Of(l.rpm[k := h], j), now - w, now)
      ensures TimesStandFor(Of(s.rpm[k := q], j), if j == k then h else Of(l.rpm, j), now - w, now)
      ensures EntriesStandFor(Of(s.tpm, j), Of(l.tpm, j), now - w, now)
    {
      assert TimesStandFor(Of(s.rpm, j), Of(l.rpm, j), now - w, now);
    }
  }

  lemma StandsForChangedTpm(w: nat, s: State, l: Ledger, now: int, k: Key, q: seq<Entry>, h: seq<Entry>)
    requires StandsFor(w, s, l, now) && EntriesStandFor(q, h, now - w, now)
    ensures StandsFor(w, s.(tpm := s.tpm[k := q]), l.(tpm := l.tpm[k := h]), now)
    ensures h == Of(l.tpm, k) ==> StandsFor(w, s.(tpm := s.tpm[k := q]), l, now)
  {
    hide TimesStandFor, EntriesStandFor;
    var t, n := s.(tpm := s.tpm[k := q]), l.(tpm := l.tpm[k := h]);
    forall j
      ensures TimesStandFor(Of(t.rpm, j), Of(n.rpm, j), now - w, now)
      ensures EntriesStandFor(Of(t.tpm, j), Of(n.tpm, j), now - w, now)
      ensures h == Of(l.tpm, k) ==> EntriesStandFor(Of(t.tpm, j), Of(l.tpm, j), now - w, now)
    {
      assert TimesStandFor(Of(s.rpm, j), Of(l.rpm, j), now - w, now);
      assert EntriesStandFor(Of(s.tpm, j), Of(l.tpm, j), now - w, now);
    }
    assert StandsFor(w, t, n, now);
  }

  lemma RpmStep(w: nat, s: State, l: Ledger, k: Key, limit: U32, was: int, now: int)
    requires StandsFor(w, s, l, was) && was <= now && LedgerOrdered(l, was)
    ensures var (t, allow) := Step(w, s, CheckRpm(k, limit), now);
            && allow == Allows(w, l, CheckRpm(k, limit), now)
            && StandsFor(w, t, After(w, l, CheckRpm(k, limit), now), now)
  {
    hide TimesStandFor, EntriesStandFor, EvictTimes, SumAfter, WindowSum;
    var q, h := Of(s.rpm, k), Of(l.rpm, k);
    var evicted := EvictTimes(q, now - w);
    TimesEvicted(q, h, w, was, now);
    assert Ordered(h, was);
    WindowIsTail(h, now, w);
    LengthIsSmall(evicted, h, now - w, now);
    TimePasses(w, s, l, was, now);
    if |evicted| < limit {
      TimesPushed(evicted, h, now - w, now);
      StandsForChangedRpm(w, s, l, now, k, evicted + [now], h + [Entry(now, 1)]);
    } else {
      StandsForChangedRpm(w, s, l, now, k, evicted, h);
    }
  }

  lemma LengthIsSmall(q: seq<int>, h: seq<Entry>, from: int, clock: int)
    requires TimesStandFor(q, h, from, clock)
    ensures |q| % TWO_32 == |q|
  {
  }

  lemma TpmStep(w: nat, s: State, l: Ledger, k: Key, limit: U32, was: int, now: int)
    requires StandsFor(w, s, l, was) && was <= now && LedgerOrdered(l, was)
    ensures var (t, allow) := Step(w, s, CheckTpm(k, limit), now);
            && allow == Allows(w, l, CheckTpm(k, limit), now)
            && StandsFor(w, t, l, now)
  {
    hide TimesStandFor, EntriesStandFor, EvictEntries, SumAfter, WindowSum;
    var q, h := Of(s.tpm, k), Of(l.tpm, k);
    EntriesEvicted(q, h, w, was, now);
    assert Ordered(h, was);
    WindowIsTail(h, now, w);
    TimePasses(w, s, l, was, now);
  }

  lemma RecordStep(w: nat, s: State, l: Ledger, k: Key, tokens: nat, was: int, now: int)
    requires StandsFor(w, s, l, was) && was <= now
    ensures StandsFor(w, Step(w, s, Record(k, tokens), now).0, After(w, l, Record(k, tokens), now), now)
  {
    hide TimesStandFor, EntriesStandFor;
    TimePasses(w, s, l, was, now);
    var e := Entry(now, tokens);
    EntriesPushed(Of(s.tpm, k), Of(l.tpm, k), now - w, e);
    StandsForChangedTpm(w, s, l, now, k, Of(s.tpm, k) + [e], Of(l.tpm, k) + [e]);
  }

  lemma CleanupStep(w: nat, s: State, l: Ledger, busy: set<Key>, was: int, now: int)
    requires StandsFor(w, s, l, was) && was <= now
    ensures StandsFor(w, Step(w, s, Cleanup(busy), now).0, l, now)
  {
    hide TimesStandFor, EntriesStandFor, EvictTimes, EvictEntries;
    var t := Step(w, s, Cleanup(busy), now).0;
    TimePasses(w, s, l, was, now);
    forall k
      ensures TimesStandFor(Of(t.rpm, k), Of(l.rpm, k), now - w, now)
      ensures EntriesStandFor(Of(t.tpm, k), Of(l.tpm, k), now - w, now)
    {
      TimesEvicted(Of(s.rpm, k), Of(l.rpm, k), w, was, now);
      EntriesEvicted(Of(s.tpm, k), Of(l.tpm, k), w, was, now);
      NothingToEvict(now - w);
    }
  }

  lemma NothingToEvict(cutoff: int)
    ensures EvictTimes([], cutoff) == [] && EvictEntries([], cutoff) == []
  {
  }

  lemma StepRefines(w: nat, s: State, l: Ledger, op: Op, was: int, now: int)
    requires StandsFor(w, s, l, was) && was <= now && LedgerOrdered(l, was)
    ensures Step(w, s, op, now).1 == Allows(w, l, op, now)
    ensures StandsFor(w, Step(w, s, op, now).0, After(w, l, op, now), now)
  {
    hide StandsFor, LedgerOrdered;
    match op {
      case CheckRpm(k, limit) => RpmStep(w, s, l, k, limit, was, now);
      case CheckTpm(k, limit) => TpmStep(w, s, l, k, limit, was, now);
      case Record(k, tokens) => RecordStep(w, s, l, k, tokens, was, now);
      case Cleanup(busy) => CleanupStep(w, s, l, busy, was, now);
    }
  }

  /** The evicting queues answer every run of operations like the full histories. */
  lemma {:induction false} MemoryRefinesReference(w: nat, ops: seq<Timed>, upTo: int)
    requires Clocked(ops, upTo)
    ensures MemoryAnswers(w, ops) == Answers(w, ops)
    ensures StandsFor(w, RunMemory(w, ops), Run(w, ops), upTo)
  {
    hide StandsFor, Step, After, Allows, Clocked;
    if ops == [] {
      NewStandsForEmpty(w, upTo);
    } else {
      var before, last := ops[..|ops| - 1], ops[|ops| - 1];
      ClockedPrefix(ops, upTo);
      MemoryRefinesReference(w, before, last.at);
      RunIsOrdered(w, before, last.at);
      StepRefines(w, RunMemory(w, before), Run(w, before), last.op, last.at, last.at);
      TimePasses(w, RunMemory(w, ops), Run(w, ops), last.at, upTo);
    }
  }

  lemma NewStandsForEmpty(w: nat, clock: int)
    ensures StandsFor(w, NEW, EMPTY, clock)
  {
  }

  // ---- Cleanup is invisible ----

  lemma {:induction false} CleanupKeepsLedger(w: nat, a: seq<Timed>, b: seq<Timed>, busy: set<Key>, at: int)
    ensures Run(w, a + [Timed(Cleanup(busy), at)] + b) == Run(w, a + b)
  {
    hide Allows, After;
    var c := Timed(Cleanup(busy), at);
    if b == [] {
      assert a + [c] + b == a + [c] && a + b == a && (a + [c])[..|a|] == a;
      CleanupAllowed(w, Run(w, a), busy, at);
    } else {
      var front, last := b[..|b| - 1], b[|b| - 1];
      CleanupKeepsLedger(w, a, front, busy, at);
      var long, short := a + [c] + b, a + b;
      assert long[..|long| - 1] == a + [c] + front && long[|long| - 1] == last;
      assert short[..|short| - 1] == a + front && short[|short| - 1] == last;
    }
  }

  lemma {:induction false} CleanupKeepsAnswers(w: nat, a: seq<Timed>, b: seq<Timed>, busy: set<Key>, at: int)
    ensures |Answers(w, a + b)| == |a + b| && Answers(w, a + b)[..|a|] == Answers(w, a)
    ensures Answers(w, a + [Timed(Cleanup(busy), at)] + b)
         == Answers(w, a) + [true] + Answers(w, a + b)[|a|..]
  {
    hide Allows, Run, Answers;
    var c := Timed(Cleanup(busy), at);
    AnswersLength(w, a);
    AnswersLength(w, a + b);
    if b == [] {
      assert a + [c] + b == a + [c] && a + b == a;
      AnswersSnoc(w, a, c);
      CleanupAllowed(w, Run(w, a), busy, at);
    } else {
      var front, last := b[..|b| - 1], b[|b| - 1];
      CleanupKeepsAnswers(w, a, front, busy, at);
      CleanupKeepsLedger(w, a, front, busy, at);
      AnswersSnoc(w, a + [c] + front, last);
      AnswersSnoc(w, a + front, last);
      assert a + [c] + front + [last] == a + [c] + b && a + front + [last] == a + b;
    }
  }

  lemma AnswersSnoc(w: nat, ops: seq<Timed>, op: Timed)
    ensures Answers(w, ops + [op]) == Answers(w, ops) + [Allows(w, Run(w, ops), op.op, op.at)]
  {
    assert (ops + [op])[..|ops|] == ops;
  }

  lemma CleanupAllowed(w: nat, l: Ledger, busy: set<Key>, at: int)
    ensures Allows(w, l, Cleanup(busy), at) && After(w, l, Cleanup(busy), at) == l
  {
  }

  lemma {:induction false} AnswersLength(w: nat, ops: seq<Timed>)
    ensures |Answers(w, ops)| == |ops|
  {
    if ops != [] {
      AnswersLength(w, ops[..|ops| - 1]);
    }
  }

  /** A cleanup slipped in anywhere, skipping any busy buckets, changes no other answer. */
  lemma CleanupChangesNoAnswer(w: nat, a: seq<Timed>, b: seq<Timed>, busy: set<Key>, at: int, upTo: int)
    requires Clocked(a + [Timed(Cleanup(busy), at)] + b, upTo)
    ensures |MemoryAnswers(w, a + b)| == |a| + |b|
    ensures MemoryAnswers(w, a + [Timed(Cleanup(busy), at)] + b)
         == MemoryAnswers(w, a + b)[..|a|] + [true] + MemoryAnswers(w, a + b)[|a|..]
  {
    hide MemoryAnswers, Answers, Run, RunMemory, StandsFor;
    var all := a + [Timed(Cleanup(busy), at)] + b;
    forall i | 0 <= i < |a + b|
      ensures (a + b)[i] == all[if i < |a| then i else i + 1]
    {
    }
    MemoryRefinesReference(w, all, upTo);
    MemoryRefinesReference(w, a + b, upTo);
    CleanupKeepsAnswers(w, a, b, busy, at);
  }

  /**
   What a cleanup leaves: of a bucket that is not busy, a queue exactly if its window still holds
   something, and in it nothing older than the window; busy buckets as they were.
   */
  lemma CleanupLeavesTheLive(w: nat, s: State, l: Ledger, busy: set<Key>, was: int, now: int, k: Key)
    requires StandsFor(w, s, l, was) && was <= now
    ensures var t := Step(w, s, Cleanup(busy), now).0;
            && (k in busy ==> (k in t.rpm <==> k in s.rpm) && (k in t.tpm <==> k in s.tpm))
            && (k in busy ==> Of(t.rpm, k) == Of(s.rpm, k) && Of(t.tpm, k) == Of(s.tpm, k))
            && (k !in busy ==> (k in t.rpm <==> SumAfter(Of(l.rpm, k), now - w) > 0))
            && (k !in busy ==> forall i :: 0 <= i < |Of(t.rpm, k)| ==> now - w < Of(t.rpm, k)[i] <= was)
            && (k !in busy ==> (k in t.tpm <==> Of(t.tpm, k) != []))
            && (k !in busy ==> forall i :: 0 <= i < |Of(t.tpm, k)| ==> now - w < Of(t.tpm, k)[i].at <= was)
            && (k !in busy ==> Total(Of(t.tpm, k)) == SumAfter(Of(l.tpm, k), now - w))
  {
    hide SumAfter, EvictTimes, EvictEntries, CountAfter;
    NothingToEvict(now - w);
    TimesEvicted(Of(s.rpm, k), Of(l.rpm, k), w, was, now);
    EntriesEvicted(Of(s.tpm, k), Of(l.tpm, k), w, was, now);
    EvictTimesKeepsTail(Of(s.rpm, k), now - w, was);
    EvictEntriesKeepsTail(Of(s.tpm, k), now - w, was);
  }

  // ---- The sweep over all buckets ----

  /** The part of a cleaned map that concerns the buckets in `done`. */
  ghost predicate CleanedSoFar<T>(all: map<Key, seq<T>>, r: map<Key, seq<T>>, done: set<Key>) {
    forall k :: (k in r <==> k in all && k in done) && (k in r ==> r[k] == all[k])
  }

  method SweepTimes(m: map<Key, seq<int>>, busy: set<Key>, cutoff: int) returns (r: map<Key, seq<int>>)
    ensures r == CleanedTimes(m, busy, cutoff)
  {
    ghost var all := CleanedTimes(m, busy, cutoff);
    r := map[];
    var todo := m.Keys;
    while todo != {}
      invariant todo <= m.Keys && CleanedSoFar(all, r, m.Keys - todo)
      decreases |todo|
    {
      var k :| k in todo;
      var queue := m[k];
      if k !in busy {
        while |queue| > 0 && queue[0] <= cutoff
          invariant EvictTimes(queue, cutoff) == EvictTimes(m[k], cutoff)
          decreases |queue|
        {
          queue := queue[1..];
        }
      }
      if k in busy || |queue| > 0 {
        r := r[k := queue];
      }
      todo := todo - {k};
    }
  }

  method SweepEntries(m: map<Key, seq<Entry>>, busy: set<Key>, cutoff: int) returns (r: map<Key, seq<Entry>>)
    ensures r == CleanedEntries(m, busy, cutoff)
  {
    ghost var all := CleanedEntries(m, busy, cutoff);
    r := map[];
    var todo := m.Keys;
    while todo != {}
      invariant todo <= m.Keys && CleanedSoFar(all, r, m.Keys - todo)
      decreases |todo|
    {
      var k :| k in todo;
      var queue := m[k];
      if k !in busy {
        while |queue| > 0 && queue[0].at <= cutoff
          invariant EvictEntries(queue, cutoff) == EvictEntries(m[k], cutoff)
          decreases |queue|
        {
          queue := queue[1..];
        }
      }
      if k in busy || |queue| > 0 {
        r := r[k := queue];
      }
      todo := todo - {k};
    }
  }

  // ---- The limiter as an object ----

  datatype Decision = Allow | Denied(retryAfterSecs: nat)

  class MemoryRateLimiter {
    const window: nat
    var rpmWindows: map<Key, seq<int>>
    var tpmWindows: map<Key, seq<Entry>>
    ghost var ledger: Ledger
    ghost var clock: int

    function View(): State
      reads this
    {
      State(rpmWindows, tpmWindows)
    }

    /** The queues stand for everything counted up to `clock`. */
    ghost predicate Valid()
      reads this
    {
      StandsFor(window, View(), ledger, clock) && LedgerOrdered(ledger, clock)
    }

    constructor (windowSecs: nat, now: int)
      ensures Valid() && window == windowSecs * 1000 && ledger == EMPTY && clock == now
    {
      window := windowSecs * 1000;
      rpmWindows, tpmWindows := map[], map[];
      ledger, clock := EMPTY, now;
      new;
      NewStandsForEmpty(window, now);
      EmptyIsOrdered(now);
    }

    ghost method Advance(op: Op, was: State, now: int)
      requires clock <= now && LedgerOrdered(ledger, clock) && StandsFor(window, was, ledger, clock)
      requires View() == Step(window, was, op, now).0
      modifies this`ledger, this`clock
      ensures Valid() && clock == now && ledger == After(window, old(ledger), op, now)
      ensures Step(window, was, op, now).1 == Allows(window, old(ledger), op, now)
    {
      hide StandsFor, LedgerOrdered, Step, After, Allows;
      StepRefines(window, was, ledger, op, clock, now);
      AfterKeepsOrder(window, ledger, op, clock, now);
      ledger, clock := After(window, ledger, op, now), now;
    }

    /** Allows, and counts the request, exactly when the window holds fewer than `limit`. */
    method CheckRequest(key: Key, limit: U32, now: int) returns (d: Decision)
      requires Valid() && clock <= now
      modifies this
      ensures Valid() && clock == now && ledger == After(window, old(ledger), CheckRpm(key, limit), now)
      ensures d.Allow? <==> WindowSum(Of(old(ledger).rpm, key), now, window) < limit
      ensures d.Denied? ==> d.retryAfterSecs == window / 1000
    {
      hide StandsFor, LedgerOrdered;
      ghost var was := View();
      var queue := Of(rpmWindows, key);
      var cutoff := now - window;
      while |queue| > 0 && queue[0] <= cutoff
        invariant EvictTimes(queue, cutoff) == EvictTimes(Of(was.rpm, key), cutoff)
        decreases |queue|
      {
        queue := queue[1..];
      }
      if |queue| % TWO_32 >= limit {
        rpmWindows := rpmWindows[key := queue];
        d := Denied(window / 1000);
      } else {
        rpmWindows := rpmWindows[key := queue + [now]];
        d := Allow;
      }
      Advance(CheckRpm(key, limit), was, now);
    }

    /** Allows exactly when the window holds fewer than `limit` tokens; counts nothing. */
    method CheckTokens(key: Key, limit: U32, now: int) returns (d: Decision)
      requires Valid() && clock <= now
      modifies this
      ensures Valid() && clock == now && ledger == old(ledger)
      ensures d.Allow? <==> WindowSum(Of(old(ledger).tpm, key), now, window) < limit
      ensures d.Denied? ==> d.retryAfterSecs == window / 1000
    {
      hide StandsFor, LedgerOrdered;
      ghost var was := View();
      var queue := Of(tpmWindows, key);
      var cutoff := now - window;
      while |queue| > 0 && queue[0].at <= cutoff
        invariant EvictEntries(queue, cutoff) == EvictEntries(Of(was.tpm, key), cutoff)
        decreases |queue|
      {
        queue := queue[1..];
      }
      var total := 0;
      for i := 0 to |queue|
        invariant total == Total(queue[..i])
      {
        assert queue[..i + 1][..i] == queue[..i];
        total := total + queue[i].n;
      }
      assert queue[..|queue|] == queue;
      tpmWindows := tpmWindows[key := queue];
      d := if total >= limit then Denied(window / 1000) else Allow;
      Advance(CheckTpm(key, limit), was, now);
    }

    method RecordTokens(key: Key, tokens: nat, now: int)
      requires Valid() && clock <= now
      modifies this
      ensures Valid() && clock == now && ledger == After(window, old(ledger), Record(key, tokens), now)
    {
      hide StandsFor, LedgerOrdered;
      ghost var was := View();
      if tokens != 0 {
        tpmWindows := tpmWindows[key := Of(tpmWindows, key) + [Entry(now, tokens)]];
      }
      Advance(Record(key, tokens), was, now);
    }

    /** Evicts every queue that is not busy and drops the empty ones; no history changes. */
    method CleanupStale(busy: set<Key>, now: int)
      requires Valid() && clock <= now
      modifies this
      ensures Valid() && clock == now && ledger == old(ledger)
    {
      hide StandsFor, LedgerOrdered, EvictTimes, EvictEntries;
      ghost var was := View();
      var cutoff := now - window;
      var rpm := SweepTimes(rpmWindows, busy, cutoff);
      var tpm := SweepEntries(tpmWindows, busy, cutoff);
      rpmWindows, tpmWindows := rpm, tpm;
      Advance(Cleanup(busy), was, now);
    }
  }
}
