/**
 The Redis limiter of server/src/rate_limit_redis.rs: its three scripts on sorted sets with
 expiry. A script is atomic; the server's clock is the caller's. A token member is
 `id:tokens`; ids contain no colon and are never reused.
 */
module RedisLimiter {
  import opened Decimals
  import opened Windows
  import MemoryLimiter

  datatype Member = Member(score: int, name: string)

  /** A stored key: never empty; gone once the clock reaches `expireAt`. */
  datatype Zset = Zset(members: seq<Member>, expireAt: int)

  datatype State = State(rpm: map<Key, Zset>, tpm: map<Key, Zset>)

  const NEW: State := State(map[], map[])

  // ---- Commands ----

  function Members(m: map<Key, Zset>, k: Key, now: int): seq<Member> {
    if k in m && now < m[k].expireAt then m[k].members else []
  }

  /** ZREMRANGEBYSCORE key 0 max. */
  function RemRange(z: seq<Member>, max: int): seq<Member> {
    if z == [] then []
    else
      var rest := RemRange(z[..|z| - 1], max);
      if 0 <= z[|z| - 1].score <= max then rest else rest + [z[|z| - 1]]
  }

  /** Names in the order Redis breaks ties by. */
  predicate NameLess(a: string, b: string) {
    b != [] && (a == [] || a[0] < b[0] || (a[0] == b[0] && NameLess(a[1..], b[1..])))
  }

  predicate Less(a: Member, b: Member) {
    a.score < b.score || (a.score == b.score && NameLess(a.name, b.name))
  }

  function Without(z: seq<Member>, name: string): seq<Member> {
    if z == [] then []
    else
      var rest := Without(z[..|z| - 1], name);
      if z[|z| - 1].name == name then rest else rest + [z[|z| - 1]]
  }

  function Insert(z: seq<Member>, e: Member): seq<Member> {
    if z == [] || Less(z[|z| - 1], e) then z + [e]
    else Insert(z[..|z| - 1], e) + [z[|z| - 1]]
  }

  /** ZADD key score name: a new score for a known name. */
  function ZAdd(z: seq<Member>, e: Member): seq<Member> {
    Insert(Without(z, e.name), e)
  }

  /** The key after its members changed; an empty set is no key. */
  function Store(m: map<Key, Zset>, k: Key, z: seq<Member>): map<Key, Zset> {
    if z == [] then m - {k} else m[k := Zset(z, if k in m then m[k].expireAt else 0)]
  }

  /** ZADD and PEXPIRE key (window + 1000). */
  function Put(m: map<Key, Zset>, k: Key, z: seq<Member>, e: Member, now: int, w: nat): map<Key, Zset> {
    m[k := Zset(ZAdd(z, e), now + w + 1000)]
  }

  function TokenName(id: string, tokens: nat): string {
    id + ":" + Decimal(tokens)
  }

  /** What follows the first colon, as a number. */
  function TokensOf(name: string): nat {
    if name == [] then 0 else if name[0] == ':' then Parse(name[1..]) else TokensOf(name[1..])
  }

  function Sum(z: seq<Member>): nat {
    if z == [] then 0 else Sum(z[..|z| - 1]) + TokensOf(z[|z| - 1].name)
  }

  // ---- Scripts ----

  /** The state after an operation whose new member, if any, is called `id`, and whether it allows. */
  function Step(w: nat, s: State, op: Op, now: int, id: string): (State, bool) {
    match op
    case CheckRpm(k, limit) =>
      var z := RemRange(Members(s.rpm, k, now), now - w);
      if |z| >= limit then (s.(rpm := Store(s.rpm, k, z)), false)
      else (s.(rpm := Put(s.rpm, k, z, Member(now, id), now, w)), true)
    case CheckTpm(k, limit) =>
      var z := RemRange(Members(s.tpm, k, now), now - w);
      (s.(tpm := Store(s.tpm, k, z)), Sum(z) < limit)
    case Record(k, tokens) =>
      (if tokens == 0 then s
       else s.(tpm := Put(s.tpm, k, Members(s.tpm, k, now), Member(now, TokenName(id, tokens)), now, w)), true)
    case Cleanup(_) => (s, true)
  }

  type Ids = nat -> string

  function RunRedis(w: nat, ops: seq<Timed>, ids: Ids): State {
    if ops == [] then NEW
    else
      var n := |ops| - 1;
      Step(w, RunRedis(w, ops[..n], ids), ops[n].op, ops[n].at, ids(n)).0
  }

  function RedisAnswers(w: nat, ops: seq<Timed>, ids: Ids): seq<bool> {
    if ops == [] then []
    else
      var n := |ops| - 1;
      RedisAnswers(w, ops[..n], ids) + [Step(w, RunRedis(w, ops[..n], ids), ops[n].op, ops[n].at, ids(n)).1]
  }

  // ---- A sorted set stands for its bucket's history ----

  /** What a member counts: one request, or the tokens in its name. */
  function Worth(e: Member, tokens: bool): nat {
    if tokens then TokensOf(e.name) else 1
  }

  function WorthAfter(z: seq<Member>, cutoff: int, tokens: bool): nat {
    if z == [] then 0
    else
      var e := z[|z| - 1];
      WorthAfter(z[..|z| - 1], cutoff, tokens) + if e.score > cutoff then Worth(e, tokens) else 0
  }

  lemma {:induction false} RemRangeKeepsTail(z: seq<Member>, max: int, c: int, tokens: bool)
    requires forall i :: 0 <= i < |z| ==> z[i].score >= 0
    requires c >= max
    ensures WorthAfter(RemRange(z, max), c, tokens) == WorthAfter(z, c, tokens)
    ensures forall e :: e in RemRange(z, max) ==> e in z && e.score > max
  {
    if z != [] {
      var rest := RemRange(z[..|z| - 1], max);
      RemRangeKeepsTail(z[..|z| - 1], max, c, tokens);
      assert (rest + [z[|z| - 1]])[..|rest|] == rest;
    }
  }

  lemma {:induction false} AllCounted(z: seq<Member>, c: int)
    requires forall e :: e in z ==> e.score > c
    ensures WorthAfter(z, c, false) == |z| && WorthAfter(z, c, true) == Sum(z)
  {
    if z != [] {
      assert z[|z| - 1] in z;
      assert forall e :: e in z[..|z| - 1] ==> e in z;
      AllCounted(z[..|z| - 1], c);
    }
  }

  lemma {:induction false} NoneCounted(z: seq<Member>, c: int, tokens: bool)
    requires forall e :: e in z ==> e.score <= c
    ensures WorthAfter(z, c, tokens) == 0
  {
    if z != [] {
      assert z[|z| - 1] in z;
      assert forall e :: e in z[..|z| - 1] ==> e in z;
      NoneCounted(z[..|z| - 1], c, tokens);
    }
  }

  lemma {:induction false} WithoutUnknown(z: seq<Member>, name: string)
    requires forall e :: e in z ==> e.name != name
    ensures Without(z, name) == z
  {
    if z != [] {
      assert z[|z| - 1] in z;
      assert forall e :: e in z[..|z| - 1] ==> e in z;
      WithoutUnknown(z[..|z| - 1], name);
    }
  }

  lemma WorthAfterSnoc(z: seq<Member>, e: Member, c: int, tokens: bool)
    ensures WorthAfter(z + [e], c, tokens) == WorthAfter(z, c, tokens) + if e.score > c then Worth(e, tokens) else 0
  {
    assert (z + [e])[..|z|] == z;
  }

  lemma {:induction false} InsertCounts(z: seq<Member>, e: Member, c: int, tokens: bool)
    ensures WorthAfter(Insert(z, e), c, tokens) ==
            WorthAfter(z, c, tokens) + if e.score > c then Worth(e, tokens) else 0
    ensures forall x :: x in Insert(z, e) <==> x == e || x in z
  {
    hide WorthAfter, Worth, Less;
    if z == [] || Less(z[|z| - 1], e) {
      WorthAfterSnoc(z, e, c, tokens);
    } else {
      var front, last := z[..|z| - 1], z[|z| - 1];
      InsertCounts(front, e, c, tokens);
      WorthAfterSnoc(Insert(front, e), last, c, tokens);
      WorthAfterSnoc(front, last, c, tokens);
      assert z == front + [last];
    }
  }

  lemma {:induction false} TokensOfTokenName(id: string, tokens: nat)
    requires ':' !in id
    ensures TokensOf(TokenName(id, tokens)) == tokens
  {
    var name := TokenName(id, tokens);
    if id == [] {
      assert name[1..] == Decimal(tokens);
      ParseDecimal(tokens);
    } else {
      assert name[0] == id[0] && id[0] in id;
      assert name[1..] == TokenName(id[1..], tokens);
      assert forall c :: c in id[1..] ==> c in id;
      TokensOfTokenName(id[1..], tokens);
    }
  }

  /** Names that were given out by the first `n` operations. */
  ghost predicate Given(name: string, ids: Ids, n: nat, tokens: bool) {
    exists j: nat :: j < n && if tokens then exists t: nat :: name == TokenName(ids(j), t) else name == ids(j)
  }

  ghost predicate GoodIds(ids: Ids) {
    && (forall j: nat :: ':' !in ids(j))
    && (forall i: nat, j: nat :: i != j ==> ids(i) != ids(j))
  }

  /**
   The stored members and the history agree on everything after clock - w, and every member
   outlives its window: it expires later than score + w.
   */
  ghost predicate Backs(z: Zset, h: seq<Entry>, w: nat, clock: int, ids: Ids, n: nat, tokens: bool) {
    && (forall e :: e in z.members ==> 0 <= e.score <= clock && e.score + w + 1000 <= z.expireAt)
    && (forall e :: e in z.members ==> Given(e.name, ids, n, tokens))
    && (forall c :: c >= clock - w ==> WorthAfter(z.members, c, tokens) == SumAfter(h, c))
  }

  function Stored(m: map<Key, Zset>, k: Key): Zset {
    if k in m then m[k] else Zset([], 0)
  }

  ghost predicate StandsFor(w: nat, s: State, l: Ledger, clock: int, ids: Ids, n: nat) {
    && (forall k :: Backs(Stored(s.rpm, k), Of(l.rpm, k), w, clock, ids, n, false))
    && (forall k :: Backs(Stored(s.tpm, k), Of(l.tpm, k), w, clock, ids, n, true))
  }

  /** The key expiry never discards a member that is still in the window. */
  lemma ExpiryIsSafe(
      m: map<Key, Zset>, k: Key, h: seq<Entry>, w: nat, was: int, now: int, ids: Ids, n: nat, tokens: bool)
    requires Backs(Stored(m, k), h, w, was, ids, n, tokens) && was <= now
    ensures forall e :: e in Stored(m, k).members && e.score > now - w ==> e in Members(m, k, now)
    ensures forall c :: c >= now - w ==> WorthAfter(Members(m, k, now), c, tokens) == SumAfter(h, c)
    ensures forall e :: e in Members(m, k, now) ==> e in Stored(m, k).members
  {
    hide Given, SumAfter, WorthAfter;
    var z := Stored(m, k);
    forall c | c >= now - w
      ensures WorthAfter(Members(m, k, now), c, tokens) == SumAfter(h, c)
    {
      if Members(m, k, now) != z.members {
        NoneCounted(z.members, c, tokens);
        NoneCounted([], c, tokens);
      }
    }
  }

  /** A bucket that nothing is added to any more is gone for good one second after its window. */
  lemma IdleKeyExpires(m: map<Key, Zset>, k: Key, z: seq<Member>, e: Member, at: int, w: nat, now: int, j: Key)
    requires now >= at + w + 1000
    ensures Members(Put(m, k, z, e, at, w), k, now) == []
    ensures j != k ==> Members(Put(m, k, z, e, at, w), j, now) == Members(m, j, now)
  {
  }

  /** What a check reads: the members in the window, worth what the window holds. */
  lemma ReadWindow(m: map<Key, Zset>, k: Key, h: seq<Entry>, w: nat, was: int, now: int, ids: Ids, n: nat, tokens: bool)
    requires Backs(Stored(m, k), h, w, was, ids, n, tokens) && was <= now
    ensures var z := RemRange(Members(m, k, now), now - w);
            && (forall e :: e in z ==> e in Stored(m, k).members)
            && (forall c :: c >= now - w ==> WorthAfter(z, c, tokens) == SumAfter(h, c))
            && SumAfter(h, now - w) == if tokens then Sum(z) else |z|
  {
    hide Given, SumAfter, WorthAfter, RemRange, Members, Sum;
    ExpiryIsSafe(m, k, h, w, was, now, ids, n, tokens);
    var all := Members(m, k, now);
    var z := RemRange(all, now - w);
    forall c | c >= now - w
      ensures WorthAfter(z, c, tokens) == SumAfter(h, c)
      ensures forall e :: e in z ==> e in all && e.score > now - w
    {
      assert forall i :: 0 <= i < |all| ==> all[i] in all;
      RemRangeKeepsTail(all, now - w, c, tokens);
    }
    assert WorthAfter(z, now - w, tokens) == SumAfter(h, now - w);
    AllCounted(z, now - w);
  }

  /** Adding a fresh member keeps the agreement. */
  lemma PutBacks(z: seq<Member>, was: Zset, e: Member, h: seq<Entry>, w: nat, ids: Ids, n: nat, tokens: bool)
    requires 0 <= e.score && Given(e.name, ids, n + 1, tokens) && !Given(e.name, ids, n, tokens)
    requires forall x :: x in z ==> x in was.members
    requires Backs(was, h, w, e.score, ids, n, tokens)
    requires forall c :: c >= e.score - w ==> WorthAfter(z, c, tokens) == SumAfter(h, c)
    ensures var after, counted := Zset(ZAdd(z, e), e.score + w + 1000), h + [Entry(e.score, Worth(e, tokens))];
            Backs(after, counted, w, e.score, ids, n + 1, tokens)
  {
    hide SumAfter, WorthAfter, Insert, Without, Worth;
    WithoutUnknown(z, e.name);
    var now := ZAdd(z, e);
    InsertCounts(z, e, 0, tokens);
    forall x | x in now
      ensures Given(x.name, ids, n + 1, tokens)
    {
      if x != e {
        GivenLater(x.name, ids, n, tokens);
      }
    }
    forall c | c >= e.score - w
      ensures WorthAfter(now, c, tokens) == SumAfter(h + [Entry(e.score, Worth(e, tokens))], c)
    {
      InsertCounts(z, e, c, tokens);
      SumAfterSnoc(h, Entry(e.score, Worth(e, tokens)), c);
    }
  }

  lemma GivenLater(name: string, ids: Ids, n: nat, tokens: bool)
    requires Given(name, ids, n, tokens)
    ensures Given(name, ids, n + 1, tokens)
  {
  }

  /** What precedes the first colon. */
  function IdOf(name: string): string {
    if name == [] || name[0] == ':' then [] else [name[0]] + IdOf(name[1..])
  }

  lemma {:induction false} IdOfTokenName(id: string, tokens: nat)
    requires ':' !in id
    ensures IdOf(TokenName(id, tokens)) == id
  {
    var name := TokenName(id, tokens);
    if id != [] {
      assert name[0] == id[0] && id[0] in id;
      assert name[1..] == TokenName(id[1..], tokens);
      assert forall c :: c in id[1..] ==> c in id;
      IdOfTokenName(id[1..], tokens);
    }
  }

  lemma FreshName(ids: Ids, n: nat, tokens: nat)
    requires GoodIds(ids)
    ensures !Given(ids(n), ids, n, false) && Given(ids(n), ids, n + 1, false)
    ensures !Given(TokenName(ids(n), tokens), ids, n, true) && Given(TokenName(ids(n), tokens), ids, n + 1, true)
  {
    hide TokenName, IdOf;
    IdOfTokenName(ids(n), tokens);
    forall j: nat, t: nat | j < n
      ensures TokenName(ids(j), t) != TokenName(ids(n), tokens)
    {
      IdOfTokenName(ids(j), t);
    }
  }

  lemma BacksLater(z: Zset, h: seq<Entry>, w: nat, was: int, now: int, ids: Ids, n: nat, m: nat, tokens: bool)
    requires Backs(z, h, w, was, ids, n, tokens) && was <= now && n <= m <= n + 1
    ensures Backs(z, h, w, now, ids, m, tokens)
  {
    hide WorthAfter, SumAfter;
    forall e | e in z.members
      ensures Given(e.name, ids, m, tokens)
    {
      GivenLater(e.name, ids, n, tokens);
    }
  }

  lemma StandsForLater(w: nat, s: State, l: Ledger, was: int, now: int, ids: Ids, n: nat, m: nat)
    requires StandsFor(w, s, l, was, ids, n) && was <= now && n <= m <= n + 1
    ensures StandsFor(w, s, l, now, ids, m)
  {
    hide Backs, Given;
    forall k
      ensures Backs(Stored(s.rpm, k), Of(l.rpm, k), w, now, ids, m, false)
      ensures Backs(Stored(s.tpm, k), Of(l.tpm, k), w, now, ids, m, true)
    {
      BacksLater(Stored(s.rpm, k), Of(l.rpm, k), w, was, now, ids, n, m, false);
      BacksLater(Stored(s.tpm, k), Of(l.tpm, k), w, was, now, ids, n, m, true);
    }
  }

  /** Storing what a check kept. */
  lemma StoreBacks(m: map<Key, Zset>, k: Key, h: seq<Entry>, w: nat, was: int, now: int, ids: Ids, n: nat, tokens: bool)
    requires Backs(Stored(m, k), h, w, was, ids, n, tokens) && was <= now
    ensures Backs(Stored(Store(m, k, RemRange(Members(m, k, now), now - w)), k), h, w, now, ids, n, tokens)
  {
    hide SumAfter, WorthAfter, RemRange, Given;
    ReadWindow(m, k, h, w, was, now, ids, n, tokens);
  }

  /** One bucket changed together with its history. */
  lemma ChangedBucket(w: nat, s: State, t: State, l: Ledger, n: Ledger, now: int, ids: Ids, i: nat, k: Key)
    requires StandsFor(w, s, l, now, ids, i)
    requires forall j :: j != k ==> Stored(t.rpm, j) == Stored(s.rpm, j) && Stored(t.tpm, j) == Stored(s.tpm, j)
    requires forall j :: j != k ==> Of(n.rpm, j) == Of(l.rpm, j) && Of(n.tpm, j) == Of(l.tpm, j)
    requires Backs(Stored(t.rpm, k), Of(n.rpm, k), w, now, ids, i, false)
    requires Backs(Stored(t.tpm, k), Of(n.tpm, k), w, now, ids, i, true)
    ensures StandsFor(w, t, n, now, ids, i)
  {
    hide Backs, Given, Stored, Of;
    forall j
      ensures Backs(Stored(t.rpm, j), Of(n.rpm, j), w, now, ids, i, false)
      ensures Backs(Stored(t.tpm, j), Of(n.tpm, j), w, now, ids, i, true)
    {
      assert Backs(Stored(s.rpm, j), Of(l.rpm, j), w, now, ids, i, false);
      assert Backs(Stored(s.tpm, j), Of(l.tpm, j), w, now, ids, i, true);
    }
  }

  lemma RpmStep(w: nat, s: State, l: Ledger, k: Key, limit: U32, was: int, now: int, ids: Ids, n: nat)
    requires StandsFor(w, s, l, was, ids, n) && was <= now && LedgerOrdered(l, was) && 0 <= now && GoodIds(ids)
    ensures var (t, allow) := Step(w, s, CheckRpm(k, limit), now, ids(n));
            && allow == Allows(w, l, CheckRpm(k, limit), now)
            && StandsFor(w, t, After(w, l, CheckRpm(k, limit), now), now, ids, n + 1)
  {
    hide Backs, Given, GoodIds, RemRange, Members, ZAdd, WindowSum, WorthAfter, SumAfter, TokensOf, StandsFor;
    var h, z := Of(l.rpm, k), RemRange(Members(s.rpm, k, now), now - w);
    StandsForAt(w, s, l, was, ids, n, k);
    ReadWindow(s.rpm, k, h, w, was, now, ids, n, false);
    assert Ordered(h, was);
    WindowIsTail(h, now, w);
    StandsForLater(w, s, l, was, now, ids, n, n + 1);
    StandsForAt(w, s, l, now, ids, n + 1, k);
    var (t, allow) := Step(w, s, CheckRpm(k, limit), now, ids(n));
    if allow {
      FreshName(ids, n, 0);
      BacksLater(Stored(s.rpm, k), h, w, was, now, ids, n, n, false);
      PutBacks(z, Stored(s.rpm, k), Member(now, ids(n)), h, w, ids, n, false);
    } else {
      StoreBacks(s.rpm, k, h, w, was, now, ids, n, false);
      BacksLater(Stored(t.rpm, k), h, w, now, now, ids, n, n + 1, false);
    }
    ChangedBucket(w, s, t, l, After(w, l, CheckRpm(k, limit), now), now, ids, n + 1, k);
  }

  lemma StandsForAt(w: nat, s: State, l: Ledger, clock: int, ids: Ids, n: nat, k: Key)
    requires StandsFor(w, s, l, clock, ids, n)
    ensures Backs(Stored(s.rpm, k), Of(l.rpm, k), w, clock, ids, n, false)
    ensures Backs(Stored(s.tpm, k), Of(l.tpm, k), w, clock, ids, n, true)
  {
  }

  lemma TpmStep(w: nat, s: State, l: Ledger, k: Key, limit: U32, was: int, now: int, ids: Ids, n: nat)
    requires StandsFor(w, s, l, was, ids, n) && was <= now && LedgerOrdered(l, was)
    ensures var (t, allow) := Step(w, s, CheckTpm(k, limit), now, ids(n));
            && allow == Allows(w, l, CheckTpm(k, limit), now)
            && StandsFor(w, t, l, now, ids, n + 1)
  {
    hide Backs, Given, RemRange, Members, ZAdd, WindowSum, WorthAfter, SumAfter, TokensOf, StandsFor, Sum;
    var h := Of(l.tpm, k);
    StandsForAt(w, s, l, was, ids, n, k);
    ReadWindow(s.tpm, k, h, w, was, now, ids, n, true);
    assert Ordered(h, was);
    WindowIsTail(h, now, w);
    StandsForLater(w, s, l, was, now, ids, n, n + 1);
    StandsForAt(w, s, l, now, ids, n + 1, k);
    var t := Step(w, s, CheckTpm(k, limit), now, ids(n)).0;
    StoreBacks(s.tpm, k, h, w, was, now, ids, n, true);
    BacksLater(Stored(t.tpm, k), h, w, now, now, ids, n, n + 1, true);
    ChangedBucket(w, s, t, l, l, now, ids, n + 1, k);
  }

  lemma RecordStep(w: nat, s: State, l: Ledger, k: Key, tokens: nat, was: int, now: int, ids: Ids, n: nat)
    requires StandsFor(w, s, l, was, ids, n) && was <= now && 0 <= now && GoodIds(ids)
    ensures var t := Step(w, s, Record(k, tokens), now, ids(n)).0;
            StandsFor(w, t, After(w, l, Record(k, tokens), now), now, ids, n + 1)
  {
    hide Backs, Given, Members, ZAdd, WorthAfter, SumAfter, StandsFor, TokenName, TokensOf;
    StandsForLater(w, s, l, was, now, ids, n, n + 1);
    if tokens != 0 {
      var h, z := Of(l.tpm, k), Members(s.tpm, k, now);
      StandsForAt(w, s, l, was, ids, n, k);
      StandsForAt(w, s, l, now, ids, n + 1, k);
      ExpiryIsSafe(s.tpm, k, h, w, was, now, ids, n, true);
      FreshName(ids, n, tokens);
      assert ':' !in ids(n);
      TokensOfTokenName(ids(n), tokens);
      BacksLater(Stored(s.tpm, k), h, w, was, now, ids, n, n, true);
      PutBacks(z, Stored(s.tpm, k), Member(now, TokenName(ids(n), tokens)), h, w, ids, n, true);
      var t := Step(w, s, Record(k, tokens), now, ids(n)).0;
      ChangedBucket(w, s, t, l, After(w, l, Record(k, tokens), now), now, ids, n + 1, k);
    }
  }

  lemma StepRefines(w: nat, s: State, l: Ledger, op: Op, was: int, now: int, ids: Ids, n: nat)
    requires StandsFor(w, s, l, was, ids, n) && was <= now && LedgerOrdered(l, was) && 0 <= now && GoodIds(ids)
    ensures Step(w, s, op, now, ids(n)).1 == Allows(w, l, op, now)
    ensures StandsFor(w, Step(w, s, op, now, ids(n)).0, After(w, l, op, now), now, ids, n + 1)
  {
    hide StandsFor, LedgerOrdered, GoodIds;
    match op {
      case CheckRpm(k, limit) => RpmStep(w, s, l, k, limit, was, now, ids, n);
      case CheckTpm(k, limit) => TpmStep(w, s, l, k, limit, was, now, ids, n);
      case Record(k, tokens) => RecordStep(w, s, l, k, tokens, was, now, ids, n);
      case Cleanup(busy) => StandsForLater(w, s, l, was, now, ids, n, n + 1);
    }
  }

  lemma NewStandsForEmpty(w: nat, clock: int, ids: Ids)
    ensures StandsFor(w, NEW, EMPTY, clock, ids, 0)
  {
  }

  /** The scripts answer every run of operations like the full histories. */
  lemma {:induction false} RedisRefinesReference(w: nat, ops: seq<Timed>, upTo: int, ids: Ids)
    requires Clocked(ops, upTo) && GoodIds(ids) && forall i :: 0 <= i < |ops| ==> 0 <= ops[i].at
    ensures RedisAnswers(w, ops, ids) == Answers(w, ops)
    ensures StandsFor(w, RunRedis(w, ops, ids), Run(w, ops), upTo, ids, |ops|)
  {
    hide StandsFor, Step, After, Allows, Clocked, GoodIds;
    if ops == [] {
      NewStandsForEmpty(w, upTo, ids);
    } else {
      var n := |ops| - 1;
      var before, last := ops[..n], ops[n];
      ClockedPrefix(ops, upTo);
      RedisRefinesReference(w, before, last.at, ids);
      RunIsOrdered(w, before, last.at);
      StepRefines(w, RunRedis(w, before, ids), Run(w, before), last.op, last.at, last.at, ids, n);
      StandsForLater(w, RunRedis(w, ops, ids), Run(w, ops), last.at, upTo, ids, |ops|, |ops|);
    }
  }

  /** The two limiters give the same answers to every run of operations on a shared clock. */
  lemma LimitersAgree(w: nat, ops: seq<Timed>, upTo: int, ids: Ids)
    requires Clocked(ops, upTo) && GoodIds(ids) && forall i :: 0 <= i < |ops| ==> 0 <= ops[i].at
    ensures RedisAnswers(w, ops, ids) == MemoryLimiter.MemoryAnswers(w, ops)
  {
    RedisRefinesReference(w, ops, upTo, ids);
    MemoryLimiter.MemoryRefinesReference(w, ops, upTo);
  }
}
