/**
 Upstream groups as values: the bindings of core/src/upstream/node.rs, their availability,
 and the selection that walks the priority tiers.
 */
module Upstreams {
  import opened Options
  import opened CircuitBreakers
  import Decimals
  import Rendezvous
  import Swrr

  datatype RuntimeType = Sglang | Vllm | External
  datatype ApiCompatibility = OpenAi | Anthropic | Native
  datatype Strategy = SmoothRoundRobin | WeightedHash

  datatype Binding = Binding(
    url: string,
    runtime: RuntimeType,
    api: ApiCompatibility,
    enabled: bool,
    healthy: bool,
    priority: nat,
    weight: nat,
    config: Config,
    breaker: Breaker,
    currentWeight: int)

  /** What a request asks of an upstream. */
  datatype Filter = Filter(runtime: Option<RuntimeType>, api: Option<ApiCompatibility>)

  datatype Request = Request(routingKey: Option<string>, filter: Filter, minPriority: nat)

  datatype Group = Group(modelId: string, strategy: Strategy, bindings: seq<Binding>, cursor: nat)

  predicate Matches(b: Binding, f: Filter) {
    && (f.runtime.Some? ==> b.runtime == f.runtime.value)
    && (f.api.Some? ==> b.api == f.api.value)
  }

  /** `is_available` consults the breaker only for an enabled, healthy binding. */
  function Touched(b: Binding, now: nat): Binding {
    if b.enabled && b.healthy then b.(breaker := Refresh(b.config, b.breaker, now)) else b
  }

  predicate Available(b: Binding, now: nat) {
    b.enabled && b.healthy && CanExecuteAt(b.config, b.breaker, now)
  }

  predicate Eligible(b: Binding, f: Filter, now: nat) {
    Available(b, now) && Matches(b, f)
  }

  // ---- Tiers ----

  /** `p` inserted into an ascending list without duplicates. */
  function InsertTier(p: nat, tiers: seq<nat>): seq<nat> {
    if tiers == [] then [p]
    else if p < tiers[0] then [p] + tiers
    else if p == tiers[0] then tiers
    else [tiers[0]] + InsertTier(p, tiers[1..])
  }

  /** The distinct priorities of at least `min`, ascending. */
  function Tiers(bs: seq<Binding>, min: nat): seq<nat> {
    if bs == [] then []
    else
      var rest := Tiers(bs[1..], min);
      if bs[0].priority >= min then InsertTier(bs[0].priority, rest) else rest
  }

  ghost predicate Ascending(tiers: seq<nat>) {
    forall i, j :: 0 <= i < j < |tiers| ==> tiers[i] < tiers[j]
  }

  lemma AscendingCons(first: nat, tiers: seq<nat>)
    requires Ascending(tiers) && forall q :: q in tiers ==> first < q
    ensures Ascending([first] + tiers)
  {
    var all := [first] + tiers;
    forall i, j | 0 <= i < j < |all|
      ensures all[i] < all[j]
    {
      assert all[j] == tiers[j - 1] && tiers[j - 1] in tiers;
      assert i > 0 ==> all[i] == tiers[i - 1];
    }
  }

  lemma {:induction false} InsertTierKeepsOrder(p: nat, tiers: seq<nat>)
    requires Ascending(tiers)
    ensures Ascending(InsertTier(p, tiers))
    ensures forall q :: q in InsertTier(p, tiers) <==> q == p || q in tiers
  {
    if tiers != [] {
      var first, rest := tiers[0], tiers[1..];
      assert tiers == [first] + rest;
      if p > first {
        InsertTierKeepsOrder(p, rest);
        AscendingCons(first, InsertTier(p, rest));
      } else if p < first {
        AscendingCons(p, tiers);
      }
    }
  }

  ghost predicate HasPriority(bs: seq<Binding>, p: nat) {
    exists i :: 0 <= i < |bs| && bs[i].priority == p
  }

  lemma {:induction false} TiersAreThePriorities(bs: seq<Binding>, min: nat)
    ensures Ascending(Tiers(bs, min))
    ensures forall p :: p in Tiers(bs, min) <==> p >= min && HasPriority(bs, p)
  {
    if bs != [] {
      var rest := bs[1..];
      TiersAreThePriorities(rest, min);
      InsertTierKeepsOrder(bs[0].priority, Tiers(rest, min));
      forall p: nat
        ensures HasPriority(bs, p) <==> bs[0].priority == p || HasPriority(rest, p)
      {
        if i :| 0 <= i < |rest| && rest[i].priority == p {
          assert bs[i + 1].priority == p;
        }
        if i :| 0 < i < |bs| && bs[i].priority == p {
          assert rest[i - 1].priority == p;
        }
      }
    }
  }

  lemma HasMember(b: seq<nat>)
    ensures b == [] || exists p :: p in b
  {
    if b != [] {
      assert b[0] in b;
    }
  }

  /** An ascending list is told by its members. */
  lemma {:induction false} AscendingIsUnique(a: seq<nat>, b: seq<nat>)
    requires Ascending(a) && Ascending(b) && forall p :: p in a <==> p in b
    ensures a == b
  {
    HasMember(b);
    if a != [] {
      assert a[0] in b && b[0] in a;
      assert a == [a[0]] + a[1..] && b == [b[0]] + b[1..];
      forall p
        ensures p in a[1..] <==> p in b[1..]
      {
        assert a[0] !in a[1..] && b[0] !in b[1..];
        assert p in a <==> p in b;
      }
      AscendingIsUnique(a[1..], b[1..]);
    }
  }

  /** The tier with every binding's availability checked. */
  function TouchTier(bs: seq<Binding>, tier: nat, now: nat): (r: seq<Binding>)
    ensures |r| == |bs|
    ensures forall i :: 0 <= i < |bs| ==>
              r[i] == if bs[i].priority == tier then Touched(bs[i], now) else bs[i]
  {
    if bs == [] then []
    else
      var b := bs[|bs| - 1];
      TouchTier(bs[..|bs| - 1], tier, now) + [if b.priority == tier then Touched(b, now) else b]
  }

  /** The positions of the tier's eligible bindings among the first `n`, in order. */
  function CandidatesUpTo(bs: seq<Binding>, n: nat, tier: nat, f: Filter, now: nat): (r: seq<nat>)
    requires n <= |bs|
    ensures forall k :: 0 <= k < |r| ==> r[k] < n
    ensures forall i: nat :: i < n ==> (i in r <==> bs[i].priority == tier && Eligible(bs[i], f, now))
    ensures forall j, k :: 0 <= j < k < |r| ==> r[j] < r[k]
  {
    if n == 0 then []
    else
      var before := CandidatesUpTo(bs, n - 1, tier, f, now);
      if bs[n - 1].priority == tier && Eligible(bs[n - 1], f, now) then before + [n - 1] else before
  }

  function Candidates(bs: seq<Binding>, tier: nat, f: Filter, now: nat): (r: seq<nat>)
    ensures forall k :: 0 <= k < |r| ==> r[k] < |bs|
    ensures forall i: nat :: i < |bs| ==> (i in r <==> bs[i].priority == tier && Eligible(bs[i], f, now))
    ensures forall j, k :: 0 <= j < k < |r| ==> r[j] < r[k]
  {
    CandidatesUpTo(bs, |bs|, tier, f, now)
  }

  /** The bindings after the tiers are searched in order, and the first tier's candidates found. */
  function Search(bs: seq<Binding>, tiers: seq<nat>, f: Filter, now: nat): (r: (seq<Binding>, seq<nat>))
    ensures |r.0| == |bs|
    ensures forall k :: 0 <= k < |r.1| ==> r.1[k] < |bs|
    ensures forall j, k :: 0 <= j < k < |r.1| ==> r.1[j] < r.1[k]
    decreases |tiers|
  {
    if tiers == [] then (bs, [])
    else
      var cs := Candidates(bs, tiers[0], f, now);
      var bs := TouchTier(bs, tiers[0], now);
      if cs == [] then Search(bs, tiers[1..], f, now) else (bs, cs)
  }

  // ---- Selection ----

  function Weights(bs: seq<Binding>): (r: seq<nat>)
    ensures |r| == |bs|
    ensures forall i :: 0 <= i < |bs| ==> r[i] == bs[i].weight
  {
    if bs == [] then [] else Weights(bs[..|bs| - 1]) + [bs[|bs| - 1].weight]
  }

  function CurrentWeights(bs: seq<Binding>): (r: seq<int>)
    ensures |r| == |bs|
    ensures forall i :: 0 <= i < |bs| ==> r[i] == bs[i].currentWeight
  {
    if bs == [] then [] else CurrentWeights(bs[..|bs| - 1]) + [bs[|bs| - 1].currentWeight]
  }

  function WithWeights(bs: seq<Binding>, cw: seq<int>): (r: seq<Binding>)
    requires |cw| == |bs|
    ensures |r| == |bs|
    ensures forall i :: 0 <= i < |bs| ==> r[i] == bs[i].(currentWeight := cw[i])
  {
    if bs == [] then []
    else
      var n := |bs| - 1;
      WithWeights(bs[..n], cw[..n]) + [bs[n].(currentWeight := cw[n])]
  }

  function HashCandidates(bs: seq<Binding>, cs: seq<nat>): (r: seq<Rendezvous.Candidate>)
    requires forall k :: 0 <= k < |cs| ==> cs[k] < |bs|
    ensures |r| == |cs|
    ensures forall k :: 0 <= k < |cs| ==> r[k] == Rendezvous.Candidate(bs[cs[k]].url, bs[cs[k]].weight)
  {
    if cs == [] then []
    else
      var b := bs[cs[|cs| - 1]];
      HashCandidates(bs, cs[..|cs| - 1]) + [Rendezvous.Candidate(b.url, b.weight)]
  }

  ghost predicate ValidBindings(bs: seq<Binding>) {
    forall b :: b in bs ==> b.weight > 0
  }

  /** The group and the choice when `cs`, not empty, are the candidates. */
  ghost function Chosen(g: Group, h: Rendezvous.Digest, cs: seq<nat>, r: Request): (res: (Group, Option<nat>))
    requires cs != [] && Swrr.ValidRound(cs, |g.bindings|)
    requires Rendezvous.Weighted(HashCandidates(g.bindings, cs))
    ensures |res.0.bindings| == |g.bindings| && res.0.modelId == g.modelId && res.0.strategy == g.strategy
    ensures res.1.Some? && res.1.value < |g.bindings|
  {
    match g.strategy
    case SmoothRoundRobin =>
      var w, cw := Weights(g.bindings), CurrentWeights(g.bindings);
      (g.(bindings := WithWeights(g.bindings, Swrr.WrapStep(w, cw, cs))), Swrr.WrapPick(w, cw, cs))
    case WeightedHash =>
      var keyed := r.routingKey.Some?;
      var key := Rendezvous.KeyFor(if keyed then r.routingKey.value else "", keyed, g.modelId, g.cursor);
      (g.(cursor := if keyed then g.cursor else g.cursor + 1),
       Some(cs[Rendezvous.Choose(h, key, HashCandidates(g.bindings, cs))]))
  }

  /** The group after a selection at `now`, and the binding selected. */
  ghost function Select(g: Group, h: Rendezvous.Digest, r: Request, now: nat): (res: (Group, Option<nat>))
    requires ValidBindings(g.bindings)
    ensures |res.0.bindings| == |g.bindings| && res.0.modelId == g.modelId && res.0.strategy == g.strategy
    ensures res.1.Some? ==> res.1.value < |g.bindings|
  {
    var tiers := Tiers(g.bindings, r.minPriority);
    var (bs, cs) := Search(g.bindings, tiers, r.filter, now);
    if cs == [] then (g.(bindings := bs), None)
    else
      SearchKeepsStatic(g.bindings, tiers, r.filter, now);
      CandidatesAreWeighted(bs, cs);
      Chosen(g.(bindings := bs), h, cs, r)
  }

  /** The binding once a request sent to it has succeeded or failed. */
  function AfterOutcome(b: Binding, success: bool, now: nat): Binding {
    b.(breaker := if success then RecordSuccess(b.config, b.breaker, now) else RecordFailure(b.config, b.breaker, now))
  }

  /** The group once a request sent to binding `i` has succeeded or failed. */
  function WithOutcome(g: Group, i: nat, success: bool, now: nat): Group
    requires i < |g.bindings|
  {
    g.(bindings := g.bindings[i := AfterOutcome(g.bindings[i], success, now)])
  }

  lemma CandidatesAreWeighted(bs: seq<Binding>, cs: seq<nat>)
    requires ValidBindings(bs) && forall k :: 0 <= k < |cs| ==> cs[k] < |bs|
    ensures Rendezvous.Weighted(HashCandidates(bs, cs))
  {
    forall c | c in HashCandidates(bs, cs)
      ensures c.weight > 0
    {
      var k :| 0 <= k < |cs| && HashCandidates(bs, cs)[k] == c;
      assert bs[cs[k]] in bs;
    }
  }

  /** Everything about a binding except its breaker. */
  predicate SameButBreaker(a: Binding, b: Binding) {
    a == b.(breaker := a.breaker)
  }

  lemma {:induction false} SearchKeepsStatic(bs: seq<Binding>, tiers: seq<nat>, f: Filter, now: nat)
    ensures forall i :: 0 <= i < |bs| ==> SameButBreaker(bs[i], Search(bs, tiers, f, now).0[i])
    ensures ValidBindings(bs) ==> ValidBindings(Search(bs, tiers, f, now).0)
    decreases |tiers|
  {
    hide Candidates, TouchTier;
    var after := Search(bs, tiers, f, now).0;
    if tiers != [] {
      SearchKeepsStatic(TouchTier(bs, tiers[0], now), tiers[1..], f, now);
      var touched := TouchTier(bs, tiers[0], now);
      forall i | 0 <= i < |bs|
        ensures SameButBreaker(bs[i], after[i])
      {
        assert SameButBreaker(bs[i], touched[i]);
      }
    }
    if ValidBindings(bs) {
      forall b | b in after
        ensures b.weight > 0
      {
        var i :| 0 <= i < |bs| && after[i] == b;
        assert bs[i] in bs && SameButBreaker(bs[i], after[i]);
      }
    }
  }

  // ---- What the tier walk finds, told from the bindings before it ----

  /** No binding of the listed tiers can take the request. */
  ghost predicate NoneEligible(bs: seq<Binding>, tiers: seq<nat>, f: Filter, now: nat) {
    forall i :: 0 <= i < |bs| && bs[i].priority in tiers ==> !Eligible(bs[i], f, now)
  }

  /** `cs` are the eligible bindings of one tier, and no lower listed tier has any. */
  ghost predicate FoundIn(bs: seq<Binding>, tiers: seq<nat>, tier: nat, cs: seq<nat>, f: Filter, now: nat) {
    && tier in tiers
    && (forall i: nat :: i < |bs| ==> (i in cs <==> bs[i].priority == tier && Eligible(bs[i], f, now)))
    && (forall i :: 0 <= i < |bs| && bs[i].priority in tiers && bs[i].priority < tier ==> !Eligible(bs[i], f, now))
  }

  /** Checking a tier changes nobody's eligibility. */
  lemma TouchingKeepsEligible(bs: seq<Binding>, tier: nat, f: Filter, now: nat)
    ensures forall i :: 0 <= i < |bs| ==>
              TouchTier(bs, tier, now)[i].priority == bs[i].priority
              && (Eligible(TouchTier(bs, tier, now)[i], f, now) <==> Eligible(bs[i], f, now))
  {
    hide TouchTier;
  }

  lemma FoundAfterEmptyTier(bs: seq<Binding>, tiers: seq<nat>, tier: nat, cs: seq<nat>, f: Filter, now: nat)
    requires tiers != [] && Ascending(tiers)
    requires forall i :: 0 <= i < |bs| && bs[i].priority == tiers[0] ==> !Eligible(bs[i], f, now)
    requires FoundIn(TouchTier(bs, tiers[0], now), tiers[1..], tier, cs, f, now)
    ensures FoundIn(bs, tiers, tier, cs, f, now)
  {
    hide TouchTier, Eligible;
    TouchingKeepsEligible(bs, tiers[0], f, now);
    assert tiers == [tiers[0]] + tiers[1..];
    assert tiers[0] !in tiers[1..];
  }

  lemma {:induction false} SearchFindsLowestTier(bs: seq<Binding>, tiers: seq<nat>, f: Filter, now: nat)
    requires Ascending(tiers)
    ensures Search(bs, tiers, f, now).1 == [] ==> NoneEligible(bs, tiers, f, now)
    ensures Search(bs, tiers, f, now).1 != [] ==>
              exists tier :: FoundIn(bs, tiers, tier, Search(bs, tiers, f, now).1, f, now)
    decreases |tiers|
  {
    hide Candidates, TouchTier, Eligible;
    if tiers != [] {
      var first, rest := tiers[0], tiers[1..];
      var cs, touched := Candidates(bs, first, f, now), TouchTier(bs, first, now);
      assert tiers == [first] + rest;
      if cs == [] {
        SearchFindsLowestTier(touched, rest, f, now);
        TouchingKeepsEligible(bs, first, f, now);
        assert forall i: nat :: i < |bs| && bs[i].priority == first ==> i !in cs;
        var found := Search(touched, rest, f, now).1;
        if found != [] {
          var tier :| FoundIn(touched, rest, tier, found, f, now);
          FoundAfterEmptyTier(bs, tiers, tier, found, f, now);
        }
      } else {
        assert FoundIn(bs, tiers, first, cs, f, now);
      }
    }
  }

  /** A search checks availability or leaves alone; the candidates have all been checked. */
  lemma {:induction false} SearchTouches(bs: seq<Binding>, tiers: seq<nat>, f: Filter, now: nat)
    requires Ascending(tiers)
    ensures forall i :: 0 <= i < |bs| ==>
              Search(bs, tiers, f, now).0[i] == bs[i] || Search(bs, tiers, f, now).0[i] == Touched(bs[i], now)
    ensures forall i :: i in Search(bs, tiers, f, now).1 ==> Search(bs, tiers, f, now).0[i] == Touched(bs[i], now)
    decreases |tiers|
  {
    hide Candidates, TouchTier;
    if tiers != [] {
      var touched := TouchTier(bs, tiers[0], now);
      SearchTouches(touched, tiers[1..], f, now);
      SearchFindsLowestTier(touched, tiers[1..], f, now);
      var after := Search(touched, tiers[1..], f, now);
      assert forall i :: 0 <= i < |bs| ==> Touched(Touched(bs[i], now), now) == Touched(bs[i], now);
    }
  }

  ghost predicate SameBreakerOrTouched(before: Binding, after: Binding, now: nat) {
    || after == before.(currentWeight := after.currentWeight)
    || after == Touched(before, now).(currentWeight := after.currentWeight)
  }

  /** Selection picks one of the candidates found and moves only running weights. */
  lemma SelectPicksCandidate(g: Group, h: Rendezvous.Digest, r: Request, now: nat)
    requires ValidBindings(g.bindings)
    ensures var (bs, cs) := Search(g.bindings, Tiers(g.bindings, r.minPriority), r.filter, now);
            var (after, picked) := Select(g, h, r, now);
            && (picked.None? <==> cs == [])
            && (picked.Some? ==> picked.value in cs)
            && |after.bindings| == |bs|
            && (forall i :: 0 <= i < |bs| ==>
                  after.bindings[i] == bs[i].(currentWeight := after.bindings[i].currentWeight))
  {
    hide Search, Tiers, Swrr.WrapStep, Swrr.WrapPick;
    var (bs, cs) := Search(g.bindings, Tiers(g.bindings, r.minPriority), r.filter, now);
    if cs != [] {
      SearchKeepsStatic(g.bindings, Tiers(g.bindings, r.minPriority), r.filter, now);
      CandidatesAreWeighted(bs, cs);
    }
  }

  /** A lower tier that could still take the request. */
  ghost predicate LowerTierCould(g: Group, r: Request, below: nat, now: nat) {
    exists j :: 0 <= j < |g.bindings| && r.minPriority <= g.bindings[j].priority < below
      && Eligible(g.bindings[j], r.filter, now)
  }

  /**
   Selection picks an upstream that can take the request, from the lowest tier that has one,
   and fails exactly when no tier from `minPriority` up has one.
   */
  lemma SelectPicksLowestTier(g: Group, h: Rendezvous.Digest, r: Request, now: nat)
    requires ValidBindings(g.bindings)
    ensures Select(g, h, r, now).1.None? <==>
              forall i :: 0 <= i < |g.bindings| && g.bindings[i].priority >= r.minPriority
                ==> !Eligible(g.bindings[i], r.filter, now)
    ensures Select(g, h, r, now).1.Some? ==>
              var b := g.bindings[Select(g, h, r, now).1.value];
              && Eligible(b, r.filter, now) && b.priority >= r.minPriority
              && !LowerTierCould(g, r, b.priority, now)
  {
    hide Select, Search, Tiers, Eligible;
    var tiers := Tiers(g.bindings, r.minPriority);
    var cs := Search(g.bindings, tiers, r.filter, now).1;
    TiersAreThePriorities(g.bindings, r.minPriority);
    SearchFindsLowestTier(g.bindings, tiers, r.filter, now);
    SelectPicksCandidate(g, h, r, now);
    var picked := Select(g, h, r, now).1;
    forall i | 0 <= i < |g.bindings|
      ensures g.bindings[i].priority in tiers <==> g.bindings[i].priority >= r.minPriority
    {
      assert HasPriority(g.bindings, g.bindings[i].priority);
    }
    if picked.Some? {
      var tier :| FoundIn(g.bindings, tiers, tier, cs, r.filter, now);
      assert picked.value in cs;
    }
  }

  /**
   The walk changes nothing about a binding but its breaker's step from open to half-open and
   its running weight, and the binding picked has been checked.
   */
  lemma SelectTouches(g: Group, h: Rendezvous.Digest, r: Request, now: nat)
    requires ValidBindings(g.bindings)
    ensures forall i :: 0 <= i < |g.bindings| ==>
              SameBreakerOrTouched(g.bindings[i], Select(g, h, r, now).0.bindings[i], now)
    ensures Select(g, h, r, now).1.Some? ==>
              var i := Select(g, h, r, now).1.value;
              Select(g, h, r, now).0.bindings[i].breaker == Refresh(g.bindings[i].config, g.bindings[i].breaker, now)
  {
    hide Select, Search, Tiers;
    var tiers := Tiers(g.bindings, r.minPriority);
    TiersAreThePriorities(g.bindings, r.minPriority);
    SearchTouches(g.bindings, tiers, r.filter, now);
    SelectPicksCandidate(g, h, r, now);
    var (bs, cs) := Search(g.bindings, tiers, r.filter, now);
    var (after, picked) := Select(g, h, r, now);
    if picked.Some? {
      var i := picked.value;
      SelectPicksLowestTier(g, h, r, now);
      assert bs[i] == Touched(g.bindings[i], now);
    }
  }

  /** The search checks a listed tier exactly if it is no higher than that of its candidates `cs`. */
  predicate Reached(bs: seq<Binding>, tiers: seq<nat>, cs: seq<nat>, i: nat)
    requires i < |bs| && forall k :: 0 <= k < |cs| ==> cs[k] < |bs|
  {
    bs[i].priority in tiers && forall k :: 0 <= k < |cs| ==> bs[i].priority <= bs[cs[k]].priority
  }

  lemma FirstTierIsLowest(tiers: seq<nat>)
    requires tiers != [] && Ascending(tiers)
    ensures forall t :: t in tiers <==> t == tiers[0] || t in tiers[1..]
    ensures forall t :: t in tiers[1..] ==> tiers[0] < t
  {
    assert tiers == [tiers[0]] + tiers[1..];
  }

  /** Candidates of one tier: reached is what lies up to it. */
  lemma ReachedUpTo(bs: seq<Binding>, tiers: seq<nat>, cs: seq<nat>, i: nat, tier: nat)
    requires i < |bs| && cs != [] && forall k :: 0 <= k < |cs| ==> cs[k] < |bs| && bs[cs[k]].priority == tier
    ensures Reached(bs, tiers, cs, i) <==> bs[i].priority in tiers && bs[i].priority <= tier
  {
    assert cs[0] < |bs|;
  }

  lemma {:induction false} SearchChecksTheReached(bs: seq<Binding>, tiers: seq<nat>, f: Filter, now: nat, i: nat)
    requires Ascending(tiers) && i < |bs|
    ensures var (after, cs) := Search(bs, tiers, f, now);
            after[i] == if Reached(bs, tiers, cs, i) then Touched(bs[i], now) else bs[i]
    decreases |tiers|
  {
    hide Eligible, Touched, TouchTier, Candidates, Reached, Ascending, Search;
    SearchOne(bs, tiers, f, now);
    if tiers == [] {
      ReachedAll(bs, tiers, i);
    } else {
      var first, rest := tiers[0], tiers[1..];
      var cs, touched := Candidates(bs, first, f, now), TouchTier(bs, first, now);
      FirstTierIsLowest(tiers);
      RestAscends(tiers);
      if cs == [] {
        SearchChecksTheReached(touched, rest, f, now, i);
        TouchingKeepsEligible(bs, first, f, now);
        SearchFindsLowestTier(touched, rest, f, now);
        var found := Search(touched, rest, f, now).1;
        if found == [] {
          ReachedAll(bs, tiers, i);
          ReachedAll(touched, rest, i);
        } else {
          var tier :| FoundIn(touched, rest, tier, found, f, now);
          assert forall k :: 0 <= k < |found| ==> found[k] in found;
          ReachedUpTo(touched, rest, found, i, tier);
          ReachedUpTo(bs, tiers, found, i, tier);
        }
      } else {
        assert forall k :: 0 <= k < |cs| ==> cs[k] in cs;
        ReachedUpTo(bs, tiers, cs, i, first);
      }
    }
  }

  lemma SearchOne(bs: seq<Binding>, tiers: seq<nat>, f: Filter, now: nat)
    ensures Search(bs, tiers, f, now) ==
            if tiers == [] then (bs, [])
            else if Candidates(bs, tiers[0], f, now) == []
            then Search(TouchTier(bs, tiers[0], now), tiers[1..], f, now)
            else (TouchTier(bs, tiers[0], now), Candidates(bs, tiers[0], f, now))
  {
  }

  lemma ReachedAll(bs: seq<Binding>, tiers: seq<nat>, i: nat)
    requires i < |bs|
    ensures Reached(bs, tiers, [], i) <==> bs[i].priority in tiers
  {
  }

  lemma RestAscends(tiers: seq<nat>)
    requires tiers != [] && Ascending(tiers)
    ensures Ascending(tiers[1..])
  {
  }

  /**
   Exactly which breakers a selection half-opens: those of enabled and healthy bindings that have been
   open for their timeout, from the minimum tier up to that of the binding picked, whatever the filter.
   No other breaker changes.
   */
  lemma SelectHalfOpensUpToItsTier(g: Group, h: Rendezvous.Digest, r: Request, now: nat, i: nat)
    requires ValidBindings(g.bindings) && i < |g.bindings|
    ensures var (after, picked) := Select(g, h, r, now); var b := g.bindings[i];
            var due := && b.enabled && b.healthy && b.breaker.state == Open
                       && (b.config.timeout == 0 || now >= b.breaker.lastChange + b.config.timeout);
            var reached := && r.minPriority <= b.priority
                           && (picked.Some? ==> b.priority <= g.bindings[picked.value].priority);
            after.bindings[i].breaker ==
              if due && reached then b.breaker.(state := HalfOpen, lastChange := now, failures := 0, successes := 0)
              else b.breaker
  {
    hide Select, Search, Tiers, Eligible;
    var tiers := Tiers(g.bindings, r.minPriority);
    var (bs, cs) := Search(g.bindings, tiers, r.filter, now);
    TiersAreThePriorities(g.bindings, r.minPriority);
    assert HasPriority(g.bindings, g.bindings[i].priority);
    SearchChecksTheReached(g.bindings, tiers, r.filter, now, i);
    SearchFindsLowestTier(g.bindings, tiers, r.filter, now);
    SelectPicksCandidate(g, h, r, now);
    assert forall k :: 0 <= k < |cs| ==> cs[k] in cs;
  }

  /** The binding can be sent the request: enabled, healthy, not refused by its breaker, of the kind asked for. */
  predicate CanServe(b: Binding, r: Request, now: nat) {
    && b.enabled && b.healthy && b.priority >= r.minPriority
    && (b.breaker.state == Open ==> b.config.timeout == 0 || now >= b.breaker.lastChange + b.config.timeout)
    && (r.filter.runtime == None || r.filter.runtime == Some(b.runtime))
    && (r.filter.api == None || r.filter.api == Some(b.api))
  }

  lemma CanServeIsEligible(b: Binding, r: Request, now: nat)
    ensures CanServe(b, r, now) <==> b.priority >= r.minPriority && Eligible(b, r.filter, now)
  {
  }

  /** The binding selected can serve the request and none of a lower tier could; none is selected only when none can. */
  lemma SelectedCanServe(g: Group, h: Rendezvous.Digest, r: Request, now: nat)
    requires ValidBindings(g.bindings)
    ensures var picked := Select(g, h, r, now).1;
            && (picked.None? <==> forall i :: 0 <= i < |g.bindings| ==> !CanServe(g.bindings[i], r, now))
            && (picked.Some? ==>
                  && CanServe(g.bindings[picked.value], r, now)
                  && forall j :: 0 <= j < |g.bindings| && CanServe(g.bindings[j], r, now) ==>
                       g.bindings[picked.value].priority <= g.bindings[j].priority)
  {
    hide Select, Eligible, CanServe;
    SelectPicksLowestTier(g, h, r, now);
    forall i | 0 <= i < |g.bindings|
      ensures CanServe(g.bindings[i], r, now) <==>
                g.bindings[i].priority >= r.minPriority && Eligible(g.bindings[i], r.filter, now)
    {
      CanServeIsEligible(g.bindings[i], r, now);
    }
  }

  /** The key of a selection: the request's own, or the model's name and the cursor. */
  function KeyOf(g: Group, r: Request): string {
    if r.routingKey.Some? then r.routingKey.value else g.modelId + ":" + Decimals.Decimal(g.cursor)
  }

  lemma {:induction false} SameHashCandidates(bs: seq<Binding>, cs: seq<nat>, g: Group)
    requires |bs| == |g.bindings| && forall i :: 0 <= i < |bs| ==> SameButBreaker(g.bindings[i], bs[i])
    requires forall k :: 0 <= k < |cs| ==> cs[k] < |bs|
    ensures HashCandidates(bs, cs) == HashCandidates(g.bindings, cs)
  {
    if cs != [] {
      SameHashCandidates(bs, cs[..|cs| - 1], g);
      assert SameButBreaker(g.bindings[cs[|cs| - 1]], bs[cs[|cs| - 1]]);
    }
  }

  /** A hashing group selects by its key among the candidates; only a key that it made moves the cursor. */
  lemma SelectHashes(g: Group, h: Rendezvous.Digest, r: Request, now: nat)
    requires ValidBindings(g.bindings) && g.strategy == WeightedHash && RoundOf(g, r, now) != []
    ensures var cs := RoundOf(g, r, now); var candidates := HashCandidates(g.bindings, cs);
            && Rendezvous.Weighted(candidates)
            && Select(g, h, r, now).1 == Some(cs[Rendezvous.Choose(h, KeyOf(g, r), candidates)])
    ensures Select(g, h, r, now).0.cursor == if r.routingKey.Some? then g.cursor else g.cursor + 1
  {
    hide Search, Tiers, Rendezvous.Choose, HashCandidates, Rendezvous.Weighted;
    var tiers := Tiers(g.bindings, r.minPriority);
    var (bs, cs) := Search(g.bindings, tiers, r.filter, now);
    SearchKeepsStatic(g.bindings, tiers, r.filter, now);
    CandidatesAreWeighted(bs, cs);
    SameHashCandidates(bs, cs, g);
  }

  /**
   In a hashing group the binding selected has the lowest digest for its weight among the candidates,
   under the request's own key whatever the cursor, or else under a key that the cursor makes.
   */
  lemma HashSelectsByKey(g: Group, h: Rendezvous.Digest, r: Request, now: nat, j: nat)
    requires ValidBindings(g.bindings) && g.strategy == WeightedHash && j in RoundOf(g, r, now)
    ensures Select(g, h, r, now).1.Some? && Select(g, h, r, now).1.value in RoundOf(g, r, now)
    ensures var a, b := g.bindings[Select(g, h, r, now).1.value], g.bindings[j];
            h(KeyOf(g, r), a.url) * b.weight as real <= h(KeyOf(g, r), b.url) * a.weight as real
  {
    hide Select, RoundOf, KeyOf, Rendezvous.Choose, Rendezvous.Weighted, ValidBindings;
    var cs := RoundOf(g, r, now);
    var candidates := HashCandidates(g.bindings, cs);
    SelectHashes(g, h, r, now);
    var k :| 0 <= k < |cs| && cs[k] == j;
    var chosen := Rendezvous.Choose(h, KeyOf(g, r), candidates);
    Rendezvous.ChoiceIsLowestForWeight(h, KeyOf(g, r), candidates, chosen);
    assert Rendezvous.NotWorse(h, KeyOf(g, r), candidates, chosen, k);
  }

  // ---- Running weights of a group ----

  /** The bounded-credit invariant of the bindings' running weights. */
  ghost predicate GroupCredit(bs: seq<Binding>) {
    Swrr.Credit(Weights(bs), CurrentWeights(bs))
  }

  ghost predicate FitsI64(bs: seq<Binding>) {
    Swrr.Total(Weights(bs)) * |bs| < Swrr.TWO_63
  }

  lemma SearchKeepsWeights(bs: seq<Binding>, tiers: seq<nat>, f: Filter, now: nat)
    ensures Weights(Search(bs, tiers, f, now).0) == Weights(bs)
    ensures CurrentWeights(Search(bs, tiers, f, now).0) == CurrentWeights(bs)
  {
    SearchKeepsStatic(bs, tiers, f, now);
    var after := Search(bs, tiers, f, now).0;
    forall i | 0 <= i < |bs|
      ensures Weights(after)[i] == bs[i].weight && CurrentWeights(after)[i] == bs[i].currentWeight
    {
      assert SameButBreaker(bs[i], after[i]);
    }
  }

  /** A selection's candidates: whatever tiers and filters are involved, one round of the list. */
  ghost function RoundOf(g: Group, r: Request, now: nat): (cs: seq<nat>)
    ensures Swrr.ValidRound(cs, |g.bindings|)
  {
    Search(g.bindings, Tiers(g.bindings, r.minPriority), r.filter, now).1
  }

  /**
   In a round-robin group a selection is one exact round over its candidates: it keeps the
   bounded-credit invariant, never wraps, and other selections move no running weight.
   */
  lemma SelectIsARound(g: Group, h: Rendezvous.Digest, r: Request, now: nat)
    requires ValidBindings(g.bindings) && GroupCredit(g.bindings) && FitsI64(g.bindings)
    ensures var (after, picked) := Select(g, h, r, now);
            var w, cw, cs := Weights(g.bindings), CurrentWeights(g.bindings), RoundOf(g, r, now);
            && GroupCredit(after.bindings) && Weights(after.bindings) == w
            && (g.strategy == SmoothRoundRobin ==>
                  CurrentWeights(after.bindings) == Swrr.Step(w, cw, cs) && picked == Swrr.Pick(w, cw, cs))
            && (g.strategy == WeightedHash ==> CurrentWeights(after.bindings) == cw)
  {
    hide Search, Tiers, Weights, CurrentWeights, Swrr.WrapStep, Swrr.WrapPick, Swrr.Step, Swrr.Pick, Swrr.Credit;
    var tiers := Tiers(g.bindings, r.minPriority);
    var (bs, cs) := Search(g.bindings, tiers, r.filter, now);
    SearchKeepsWeights(g.bindings, tiers, r.filter, now);
    SearchKeepsStatic(g.bindings, tiers, r.filter, now);
    var w, cw := Weights(g.bindings), CurrentWeights(g.bindings);
    Swrr.StepDoesNotWrap(w, cw, cs);
    Swrr.StepKeepsCredit(w, cw, cs);
    if cs != [] {
      CandidatesAreWeighted(bs, cs);
      WeightsOfWithWeights(bs, Swrr.WrapStep(w, cw, cs));
    }
  }

  lemma WeightsOfWithWeights(bs: seq<Binding>, cw: seq<int>)
    requires |cw| == |bs|
    ensures Weights(WithWeights(bs, cw)) == Weights(bs)
    ensures CurrentWeights(WithWeights(bs, cw)) == cw
  {
    hide WithWeights, Weights, CurrentWeights;
    forall i: nat | i < |bs|
      ensures Weights(WithWeights(bs, cw))[i] == Weights(bs)[i]
      ensures CurrentWeights(WithWeights(bs, cw))[i] == cw[i]
    {
    }
  }
}
