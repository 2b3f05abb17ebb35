/**
 The group and its bindings as objects, updated in place: `select_swrr`,
 `select_weighted_hash` and `select_with_min_priority`. A selection reads the clock once.
 */
module UpstreamObjects {
  import opened Options
  import opened CircuitBreakers
  import opened Upstreams
  import Rendezvous
  import Swrr

  class UpstreamBinding {
    const url: string
    const runtime: RuntimeType
    const api: ApiCompatibility
    const enabled: bool
    const priority: nat
    const weight: nat
    const breaker: CircuitBreaker
    var healthy: bool
    var currentWeight: int

    constructor (b: Binding, now: nat)
      ensures fresh(breaker)
      ensures View() == b.(breaker := Fresh(now), currentWeight := 0)
    {
      url, runtime, api := b.url, b.runtime, b.api;
      enabled, priority, weight := b.enabled, b.priority, b.weight;
      healthy, currentWeight := b.healthy, 0;
      breaker := new CircuitBreaker(b.config, now);
    }

    function View(): Binding
      reads this, breaker
    {
      Binding(url, runtime, api, enabled, healthy, priority, weight, breaker.config, breaker.View(), currentWeight)
    }

    method IsAvailable(now: nat) returns (ok: bool)
      modifies breaker
      ensures View() == Touched(old(View()), now)
      ensures ok <==> Available(old(View()), now)
    {
      ok := enabled && healthy;
      if ok {
        ok := breaker.CanExecute(now);
      }
    }

    method RecordOutcome(success: bool, now: nat)
      modifies breaker
      ensures View() == AfterOutcome(old(View()), success, now)
    {
      hide RecordSuccess, RecordFailure;
      if success {
        breaker.Succeed(now);
      } else {
        breaker.Fail(now);
      }
    }
  }

  /** Distinct bindings with distinct breakers. */
  ghost predicate Separate(us: seq<UpstreamBinding>) {
    && (forall i, j :: 0 <= i < j < |us| ==> us[i] != us[j] && us[i].breaker != us[j].breaker)
  }

  function Views(us: seq<UpstreamBinding>): (r: seq<Binding>)
    reads us, set u | u in us :: u.breaker
    ensures |r| == |us|
    ensures forall i :: 0 <= i < |us| ==> r[i] == us[i].View()
  {
    if us == [] then [] else Views(us[..|us| - 1]) + [us[|us| - 1].View()]
  }

  method TotalWeight(us: seq<UpstreamBinding>, cs: seq<nat>) returns (total: nat)
    requires Swrr.ValidRound(cs, |us|)
    ensures total == Swrr.WeightOf(Weights(Views(us)), cs)
  {
    total := 0;
    for k := 0 to |cs|
      invariant total == Swrr.WeightOf(Weights(Views(us)), cs[..k])
    {
      assert cs[..k + 1][..k] == cs[..k];
      total := total + us[cs[k]].weight;
    }
    assert cs[..|cs|] == cs;
  }

  /** The running weights of `us` are `cw`, their weights `w`. */
  ghost predicate Weigh(us: seq<UpstreamBinding>, w: seq<nat>, cw: seq<int>)
    reads us`currentWeight
  {
    |w| == |cw| == |us| && forall i :: 0 <= i < |us| ==> us[i].weight == w[i] && us[i].currentWeight == cw[i]
  }

  /** Credits every candidate its weight, wrapping like an i64. */
  method CreditAll(us: seq<UpstreamBinding>, cs: seq<nat>, ghost w: seq<nat>, ghost cw: seq<int>)
    requires Separate(us) && Swrr.ValidRound(cs, |us|) && Weigh(us, w, cw)
    modifies us`currentWeight
    ensures Weigh(us, w, Swrr.WrapCredited(w, cw, cs))
  {
    for k := 0 to |cs|
      invariant forall i: nat :: i < |us| && i in cs[..k] ==> us[i].currentWeight == Swrr.WrapI64(cw[i] + w[i])
      invariant forall i: nat :: i < |us| && i !in cs[..k] ==> us[i].currentWeight == cw[i]
    {
      var u := us[cs[k]];
      assert cs[k] !in cs[..k];
      u.currentWeight := Swrr.WrapI64(u.currentWeight + u.weight);
      assert cs[..k + 1] == cs[..k] + [cs[k]];
    }
    assert cs[..|cs|] == cs;
  }

  /** The first candidate with the highest running weight. */
  method Leader(us: seq<UpstreamBinding>, cs: seq<nat>, ghost w: seq<nat>, ghost cw: seq<int>) returns (leader: nat)
    requires Swrr.ValidRound(cs, |us|) && cs != [] && |w| == |cw| == |us|
    requires Weigh(us, w, Swrr.WrapCredited(w, cw, cs))
    ensures leader < |us| && Swrr.WrapPick(w, cw, cs) == Some(leader)
  {
    ghost var at := Swrr.At(Swrr.WrapCredited(w, cw, cs), cs);
    var best, bestWeight := 0, us[cs[0]].currentWeight;
    for k := 1 to |cs|
      invariant best < k && bestWeight == at[best]
      invariant forall j: nat :: j < best ==> at[j] < at[best]
      invariant forall j: nat :: best <= j < k ==> at[j] <= at[best]
    {
      var weight := us[cs[k]].currentWeight;
      if weight > bestWeight {
        best, bestWeight := k, weight;
      }
    }
    Swrr.FirstMaxIsUnique(at, best);
    leader := cs[best];
  }

  method Charge(us: seq<UpstreamBinding>, cs: seq<nat>, v: nat, total: nat, ghost w: seq<nat>, ghost cw: seq<int>)
    requires Separate(us) && Swrr.ValidRound(cs, |us|) && |w| == |cw| == |us|
    requires Weigh(us, w, Swrr.WrapCredited(w, cw, cs))
    requires Swrr.WrapPick(w, cw, cs) == Some(v) && total == Swrr.WeightOf(w, cs)
    modifies us`currentWeight
    ensures Weigh(us, w, Swrr.WrapStep(w, cw, cs))
  {
    us[v].currentWeight := Swrr.WrapI64(us[v].currentWeight - total);
    ghost var up := Swrr.WrapCredited(w, cw, cs);
    assert Swrr.WrapStep(w, cw, cs) == up[v := us[v].currentWeight];
    forall i | 0 <= i < |us|
      ensures us[i].weight == w[i] && us[i].currentWeight == up[v := us[v].currentWeight][i]
    {
      assert i != v ==> us[i] != us[v];
    }
  }

  /**
   One round over the candidates `cs` of `us`: credit each its weight, pick the first with the
   highest running weight, and charge it the total.
   */
  method SelectSwrr(us: seq<UpstreamBinding>, cs: seq<nat>, ghost w: seq<nat>, ghost cw: seq<int>)
      returns (picked: Option<nat>)
    requires Separate(us) && Swrr.ValidRound(cs, |us|) && Weigh(us, w, cw)
    modifies us`currentWeight
    ensures Weigh(us, w, Swrr.WrapStep(w, cw, cs))
    ensures picked == Swrr.WrapPick(w, cw, cs)
  {
    if cs == [] {
      return None;
    }
    var total := TotalWeight(us, cs);
    assert Weights(Views(us)) == w;
    CreditAll(us, cs, w, cw);
    var leader := Leader(us, cs, w, cw);
    Charge(us, cs, leader, total, w, cw);
    picked := Some(leader);
  }

  /** `tiers` are the distinct priorities from `min` up of the first `k` bindings. */
  ghost predicate TiersUpTo(bs: seq<Binding>, k: nat, min: nat, tiers: seq<nat>)
    requires k <= |bs|
  {
    Ascending(tiers) && forall p: nat :: p in tiers <==> p >= min && HasPriority(bs[..k], p)
  }

  lemma NoTiers(bs: seq<Binding>, min: nat)
    ensures TiersUpTo(bs, 0, min, [])
  {
  }

  lemma AllTiers(bs: seq<Binding>, min: nat, tiers: seq<nat>)
    requires TiersUpTo(bs, |bs|, min, tiers)
    ensures tiers == Tiers(bs, min)
  {
    hide Tiers, HasPriority, Ascending;
    assert bs[..|bs|] == bs;
    TiersAreThePriorities(bs, min);
    AscendingIsUnique(tiers, Tiers(bs, min));
  }

  lemma OneMoreTier(bs: seq<Binding>, k: nat, min: nat, tiers: seq<nat>)
    requires k < |bs| && TiersUpTo(bs, k, min, tiers)
    ensures TiersUpTo(bs, k + 1, min, if bs[k].priority >= min then InsertTier(bs[k].priority, tiers) else tiers)
  {
    hide InsertTier, HasPriority, Ascending;
    InsertTierKeepsOrder(bs[k].priority, tiers);
    OneMorePriority(bs, k);
  }

  lemma OneMorePriority(bs: seq<Binding>, k: nat)
    requires k < |bs|
    ensures forall p: nat :: HasPriority(bs[..k + 1], p) <==> p == bs[k].priority || HasPriority(bs[..k], p)
  {
    forall p: nat
      ensures HasPriority(bs[..k + 1], p) <==> p == bs[k].priority || HasPriority(bs[..k], p)
    {
      var before, now := bs[..k], bs[..k + 1];
      if i :| 0 <= i < |before| && before[i].priority == p {
        assert now[i].priority == p;
      }
      if i :| 0 <= i < |now| && now[i].priority == p {
        assert i < k ==> before[i].priority == p;
      }
      assert now[k].priority == bs[k].priority;
    }
  }

  lemma NoCandidates(bs: seq<Binding>, tier: nat, f: Filter, now: nat)
    ensures CandidatesUpTo(bs, 0, tier, f, now) == []
  {
  }

  lemma NextCandidate(bs: seq<Binding>, k: nat, tier: nat, f: Filter, now: nat)
    requires k < |bs|
    ensures CandidatesUpTo(bs, k + 1, tier, f, now) ==
            CandidatesUpTo(bs, k, tier, f, now) + if bs[k].priority == tier && Eligible(bs[k], f, now) then [k] else []
  {
  }

  lemma AllCandidates(bs: seq<Binding>, tier: nat, f: Filter, now: nat)
    ensures Candidates(bs, tier, f, now) == CandidatesUpTo(bs, |bs|, tier, f, now)
  {
  }

  class UpstreamGroup {
    const modelId: string
    const strategy: Strategy
    const upstreams: seq<UpstreamBinding>
    const digest: Rendezvous.Digest
    var cursor: nat

    ghost predicate Valid() {
      Separate(upstreams) && forall u :: u in upstreams ==> u.weight > 0
    }

    ghost function Breakers(): (breakers: set<CircuitBreaker>)
      ensures forall i :: 0 <= i < |upstreams| ==> upstreams[i].breaker in breakers
    {
      set u | u in upstreams :: u.breaker
    }

    function View(): (g: Group)
      reads this, upstreams, set u | u in upstreams :: u.breaker
      ensures |g.bindings| == |upstreams|
    {
      Group(modelId, strategy, Views(upstreams), cursor)
    }

    constructor (modelId: string, strategy: Strategy, upstreams: seq<UpstreamBinding>, digest: Rendezvous.Digest)
      requires Separate(upstreams) && forall u :: u in upstreams ==> u.weight > 0
      ensures Valid() && this.upstreams == upstreams && this.digest == digest
      ensures View() == Group(modelId, strategy, Views(upstreams), 0)
    {
      this.modelId, this.strategy, this.upstreams, this.digest := modelId, strategy, upstreams, digest;
      cursor := 0;
    }

    lemma ViewIsValid()
      requires Valid()
      ensures ValidBindings(View().bindings)
    {
      forall b | b in View().bindings
        ensures b.weight > 0
      {
        var i :| 0 <= i < |upstreams| && View().bindings[i] == b;
        assert upstreams[i] in upstreams;
      }
    }

    /** The distinct priorities from `min` up, ascending. */
    method CollectTiers(min: nat) returns (tiers: seq<nat>)
      requires Valid()
      ensures tiers == Tiers(Views(upstreams), min)
    {
      hide Views, InsertTier, Tiers, TiersUpTo;
      ghost var bs := Views(upstreams);
      tiers := [];
      NoTiers(bs, min);
      for k := 0 to |upstreams|
        invariant TiersUpTo(bs, k, min, tiers)
      {
        var priority := upstreams[k].priority;
        OneMoreTier(bs, k, min, tiers);
        if priority >= min {
          tiers := InsertTier(priority, tiers);
        }
      }
      AllTiers(bs, min, tiers);
    }

    /** Whether upstream `k` is a candidate of the tier; only a tier member's breaker is consulted. */
    method CheckOne(k: nat, tier: nat, f: Filter, now: nat, ghost b: Binding) returns (eligible: bool)
      requires Valid() && k < |upstreams| && upstreams[k].View() == b
      modifies upstreams[k].breaker
      ensures eligible <==> b.priority == tier && Eligible(b, f, now)
      ensures upstreams[k].View() == if b.priority == tier then Touched(b, now) else b
      ensures forall i :: 0 <= i < |upstreams| && i != k ==> upstreams[i].View() == old(upstreams[i].View())
    {
      hide Refresh, CanExecuteAt;
      var u := upstreams[k];
      eligible := u.priority == tier;
      if eligible {
        eligible := u.IsAvailable(now);
        eligible := eligible && (f.runtime.None? || u.runtime == f.runtime.value)
                             && (f.api.None? || u.api == f.api.value);
      }
      assert forall i :: 0 <= i < |upstreams| && i != k ==> upstreams[i].breaker != u.breaker;
    }

    /** The tier's candidates; checking them may half-open their breakers. */
    method Collect(tier: nat, f: Filter, now: nat) returns (cs: seq<nat>)
      requires Valid()
      modifies Breakers()
      ensures Views(upstreams) == TouchTier(old(Views(upstreams)), tier, now)
      ensures cs == Candidates(old(Views(upstreams)), tier, f, now)
    {
      hide *;
      ghost var was := Views(upstreams);
      ghost var touched := TouchTier(was, tier, now);
      cs := [];
      NoCandidates(was, tier, f, now);
      for k := 0 to |upstreams|
        invariant cs == CandidatesUpTo(was, k, tier, f, now)
        invariant forall i :: 0 <= i < k ==> upstreams[i].View() == touched[i]
        invariant forall i :: k <= i < |upstreams| ==> upstreams[i].View() == was[i]
      {
        var eligible := CheckOne(k, tier, f, now, was[k]);
        NextCandidate(was, k, tier, f, now);
        if eligible {
          cs := cs + [k];
        }
      }
      AllCandidates(was, tier, f, now);
      assert Views(upstreams) == touched;
    }

    /** The first candidate with the lowest score under the request's key, or a key made from the cursor. */
    method SelectWeightedHash(cs: seq<nat>, routingKey: Option<string>) returns (picked: nat)
      requires Valid() && cs != [] && forall k :: 0 <= k < |cs| ==> cs[k] < |upstreams|
      requires Rendezvous.Weighted(HashCandidates(Views(upstreams), cs))
      modifies this`cursor
      ensures cursor == if routingKey.Some? then old(cursor) else old(cursor) + 1
      ensures var key := Rendezvous.KeyFor(if routingKey.Some? then routingKey.value else "",
                                           routingKey.Some?, modelId, old(cursor));
              picked == cs[Rendezvous.Choose(digest, key, HashCandidates(old(Views(upstreams)), cs))]
    {
      hide Views, HashCandidates, Rendezvous.Choose;
      var key;
      match routingKey {
        case Some(given) =>
          key := Rendezvous.KeyFor(given, true, modelId, cursor);
        case None =>
          key := Rendezvous.KeyFor("", false, modelId, cursor);
          cursor := cursor + 1;
      }
      picked := cs[Rendezvous.Choose(digest, key, HashCandidates(Views(upstreams), cs))];
    }

    method ChooseSwrr(cs: seq<nat>, ghost bs: seq<Binding>) returns (picked: Option<nat>)
      requires Valid() && cs != [] && Swrr.ValidRound(cs, |upstreams|) && Views(upstreams) == bs
      modifies upstreams`currentWeight
      ensures Views(upstreams) == WithWeights(bs, Swrr.WrapStep(Weights(bs), CurrentWeights(bs), cs))
      ensures picked == Swrr.WrapPick(Weights(bs), CurrentWeights(bs), cs)
    {
      hide Swrr.WrapStep, Swrr.WrapPick, Weights, CurrentWeights, WithWeights, Views;
      ghost var w, cw := Weights(bs), CurrentWeights(bs);
      picked := SelectSwrr(upstreams, cs, w, cw);
      ghost var next := Swrr.WrapStep(w, cw, cs);
      forall i | 0 <= i < |upstreams|
        ensures upstreams[i].View() == bs[i].(currentWeight := next[i])
      {
        assert upstreams[i].breaker.View() == bs[i].breaker;
      }
    }

    /** One of the candidates, by the group's strategy. */
    method Choose(cs: seq<nat>, r: Request, ghost was: Group) returns (picked: Option<nat>)
      requires Valid() && cs != [] && Swrr.ValidRound(cs, |upstreams|) && View() == was
      requires Rendezvous.Weighted(HashCandidates(was.bindings, cs))
      modifies this`cursor, upstreams`currentWeight
      ensures (View(), picked) == Chosen(was, digest, cs, r)
    {
      hide Swrr.WrapStep, Swrr.WrapPick, Weights, CurrentWeights, WithWeights, Views, HashCandidates, Rendezvous.Choose;
      match strategy {
        case SmoothRoundRobin =>
          picked := ChooseSwrr(cs, was.bindings);
        case WeightedHash =>
          var i := SelectWeightedHash(cs, r.routingKey);
          picked := Some(i);
          assert Views(upstreams) == was.bindings;
      }
    }

    /** Walks the priority tiers from `minPriority` up and selects from the first that has a candidate. */
    method SelectWithMinPriority(r: Request, now: nat) returns (picked: Option<nat>)
      requires Valid()
      modifies this`cursor, upstreams`currentWeight, Breakers()
      ensures ValidBindings(old(View()).bindings)
      ensures (View(), picked) == Select(old(View()), digest, r, now)
    {
      hide TouchTier, Candidates, Chosen, Tiers, Views;
      ghost var was := View();
      ghost var bs := was.bindings;
      ViewIsValid();
      var tiers := CollectTiers(r.minPriority);
      ghost var search := Search(bs, tiers, r.filter, now);
      SearchKeepsStatic(bs, tiers, r.filter, now);
      for t := 0 to |tiers|
        invariant cursor == was.cursor
        invariant Search(Views(upstreams), tiers[t..], r.filter, now) == search
      {
        ghost var before := Views(upstreams);
        var cs := Collect(tiers[t], r.filter, now);
        assert tiers[t..][1..] == tiers[t + 1..];
        if cs != [] {
          assert search == (Views(upstreams), cs);
          CandidatesAreWeighted(search.0, cs);
          picked := Choose(cs, r, View());
          return;
        }
      }
      picked := None;
    }

    /** Records on its breaker how a request to upstream `i` ended. */
    method RecordOutcome(i: nat, success: bool, now: nat)
      requires Valid() && i < |upstreams|
      modifies Breakers()
      ensures View() == WithOutcome(old(View()), i, success, now)
    {
      hide AfterOutcome, Views, UpstreamBinding.View;
      ghost var was := View();
      upstreams[i].RecordOutcome(success, now);
      forall j | 0 <= j < |upstreams|
        ensures upstreams[j].View() == WithOutcome(was, i, success, now).bindings[j]
      {
        assert j != i ==> upstreams[j].breaker != upstreams[i].breaker;
      }
      assert View().bindings == WithOutcome(was, i, success, now).bindings;
    }
  }
}
