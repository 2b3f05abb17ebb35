/**
 Runs of an upstream group: selections interleaved with the outcomes, checks, forced openings
 and health changes that other requests and operators cause. Breakers, tiers and running
 weights together: core/src/upstream/node.rs with circuit_breaker.rs and routing.rs.
 */
module Failover {
  import opened Options
  import opened CircuitBreakers
  import opened Upstreams
  import opened IndexSums
  import BreakerHistory
  import Rendezvous
  import Swrr

  /** What client requests do carries the number of the request; an attempt may have been selected before the run. */
  datatype Event =
    | Selection(id: nat, request: Request, at: nat)
    | Failed(id: nat, i: nat, at: nat)
    | Succeeded(id: nat, i: nat, at: nat)
    | Checked(i: nat, at: nat)
    | Forced(i: nat, at: nat)
    | ResetTo(i: nat, at: nat)
    | HealthSet(i: nat, healthy: bool, at: nat)

  ghost predicate ValidEvents(es: seq<Event>, n: nat) {
    forall k :: 0 <= k < |es| && !es[k].Selection? ==> es[k].i < n
  }

  function OnBreaker(e: Event, b: Binding): Binding
    requires !e.Selection?
  {
    match e
    case HealthSet(_, healthy, _) => b.(healthy := healthy)
    case Checked(_, at) => Touched(b, at)
    case Failed(_, _, at) => b.(breaker := RecordFailure(b.config, b.breaker, at))
    case Succeeded(_, _, at) => b.(breaker := RecordSuccess(b.config, b.breaker, at))
    case Forced(_, at) => b.(breaker := ForceOpen(b.breaker, at))
    case ResetTo(_, at) => b.(breaker := Reset(b.breaker, at))
  }

  ghost function Apply(g: Group, h: Rendezvous.Digest, e: Event): (after: Group)
    requires ValidBindings(g.bindings) && (!e.Selection? ==> e.i < |g.bindings|)
    ensures |after.bindings| == |g.bindings|
  {
    if e.Selection? then Select(g, h, e.request, e.at).0
    else g.(bindings := g.bindings[e.i := OnBreaker(e, g.bindings[e.i])])
  }

  /** What no event of a run ever changes about a group. */
  ghost predicate SameConfiguration(a: Group, b: Group) {
    && a.modelId == b.modelId && a.strategy == b.strategy && |a.bindings| == |b.bindings|
    && (forall i :: 0 <= i < |a.bindings| ==>
          && a.bindings[i].url == b.bindings[i].url && a.bindings[i].runtime == b.bindings[i].runtime
          && a.bindings[i].api == b.bindings[i].api && a.bindings[i].enabled == b.bindings[i].enabled
          && a.bindings[i].priority == b.bindings[i].priority && a.bindings[i].weight == b.bindings[i].weight
          && a.bindings[i].config == b.bindings[i].config)
  }

  lemma ApplyKeepsConfiguration(g: Group, h: Rendezvous.Digest, e: Event)
    requires ValidBindings(g.bindings) && (!e.Selection? ==> e.i < |g.bindings|)
    ensures SameConfiguration(g, Apply(g, h, e)) && ValidBindings(Apply(g, h, e).bindings)
  {
    hide Select, Refresh, RecordFailure, RecordSuccess, ForceOpen, Reset;
    var after := Apply(g, h, e);
    if e.Selection? {
      SelectTouches(g, h, e.request, e.at);
      assert forall i :: 0 <= i < |g.bindings| ==> SameBreakerOrTouched(g.bindings[i], after.bindings[i], e.at);
    }
    forall b | b in after.bindings
      ensures b.weight > 0
    {
      var i :| 0 <= i < |after.bindings| && after.bindings[i] == b;
      assert g.bindings[i] in g.bindings;
    }
  }

  /** The group after all events. */
  ghost function Run(g: Group, h: Rendezvous.Digest, es: seq<Event>): (after: Group)
    requires ValidBindings(g.bindings) && ValidEvents(es, |g.bindings|)
    ensures SameConfiguration(g, after) && ValidBindings(after.bindings)
  {
    if es == [] then g
    else
      var before := Run(g, h, es[..|es| - 1]);
      ApplyKeepsConfiguration(before, h, es[|es| - 1]);
      Apply(before, h, es[|es| - 1])
  }

  // ---- Running weights over a run ----

  lemma SameWeights(a: Group, b: Group)
    requires SameConfiguration(a, b)
    ensures Weights(a.bindings) == Weights(b.bindings)
  {
    hide Weights;
    forall i | 0 <= i < |a.bindings|
      ensures Weights(a.bindings)[i] == Weights(b.bindings)[i]
    {
      assert a.bindings[i].weight == b.bindings[i].weight;
    }
  }

  lemma KeepsCredit(a: seq<Binding>, b: seq<Binding>)
    requires Weights(a) == Weights(b) && CurrentWeights(a) == CurrentWeights(b) && GroupCredit(a)
    ensures GroupCredit(b)
  {
  }

  lemma ApplyKeepsGroupCredit(g: Group, h: Rendezvous.Digest, e: Event)
    requires ValidBindings(g.bindings) && (!e.Selection? ==> e.i < |g.bindings|)
    requires GroupCredit(g.bindings) && FitsI64(g.bindings)
    ensures GroupCredit(Apply(g, h, e).bindings)
  {
    hide Select, Weights, CurrentWeights, GroupCredit, Refresh, RecordFailure, RecordSuccess, ForceOpen, Reset;
    if e.Selection? {
      SelectIsARound(g, h, e.request, e.at);
    } else {
      ApplyKeepsConfiguration(g, h, e);
      var after := Apply(g, h, e);
      SameWeights(g, after);
      assert CurrentWeights(after.bindings) == CurrentWeights(g.bindings) by {
        forall i | 0 <= i < |g.bindings|
          ensures after.bindings[i].currentWeight == g.bindings[i].currentWeight
        {
        }
      }
      KeepsCredit(g.bindings, after.bindings);
    }
  }

  /**
   Bounded credit over every run of a group: selections of any tiers and filters, interleaved
   with any outcomes, keep every subset of bindings within its credit.
   */
  lemma {:induction false} RunKeepsGroupCredit(g: Group, h: Rendezvous.Digest, es: seq<Event>)
    requires ValidBindings(g.bindings) && ValidEvents(es, |g.bindings|)
    requires GroupCredit(g.bindings) && FitsI64(g.bindings)
    ensures GroupCredit(Run(g, h, es).bindings)
  {
    if es != [] {
      var before := Run(g, h, es[..|es| - 1]);
      RunKeepsGroupCredit(g, h, es[..|es| - 1]);
      SameWeights(g, before);
      ApplyKeepsGroupCredit(before, h, es[|es| - 1]);
    }
  }

  // ---- Health ----

  /** The last time the health of binding `i` was set, it was set to `healthy`. */
  predicate LastHealth(es: seq<Event>, i: nat, healthy: bool) {
    es != [] && var e := es[|es| - 1];
    if e.HealthSet? && e.i == i then e.healthy == healthy else LastHealth(es[..|es| - 1], i, healthy)
  }

  /** Health is what it was last set to, whatever else happened since. */
  lemma {:induction false} HealthIsAsSet(g: Group, h: Rendezvous.Digest, es: seq<Event>, i: nat, healthy: bool)
    requires ValidBindings(g.bindings) && ValidEvents(es, |g.bindings|) && i < |g.bindings|
    requires LastHealth(es, i, healthy)
    ensures Run(g, h, es).bindings[i].healthy == healthy
  {
    hide Select, Refresh, RecordFailure, RecordSuccess, ForceOpen, Reset;
    var before, e := es[..|es| - 1], es[|es| - 1];
    var was := Run(g, h, before);
    if !(e.HealthSet? && e.i == i) {
      HealthIsAsSet(g, h, before, i, healthy);
      if e.Selection? {
        SelectTouches(was, h, e.request, e.at);
        assert SameBreakerOrTouched(was.bindings[i], Run(g, h, es).bindings[i], e.at);
      }
    }
  }

  /** So a binding marked unhealthy is selected by no request until it is marked healthy again. */
  lemma UnhealthyIsNotSelected(g: Group, h: Rendezvous.Digest, es: seq<Event>, i: nat, r: Request, now: nat)
    requires ValidBindings(g.bindings) && ValidEvents(es, |g.bindings|) && i < |g.bindings|
    requires LastHealth(es, i, false)
    ensures Select(Run(g, h, es), h, r, now).1 != Some(i)
  {
    hide Select, Run, LastHealth;
    HealthIsAsSet(g, h, es, i, false);
    SelectedCanServe(Run(g, h, es), h, r, now);
  }

  // ---- A breaker among the others ----

  /** What an event has binding `i`'s breaker record; checks are not told. */
  function ToldBy(e: Event, i: nat): seq<BreakerHistory.Timed> {
    match e
    case Failed(_, j, at) => if j == i then [BreakerHistory.Timed(BreakerHistory.Failure, at)] else []
    case Succeeded(_, j, at) => if j == i then [BreakerHistory.Timed(BreakerHistory.Success, at)] else []
    case Forced(j, at) => if j == i then [BreakerHistory.Timed(BreakerHistory.ForceCall, at)] else []
    case ResetTo(j, at) => if j == i then [BreakerHistory.Timed(BreakerHistory.ResetCall, at)] else []
    case _ => []
  }

  /** All that it is told, in order. */
  function Told(es: seq<Event>, i: nat): seq<BreakerHistory.Timed> {
    if es == [] then [] else Told(es[..|es| - 1], i) + ToldBy(es[|es| - 1], i)
  }

  /** The calls that are not checks. */
  function Recordings(calls: seq<BreakerHistory.Timed>): seq<BreakerHistory.Timed> {
    if calls == [] then []
    else
      var last := calls[|calls| - 1];
      Recordings(calls[..|calls| - 1]) + if last.call == BreakerHistory.Check then [] else [last]
  }

  lemma CallSnoc(c: Config, b: Breaker, calls: seq<BreakerHistory.Timed>, call: BreakerHistory.Timed)
    ensures BreakerHistory.ApplyAll(c, b, calls + [call])
         == BreakerHistory.Apply(c, BreakerHistory.ApplyAll(c, b, calls), call.call, call.at)
    ensures Recordings(calls + [call])
         == Recordings(calls) + if call.call == BreakerHistory.Check then [] else [call]
  {
    assert (calls + [call])[..|calls|] == calls;
  }

  /** One event is at most one call on the binding's breaker. */
  lemma EventIsACall(g: Group, h: Rendezvous.Digest, e: Event, i: nat) returns (call: Option<BreakerHistory.Timed>)
    requires ValidBindings(g.bindings) && (!e.Selection? ==> e.i < |g.bindings|) && i < |g.bindings|
    ensures var was, now := g.bindings[i], Apply(g, h, e).bindings[i];
            && now.config == was.config
            && (call.None? ==> now.breaker == was.breaker && ToldBy(e, i) == [])
            && (call.Some? ==>
                  && now.breaker == BreakerHistory.Apply(was.config, was.breaker, call.value.call, call.value.at)
                  && ToldBy(e, i) == if call.value.call == BreakerHistory.Check then [] else [call.value])
  {
    hide Select, Refresh, RecordFailure, RecordSuccess, ForceOpen, Reset;
    var was, now := g.bindings[i], Apply(g, h, e).bindings[i];
    if e.Selection? {
      SelectTouches(g, h, e.request, e.at);
      assert SameBreakerOrTouched(was, now, e.at);
      call := if now.breaker == was.breaker then None else Some(BreakerHistory.Timed(BreakerHistory.Check, e.at));
    } else if e.i != i || e.HealthSet? {
      call := None;
    } else if e.Checked? {
      call := if was.enabled && was.healthy then Some(BreakerHistory.Timed(BreakerHistory.Check, e.at)) else None;
    } else {
      call := Some(ToldBy(e, i)[0]);
    }
  }

  lemma NothingTold(c: Config, b: Breaker, i: nat)
    ensures Told([], i) == [] && Recordings([]) == [] && BreakerHistory.ApplyAll(c, b, []) == b
  {
  }

  lemma ToldSnoc(es: seq<Event>, i: nat)
    requires es != []
    ensures Told(es, i) == Told(es[..|es| - 1], i) + ToldBy(es[|es| - 1], i)
  {
  }

  /**
   Over every run of a group the breaker of a binding is that of a history of its own: the outcomes,
   forced openings and resets that concern it, each once and in order, and checks in between. What
   holds of every history of a breaker so holds of each breaker of the group.
   */
  lemma {:induction false} BreakerHasItsOwnHistory(g: Group, h: Rendezvous.Digest, es: seq<Event>, i: nat)
    returns (calls: seq<BreakerHistory.Timed>)
    requires ValidBindings(g.bindings) && ValidEvents(es, |g.bindings|) && i < |g.bindings|
    ensures Recordings(calls) == Told(es, i)
    ensures Run(g, h, es).bindings[i].breaker
         == BreakerHistory.ApplyAll(g.bindings[i].config, g.bindings[i].breaker, calls)
  {
    hide Select, Apply, BreakerHistory.Apply, BreakerHistory.ApplyAll, Recordings, Told, ToldBy;
    if es == [] {
      calls := [];
      NothingTold(g.bindings[i].config, g.bindings[i].breaker, i);
    } else {
      var before, e := es[..|es| - 1], es[|es| - 1];
      calls := BreakerHasItsOwnHistory(g, h, before, i);
      var call := EventIsACall(Run(g, h, before), h, e, i);
      ToldSnoc(es, i);
      if call.Some? {
        CallSnoc(g.bindings[i].config, g.bindings[i].breaker, calls, call.value);
        calls := calls + [call.value];
      }
    }
  }

  // ---- The failover bound ----

  /** The event selects binding `i` for one of the requests. */
  ghost predicate Lands(before: Group, h: Rendezvous.Digest, e: Event, ids: set<nat>, i: nat)
    requires ValidBindings(before.bindings)
  {
    e.Selection? && e.id in ids && Select(before, h, e.request, e.at).1 == Some(i)
  }

  /** The event is the failure of an attempt on binding `i` by one of the requests. */
  predicate Fails(e: Event, ids: set<nat>, i: nat) {
    e.Failed? && e.id in ids && e.i == i
  }

  /** How often the run's selections for the requests pick binding `i`. */
  ghost function Landed(g: Group, h: Rendezvous.Digest, es: seq<Event>, ids: set<nat>, i: nat): nat
    requires ValidBindings(g.bindings) && ValidEvents(es, |g.bindings|)
  {
    if es == [] then 0
    else
      var before, e := es[..|es| - 1], es[|es| - 1];
      Landed(g, h, before, ids, i) + if Lands(Run(g, h, before), h, e, ids, i) then 1 else 0
  }

  /** How many failures the requests report of it. */
  function Failures(es: seq<Event>, ids: set<nat>, i: nat): nat {
    if es == [] then 0
    else Failures(es[..|es| - 1], ids, i) + if Fails(es[|es| - 1], ids, i) then 1 else 0
  }

  /**
   No attempt of the requests fails before it is made, and at most `k` of theirs to one binding are
   under way at any time. Of other requests nothing is said: they may select, fail and be late.
   */
  ghost predicate InFlight(g: Group, h: Rendezvous.Digest, es: seq<Event>, ids: set<nat>, k: nat)
    requires ValidBindings(g.bindings) && ValidEvents(es, |g.bindings|)
  {
    forall n: nat, i: nat :: n <= |es| && i < |g.bindings| ==>
      Failures(es[..n], ids, i) <= Landed(g, h, es[..n], ids, i) <= Failures(es[..n], ids, i) + k
  }

  /** Every event happens in [from, from + timeout) of every breaker, and none is a success or reset. */
  ghost predicate Stretch(g: Group, es: seq<Event>, from: nat) {
    forall k :: 0 <= k < |es| ==>
      && !es[k].Succeeded? && !es[k].ResetTo?
      && from <= es[k].at
      && forall i :: 0 <= i < |g.bindings| ==> es[k].at < from + g.bindings[i].config.timeout
  }

  /** Breakers as calls up to `from` leave them. */
  ghost predicate ReachedBy(g: Group, from: nat) {
    forall i :: 0 <= i < |g.bindings| ==>
      && g.bindings[i].breaker.lastChange <= from
      && BreakerHistory.InRange(g.bindings[i].config, g.bindings[i].breaker)
  }

  /** One binding in a stretch: `landed` attempts made to it, `failed` of them reported. */
  ghost predicate Holding(b: Binding, from: nat, landed: nat, failed: nat, k: nat) {
    && failed <= landed <= failed + k
    && landed + 1 <= Max(1, b.config.failureThreshold) + k
    && BreakerHistory.InRange(b.config, b.breaker)
    && match b.breaker.state
       case Closed => failed <= b.breaker.failures
       case HalfOpen => failed == 0
       case Open => b.breaker.lastChange >= from || landed == 0
  }

  lemma HoldingAfterCheck(b: Binding, after: Binding, from: nat, landed: nat, failed: nat, k: nat, at: nat)
    requires Holding(b, from, landed, failed, k) && from <= at < from + b.config.timeout
    requires SameBreakerOrTouched(b, after, at)
    ensures Holding(after, from, landed, failed, k)
  {
  }

  /** A binding that is picked has not yet failed as often as its threshold allows. */
  lemma HoldingAfterPick(b: Binding, after: Binding, from: nat, landed: nat, failed: nat, k: nat, at: nat)
    requires Holding(b, from, landed, failed, k) && from <= at < from + b.config.timeout
    requires Available(b, at) && SameBreakerOrTouched(b, after, at)
    requires after.breaker == Refresh(b.config, b.breaker, at)
    requires failed <= landed + 1 <= failed + k
    ensures Holding(after, from, landed + 1, failed, k)
  {
  }

  /** Any other event, `mine` when it is the failure of an attempt that counts. */
  lemma HoldingAfterEvent(b: Binding, e: Event, from: nat, landed: nat, failed: nat, now: nat, k: nat, mine: bool)
    requires Holding(b, from, landed, failed, k) && from <= e.at < from + b.config.timeout
    requires !e.Selection? && !e.Succeeded? && !e.ResetTo? && (mine ==> e.Failed?)
    requires now == failed + (if mine then 1 else 0) && now <= landed <= now + k
    ensures Holding(OnBreaker(e, b), from, landed, now, k)
  {
  }

  /** Binding `i` after the run, with the attempts of the requests. */
  ghost predicate HoldingAt(g: Group, h: Rendezvous.Digest, es: seq<Event>, ids: set<nat>, from: nat, k: nat, i: nat)
    requires ValidBindings(g.bindings) && ValidEvents(es, |g.bindings|) && i < |g.bindings|
  {
    Holding(Run(g, h, es).bindings[i], from, Landed(g, h, es, ids, i), Failures(es, ids, i), k)
  }

  lemma InFlightAt(g: Group, h: Rendezvous.Digest, es: seq<Event>, ids: set<nat>, k: nat, i: nat)
    requires ValidBindings(g.bindings) && ValidEvents(es, |g.bindings|) && i < |g.bindings|
    requires InFlight(g, h, es, ids, k)
    ensures Failures(es, ids, i) <= Landed(g, h, es, ids, i) <= Failures(es, ids, i) + k
    ensures es != [] ==> InFlight(g, h, es[..|es| - 1], ids, k)
  {
    hide Landed, Failures;
    assert es[..|es|] == es;
    if es != [] {
      var before := es[..|es| - 1];
      assert forall n: nat :: n <= |before| ==> before[..n] == es[..n];
    }
  }

  lemma {:induction false} StretchHolds(
      g: Group, h: Rendezvous.Digest, es: seq<Event>, ids: set<nat>, from: nat, k: nat, i: nat)
    requires ValidBindings(g.bindings) && ValidEvents(es, |g.bindings|) && i < |g.bindings|
    requires ReachedBy(g, from) && Stretch(g, es, from) && InFlight(g, h, es, ids, k)
    ensures HoldingAt(g, h, es, ids, from, k, i)
  {
    hide Select, Apply, Holding, InFlight, ReachedBy, Lands, Fails;
    InFlightAt(g, h, es, ids, k, i);
    if es == [] {
      StartHolds(g, from, k, i);
    } else {
      StretchHolds(g, h, es[..|es| - 1], ids, from, k, i);
      StretchHoldsAfter(g, h, es, ids, from, k, i);
    }
  }

  lemma StartHolds(g: Group, from: nat, k: nat, i: nat)
    requires ReachedBy(g, from) && i < |g.bindings|
    ensures Holding(g.bindings[i], from, 0, 0, k)
  {
  }

  lemma StretchAt(g: Group, es: seq<Event>, from: nat, n: nat, i: nat)
    requires Stretch(g, es, from) && n < |es| && i < |g.bindings|
    ensures !es[n].Succeeded? && !es[n].ResetTo? && from <= es[n].at < from + g.bindings[i].config.timeout
  {
  }

  /** A selection, whether or not it is for one of the requests and picks `i`. */
  lemma HoldingAfterSelection(
      was: Group, h: Rendezvous.Digest, e: Event, ids: set<nat>, from: nat, landed: nat, failed: nat, k: nat, i: nat)
    requires ValidBindings(was.bindings) && i < |was.bindings| && e.Selection?
    requires Holding(was.bindings[i], from, landed, failed, k)
    requires from <= e.at < from + was.bindings[i].config.timeout
    requires Lands(was, h, e, ids, i) ==> failed <= landed + 1 <= failed + k
    ensures var now := landed + if Lands(was, h, e, ids, i) then 1 else 0;
            Holding(Apply(was, h, e).bindings[i], from, now, failed, k)
  {
    hide Select, Holding, SameBreakerOrTouched, Refresh, CanExecuteAt, LowerTierCould;
    var b, after := was.bindings[i], Apply(was, h, e).bindings[i];
    SelectTouches(was, h, e.request, e.at);
    SelectPicksLowestTier(was, h, e.request, e.at);
    assert SameBreakerOrTouched(b, after, e.at);
    if Lands(was, h, e, ids, i) {
      HoldingAfterPick(b, after, from, landed, failed, k, e.at);
    } else {
      HoldingAfterCheck(b, after, from, landed, failed, k, e.at);
    }
  }

  lemma StretchHoldsAfter(g: Group, h: Rendezvous.Digest, es: seq<Event>, ids: set<nat>, from: nat, k: nat, i: nat)
    requires ValidBindings(g.bindings) && ValidEvents(es, |g.bindings|) && es != [] && i < |g.bindings|
    requires Stretch(g, es, from) && HoldingAt(g, h, es[..|es| - 1], ids, from, k, i)
    requires Failures(es, ids, i) <= Landed(g, h, es, ids, i) <= Failures(es, ids, i) + k
    ensures HoldingAt(g, h, es, ids, from, k, i)
  {
    hide Select, Holding, OnBreaker, Stretch;
    var before, e := es[..|es| - 1], es[|es| - 1];
    var was := Run(g, h, before);
    var b, landed, failed := was.bindings[i], Landed(g, h, before, ids, i), Failures(before, ids, i);
    assert b.config == g.bindings[i].config;
    StretchAt(g, es, from, |es| - 1, i);
    if e.Selection? {
      HoldingAfterSelection(was, h, e, ids, from, landed, failed, k, i);
    } else if e.i == i {
      HoldingAfterEvent(b, e, from, landed, failed, Failures(es, ids, i), k, Fails(e, ids, i));
    }
  }

  /**
   In a stretch shorter than the timeout, without success or reset, at most T - 1 + k attempts of some
   requests reach a binding with failure threshold T while at most k of theirs to it are under way,
   whatever other requests do to it meanwhile.
   */
  lemma AttemptsPerBinding(g: Group, h: Rendezvous.Digest, es: seq<Event>, ids: set<nat>, from: nat, k: nat, i: nat)
    requires ValidBindings(g.bindings) && ValidEvents(es, |g.bindings|) && i < |g.bindings|
    requires ReachedBy(g, from) && Stretch(g, es, from) && InFlight(g, h, es, ids, k)
    ensures Landed(g, h, es, ids, i) + 1 <= Max(1, g.bindings[i].config.failureThreshold) + k
  {
    hide Landed, Failures, InFlight, Stretch, ReachedBy;
    StretchHolds(g, h, es, ids, from, k, i);
    assert Run(g, h, es).bindings[i].config == g.bindings[i].config;
  }

  // ---- Per tier ----

  /** The bindings of a tier, as positions. */
  ghost function TierMembers(bs: seq<Binding>, tier: nat): (r: set<nat>)
    ensures forall i: nat :: i in r <==> i < |bs| && bs[i].priority == tier
  {
    set i | i in Indices(|bs|) && bs[i].priority == tier
  }

  ghost predicate LandsOnTier(g: Group, before: Group, h: Rendezvous.Digest, e: Event, ids: set<nat>, tier: nat)
    requires ValidBindings(before.bindings) && |before.bindings| == |g.bindings|
  {
    && e.Selection? && e.id in ids
    && var picked := Select(before, h, e.request, e.at).1;
       picked.Some? && g.bindings[picked.value].priority == tier
  }

  /** How often the run's selections for the requests pick a binding of the tier. */
  ghost function LandedOnTier(g: Group, h: Rendezvous.Digest, es: seq<Event>, ids: set<nat>, tier: nat): nat
    requires ValidBindings(g.bindings) && ValidEvents(es, |g.bindings|)
  {
    if es == [] then 0
    else
      var before, e := es[..|es| - 1], es[|es| - 1];
      LandedOnTier(g, h, before, ids, tier) + if LandsOnTier(g, Run(g, h, before), h, e, ids, tier) then 1 else 0
  }

  ghost function LandedEach(g: Group, h: Rendezvous.Digest, es: seq<Event>, ids: set<nat>): (r: seq<nat>)
    requires ValidBindings(g.bindings) && ValidEvents(es, |g.bindings|)
    ensures |r| == |g.bindings|
    ensures forall i: nat :: i < |r| ==> r[i] == Landed(g, h, es, ids, i)
  {
    seq(|g.bindings|, i requires 0 <= i < |g.bindings| => Landed(g, h, es, ids, i))
  }

  lemma {:induction false} TierIsSumOfMembers(g: Group, h: Rendezvous.Digest, es: seq<Event>, ids: set<nat>, tier: nat)
    requires ValidBindings(g.bindings) && ValidEvents(es, |g.bindings|)
    ensures LandedOnTier(g, h, es, ids, tier) == SumOn(LandedEach(g, h, es, ids), TierMembers(g.bindings, tier))
  {
    hide Select, Apply, LandedEach, TierMembers;
    var members, now := TierMembers(g.bindings, tier), LandedEach(g, h, es, ids);
    if es == [] {
      SumOnZeros(now, members);
    } else {
      var before, e := es[..|es| - 1], es[|es| - 1];
      TierIsSumOfMembers(g, h, before, ids, tier);
      var was := LandedEach(g, h, before, ids);
      var picked := if e.Selection? && e.id in ids then Select(Run(g, h, before), h, e.request, e.at).1 else None;
      var v := if picked.Some? then picked.value else |g.bindings|;
      forall i: nat | i < |was|
        ensures now[i] == was[i] - (if i == v then -1 else 0)
      {
      }
      SumOnShift(was, now, was, {}, v, -1, members);
      SumOnZeros(was, members * {});
    }
  }

  lemma {:induction false} SumIsBounded(f: seq<nat>, s: set<nat>, each: nat)
    requires forall i :: i in s ==> i < |f| && f[i] <= each
    ensures SumOn(f, s) <= |s| * each
  {
    if s == {} {
      SumOnZeros(f, s);
    } else {
      var i :| i in s;
      SumIsBounded(f, s - {i}, each);
      SumOnInsert(f, s - {i}, i);
      assert (s - {i}) + {i} == s;
      assert (|s| - 1) * each + each == |s| * each;
    }
  }

  /**
   The failover bound: with failure thresholds at most T >= 1 and at most k attempts of some requests
   to one binding under way, a tier of P bindings receives at most P * (T - 1 + k) attempts of theirs
   in the stretch, whatever the others do; by SelectPicksLowestTier every later selection of the
   stretch goes to the next tier.
   */
  lemma FailoverBound(
      g: Group, h: Rendezvous.Digest, es: seq<Event>, ids: set<nat>, from: nat, k: nat, tier: nat, T: nat)
    requires ValidBindings(g.bindings) && ValidEvents(es, |g.bindings|) && T >= 1
    requires ReachedBy(g, from) && Stretch(g, es, from) && InFlight(g, h, es, ids, k)
    requires forall i :: i in TierMembers(g.bindings, tier) ==> g.bindings[i].config.failureThreshold <= T
    ensures LandedOnTier(g, h, es, ids, tier) <= |TierMembers(g.bindings, tier)| * (T - 1 + k)
  {
    hide InFlight, Stretch, ReachedBy, TierMembers, LandedEach, LandedOnTier, Landed;
    var members, each := TierMembers(g.bindings, tier), LandedEach(g, h, es, ids);
    forall i | i in members
      ensures each[i] <= T - 1 + k
    {
      AttemptsPerBinding(g, h, es, ids, from, k, i);
    }
    TierIsSumOfMembers(g, h, es, ids, tier);
    SumIsBounded(each, members, T - 1 + k);
  }

  // ---- One request among others ----

  /** The event belongs to the request. */
  predicate Concerns(e: Event, id: nat) {
    (e.Selection? || e.Failed? || e.Succeeded?) && e.id == id
  }

  /**
   The request makes its attempts one at a time, none successful, and has `pending` under way: each of
   its selections that picked a binding is followed by that binding's failure before it selects again.
   */
  ghost predicate OneAtATime(g: Group, h: Rendezvous.Digest, es: seq<Event>, id: nat, pending: Option<nat>)
    requires ValidBindings(g.bindings) && ValidEvents(es, |g.bindings|)
  {
    if es == [] then pending == None
    else
      var before, e := es[..|es| - 1], es[|es| - 1];
      if !Concerns(e, id) then OneAtATime(g, h, before, id, pending)
      else if e.Selection? then
        OneAtATime(g, h, before, id, None) && pending == Select(Run(g, h, before), h, e.request, e.at).1
      else e.Failed? && OneAtATime(g, h, before, id, Some(e.i)) && pending == None
  }

  /** So it has at most one attempt under way, to the pending binding. */
  lemma {:induction false} PendingIsTheDifference(
      g: Group, h: Rendezvous.Digest, es: seq<Event>, id: nat, pending: Option<nat>, i: nat)
    requires ValidBindings(g.bindings) && ValidEvents(es, |g.bindings|) && OneAtATime(g, h, es, id, pending)
    ensures Landed(g, h, es, {id}, i) == Failures(es, {id}, i) + if pending == Some(i) then 1 else 0
  {
    hide Select, Apply;
    if es != [] {
      var before, e := es[..|es| - 1], es[|es| - 1];
      PendingIsTheDifference(g, h, before, id, PendingBefore(g, h, es, id, pending), i);
    }
  }

  ghost function PendingBefore(
      g: Group, h: Rendezvous.Digest, es: seq<Event>, id: nat, pending: Option<nat>): (p: Option<nat>)
    requires ValidBindings(g.bindings) && ValidEvents(es, |g.bindings|) && es != [] && OneAtATime(g, h, es, id, pending)
    ensures OneAtATime(g, h, es[..|es| - 1], id, p)
  {
    var e := es[|es| - 1];
    if !Concerns(e, id) then pending else if e.Selection? then None else Some(e.i)
  }

  lemma {:induction false} OneAtATimeIsInFlight(
      g: Group, h: Rendezvous.Digest, es: seq<Event>, id: nat, pending: Option<nat>)
    requires ValidBindings(g.bindings) && ValidEvents(es, |g.bindings|) && OneAtATime(g, h, es, id, pending)
    ensures InFlight(g, h, es, {id}, 1)
  {
    hide Landed, Failures, OneAtATime, Run;
    if es != [] {
      OneAtATimeIsInFlight(g, h, es[..|es| - 1], id, PendingBefore(g, h, es, id, pending));
    }
    forall n: nat, i: nat | n <= |es| && i < |g.bindings|
      ensures Failures(es[..n], {id}, i) <= Landed(g, h, es[..n], {id}, i) <= Failures(es[..n], {id}, i) + 1
    {
      if n == |es| {
        assert es[..n] == es;
        PendingIsTheDifference(g, h, es, id, pending, i);
      } else {
        assert es[..n] == es[..|es| - 1][..n];
      }
    }
  }

  /**
   Of one request's attempts in a stretch shorter than the breaker timeouts, none succeeding, at most
   P * T reach a tier of P bindings with failure thresholds at most T, amid any selections, failures,
   checks, forced openings and health changes by others.
   */
  lemma RequestLeavesTier(
      g: Group, h: Rendezvous.Digest, es: seq<Event>, id: nat, pending: Option<nat>, from: nat, tier: nat, T: nat)
    requires ValidBindings(g.bindings) && ValidEvents(es, |g.bindings|) && T >= 1
    requires OneAtATime(g, h, es, id, pending) && ReachedBy(g, from) && Stretch(g, es, from)
    requires forall i :: i in TierMembers(g.bindings, tier) ==> g.bindings[i].config.failureThreshold <= T
    ensures LandedOnTier(g, h, es, {id}, tier) <= |TierMembers(g.bindings, tier)| * T
  {
    hide OneAtATime, ReachedBy, Stretch, TierMembers, LandedOnTier, InFlight;
    OneAtATimeIsInFlight(g, h, es, id, pending);
    FailoverBound(g, h, es, {id}, from, 1, tier, T);
  }

  /** Events of others, on bindings of the group. */
  predicate Foreign(es: seq<Event>, id: nat, n: nat) {
    forall k :: 0 <= k < |es| ==> !Concerns(es[k], id) && (!es[k].Selection? ==> es[k].i < n)
  }

  lemma OneAtATimeSkips(g: Group, h: Rendezvous.Digest, es: seq<Event>, e: Event, id: nat, pending: Option<nat>)
    requires ValidBindings(g.bindings) && ValidEvents(es, |g.bindings|) && OneAtATime(g, h, es, id, pending)
    requires !Concerns(e, id) && (!e.Selection? ==> e.i < |g.bindings|)
    ensures ValidEvents(es + [e], |g.bindings|) && OneAtATime(g, h, es + [e], id, pending)
  {
    hide Run, Concerns;
    var all := es + [e];
    assert all[..|all| - 1] == es && all[|all| - 1] == e;
  }

  lemma {:induction false} OneAtATimeAmidForeign(
      g: Group, h: Rendezvous.Digest, es: seq<Event>, more: seq<Event>, id: nat, pending: Option<nat>)
    requires ValidBindings(g.bindings) && ValidEvents(es, |g.bindings|) && Foreign(more, id, |g.bindings|)
    requires OneAtATime(g, h, es, id, pending)
    ensures ValidEvents(es + more, |g.bindings|) && OneAtATime(g, h, es + more, id, pending)
  {
    hide OneAtATime, ValidEvents, ValidBindings, Concerns;
    if more == [] {
      assert es + more == es;
    } else {
      var front, last := more[..|more| - 1], more[|more| - 1];
      OneAtATimeAmidForeign(g, h, es, front, id, pending);
      OneAtATimeSkips(g, h, es + front, last, id, pending);
      assert es + more == es + front + [last];
    }
  }

  lemma OneAtATimeSelects(g: Group, h: Rendezvous.Digest, es: seq<Event>, id: nat, r: Request, at: nat)
    requires ValidBindings(g.bindings) && ValidEvents(es, |g.bindings|) && OneAtATime(g, h, es, id, None)
    ensures ValidEvents(es + [Selection(id, r, at)], |g.bindings|)
    ensures OneAtATime(g, h, es + [Selection(id, r, at)], id, Select(Run(g, h, es), h, r, at).1)
  {
    hide Run, Select;
    var all := es + [Selection(id, r, at)];
    assert all[..|all| - 1] == es && all[|all| - 1] == Selection(id, r, at);
  }

  lemma OneAtATimeFails(g: Group, h: Rendezvous.Digest, es: seq<Event>, id: nat, i: nat, at: nat)
    requires ValidBindings(g.bindings) && ValidEvents(es, |g.bindings|) && i < |g.bindings|
    requires OneAtATime(g, h, es, id, Some(i))
    ensures ValidEvents(es + [Failed(id, i, at)], |g.bindings|) && OneAtATime(g, h, es + [Failed(id, i, at)], id, None)
  {
    hide Run, Select;
    var all := es + [Failed(id, i, at)];
    assert all[..|all| - 1] == es && all[|all| - 1] == Failed(id, i, at);
  }
}
