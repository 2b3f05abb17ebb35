/**
 Admission: the ordered checks of `check_rate_limits` in server/src/server.rs, taken by many
 requests at once. Each check is one atomic step of the limiter; checks of different requests
 interleave in any order. Limits are fixed over a run.
 */
module Admission {
  import opened Options
  import opened Windows

  datatype Request = Request(apiKeyId: string, modelId: string, protocol: string)

  datatype ModelLimits = ModelLimits(
    keyRpm: Option<U32>,
    keyTpm: Option<U32>,
    modelRpm: Option<U32>,
    modelTpm: Option<U32>)
  datatype Capacity = Capacity(rpm: Option<U32>, tpm: Option<U32>)
  datatype Quota = Quota(keyRpm: Option<U32>, keyTpm: Option<U32>)

  /** Per-model limits, per-(model, protocol) primary capacity, per-(key, model) overrides. */
  datatype Config = Config(
    models: map<string, ModelLimits>,
    capacities: map<(string, string), Capacity>,
    quotas: map<(string, string), Quota>)

  function Or<T>(a: Option<T>, b: Option<T>): Option<T> {
    if a.Some? then a else b
  }

  function LimitsFor(c: Config, model: string): ModelLimits {
    if model in c.models then c.models[model] else ModelLimits(None, None, None, None)
  }

  function CapacityFor(c: Config, model: string, protocol: string): Capacity {
    if (model, protocol) in c.capacities then c.capacities[(model, protocol)] else Capacity(None, None)
  }

  function QuotaFor(c: Config, apiKeyId: string, model: string): Quota {
    if (apiKeyId, model) in c.quotas then c.quotas[(apiKeyId, model)] else Quota(None, None)
  }

  /** The request limit of a bucket: an override first, then the model's default. */
  function RpmLimit(c: Config, k: Key): Option<U32> {
    match k
    case KeyModel(apiKeyId, model) => Or(QuotaFor(c, apiKeyId, model).keyRpm, LimitsFor(c, model).keyRpm)
    case Model(model) => LimitsFor(c, model).modelRpm
    case PrimaryTier(model, protocol) => CapacityFor(c, model, protocol).rpm
  }

  function TpmLimit(c: Config, k: Key): Option<U32> {
    match k
    case KeyModel(apiKeyId, model) => Or(QuotaFor(c, apiKeyId, model).keyTpm, LimitsFor(c, model).keyTpm)
    case Model(model) => LimitsFor(c, model).modelTpm
    case PrimaryTier(model, protocol) => CapacityFor(c, model, protocol).tpm
  }

  /**
   Setting an override limits that key's use of that model, where it names a limit, and moves no other
   bucket's limits; where it names none the model's default applies.
   */
  lemma OverrideConcernsOneBucket(c: Config, apiKeyId: string, model: string, quota: Quota, k: Key)
    ensures var changed := c.(quotas := c.quotas[(apiKeyId, model) := quota]);
            && (k != KeyModel(apiKeyId, model) ==> RpmLimit(changed, k) == RpmLimit(c, k))
            && (k != KeyModel(apiKeyId, model) ==> TpmLimit(changed, k) == TpmLimit(c, k))
            && (quota.keyRpm.Some? ==> RpmLimit(changed, KeyModel(apiKeyId, model)) == quota.keyRpm)
            && (quota.keyRpm.None? ==> RpmLimit(changed, KeyModel(apiKeyId, model)) == LimitsFor(c, model).keyRpm)
            && (quota.keyTpm.Some? ==> TpmLimit(changed, KeyModel(apiKeyId, model)) == quota.keyTpm)
            && (quota.keyTpm.None? ==> TpmLimit(changed, KeyModel(apiKeyId, model)) == LimitsFor(c, model).keyTpm)
  {
  }

  /** A model's limits are those of its own bucket and the defaults of its keys, and no one else's. */
  lemma ModelLimitsConcernOneModel(c: Config, model: string, limits: ModelLimits, k: Key)
    ensures var changed := c.(models := c.models[model := limits]);
            && RpmLimit(changed, Model(model)) == limits.modelRpm && TpmLimit(changed, Model(model)) == limits.modelTpm
            && (k.Model? && k.modelId != model ==>
                  RpmLimit(changed, k) == RpmLimit(c, k) && TpmLimit(changed, k) == TpmLimit(c, k))
            && (k.KeyModel? && k.modelId != model ==>
                  RpmLimit(changed, k) == RpmLimit(c, k) && TpmLimit(changed, k) == TpmLimit(c, k))
            && (k.PrimaryTier? ==>
                  RpmLimit(changed, k) == RpmLimit(c, k) && TpmLimit(changed, k) == TpmLimit(c, k))
            && (k.KeyModel? && k.modelId == model ==>
                  && RpmLimit(changed, k) == Or(QuotaFor(c, k.apiKeyId, model).keyRpm, limits.keyRpm)
                  && TpmLimit(changed, k) == Or(QuotaFor(c, k.apiKeyId, model).keyTpm, limits.keyTpm))
  {
  }

  /** Primary capacity limits the bucket of its model and protocol, and no other. */
  lemma CapacityConcernsOneTier(c: Config, model: string, protocol: string, capacity: Capacity, k: Key)
    ensures var changed := c.(capacities := c.capacities[(model, protocol) := capacity]);
            && RpmLimit(changed, PrimaryTier(model, protocol)) == capacity.rpm
            && TpmLimit(changed, PrimaryTier(model, protocol)) == capacity.tpm
            && (k != PrimaryTier(model, protocol) ==>
                  RpmLimit(changed, k) == RpmLimit(c, k) && TpmLimit(changed, k) == TpmLimit(c, k))
  {
  }

  /** A model that nothing is configured for is not limited anywhere. */
  lemma UnconfiguredIsUnlimited(k: Key)
    ensures var none := Config(map[], map[], map[]);
            RpmLimit(none, k) == None && TpmLimit(none, k) == None
  {
  }

  function KeyBucket(r: Request): Key {
    KeyModel(r.apiKeyId, r.modelId)
  }

  function ModelBucket(r: Request): Key {
    Model(r.modelId)
  }

  function PrimaryBucket(r: Request): Key {
    PrimaryTier(r.modelId, r.protocol)
  }

  // ---- One request's checks ----

  datatype Check = KeyTokens | ModelTokens | KeyRequests | ModelRequests | PrimaryRequests | PrimaryTokens

  /** How far a request is: the check to make next, or the outcome. */
  datatype Progress =
    | At(check: Check, minPriority: nat)
    | Accepted(minPriority: nat)
    | Refused(failed: Check)

  /** The limiter operation of a check, if its limit is configured. */
  function OpOf(c: Config, r: Request, check: Check): Option<Op> {
    var k := BucketOf(r, check);
    if check.KeyTokens? || check.ModelTokens? || check.PrimaryTokens? then
      if TpmLimit(c, k).Some? then Some(CheckTpm(k, TpmLimit(c, k).value)) else None
    else
      if RpmLimit(c, k).Some? then Some(CheckRpm(k, RpmLimit(c, k).value)) else None
  }

  function BucketOf(r: Request, check: Check): Key {
    match check
    case KeyTokens => KeyBucket(r)
    case KeyRequests => KeyBucket(r)
    case ModelTokens => ModelBucket(r)
    case ModelRequests => ModelBucket(r)
    case PrimaryRequests => PrimaryBucket(r)
    case PrimaryTokens => PrimaryBucket(r)
  }

  /** Token checks first, then requests from the narrowest bucket out; the primary tier last. */
  function Next(p: Progress, denied: bool): Progress
    requires p.At?
  {
    match p.check
    case KeyTokens => if denied then Refused(KeyTokens) else At(ModelTokens, p.minPriority)
    case ModelTokens => if denied then Refused(ModelTokens) else At(KeyRequests, p.minPriority)
    case KeyRequests => if denied then Refused(KeyRequests) else At(ModelRequests, p.minPriority)
    case ModelRequests => if denied then Refused(ModelRequests) else At(PrimaryRequests, p.minPriority)
    case PrimaryRequests => At(PrimaryTokens, if denied then 1 else p.minPriority)
    case PrimaryTokens => Accepted(if denied then 1 else p.minPriority)
  }

  /** The primary token check is skipped once the request is bound for the fallback tier. */
  function Made(c: Config, r: Request, p: Progress): Option<Op>
    requires p.At?
  {
    if p.check == PrimaryTokens && p.minPriority != 0 then None else OpOf(c, r, p.check)
  }

  const START: Progress := At(KeyTokens, 0)

  /** One check at `now`: the ledger and the progress after it, and the bucket charged, if any. */
  function Advance(w: nat, c: Config, l: Ledger, r: Request, p: Progress, now: int): (Ledger, Progress)
    requires p.At?
  {
    match Made(c, r, p)
    case None => (l, Next(p, false))
    case Some(op) => (After(w, l, op, now), Next(p, !Allows(w, l, op, now)))
  }

  // ---- Many requests ----

  /** A slot taken in a request bucket. */
  datatype Charge = Charge(key: Key, at: int, id: nat)

  /** The limiter, the requests being admitted, and which request took which slot. */
  datatype System = System(ledger: Ledger, requests: map<nat, (Request, Progress)>, charges: seq<Charge>)

  const IDLE: System := System(EMPTY, map[], [])

  datatype Event =
    | Arrives(id: nat, request: Request, at: int)
    | Checks(id: nat, at: int)
    | Records(id: nat, key: Key, tokens: nat, at: int)
    | Sweeps(busy: set<Key>, at: int)

  /** The charge that a check makes: a slot of its bucket when it is allowed. */
  function ChargeOf(w: nat, c: Config, l: Ledger, r: Request, p: Progress, id: nat, now: int): seq<Charge>
    requires p.At?
  {
    match Made(c, r, p)
    case Some(CheckRpm(k, limit)) => if Allows(w, l, CheckRpm(k, limit), now) then [Charge(k, now, id)] else []
    case _ => []
  }

  function Step(w: nat, c: Config, s: System, e: Event): System {
    match e
    case Arrives(id, r, _) => if id in s.requests then s else s.(requests := s.requests[id := (r, START)])
    case Checks(id, at) =>
      if id !in s.requests || !s.requests[id].1.At? then s
      else
        var (r, p) := s.requests[id];
        var (l, next) := Advance(w, c, s.ledger, r, p, at);
        System(l, s.requests[id := (r, next)], s.charges + ChargeOf(w, c, s.ledger, r, p, id, at))
    case Records(_, k, tokens, at) => s.(ledger := After(w, s.ledger, Record(k, tokens), at))
    case Sweeps(busy, at) => s.(ledger := After(w, s.ledger, Cleanup(busy), at))
  }

  function Run(w: nat, c: Config, es: seq<Event>): System {
    if es == [] then IDLE else Step(w, c, Run(w, c, es[..|es| - 1]), es[|es| - 1])
  }

  ghost predicate InOrder(es: seq<Event>, upTo: int) {
    && (forall i :: 0 <= i < |es| ==> es[i].at <= upTo)
    && (forall i, j :: 0 <= i < j < |es| ==> es[i].at <= es[j].at)
  }

  // ---- The accounts ----

  /** The history of a bucket as its charges tell it. */
  function Entries(cs: seq<Charge>, k: Key): seq<Entry> {
    if cs == [] then []
    else
      var rest := Entries(cs[..|cs| - 1], k);
      if cs[|cs| - 1].key == k then rest + [Entry(cs[|cs| - 1].at, 1)] else rest
  }

  /** How many slots of bucket `k` request `id` took. */
  function Taken(cs: seq<Charge>, k: Key, id: nat): nat {
    if cs == [] then 0
    else Taken(cs[..|cs| - 1], k, id) + if cs[|cs| - 1].key == k && cs[|cs| - 1].id == id then 1 else 0
  }

  function Rank(check: Check): nat {
    match check
    case KeyTokens => 0
    case ModelTokens => 1
    case KeyRequests => 2
    case ModelRequests => 3
    case PrimaryRequests => 4
    case PrimaryTokens => 5
  }

  /** The request has passed this check. */
  predicate Passed(p: Progress, check: Check) {
    match p
    case At(next, _) => Rank(check) < Rank(next)
    case Accepted(_) => true
    case Refused(failed) => Rank(check) < Rank(failed)
  }

  /**
   The slots a request owes, told from its outcome alone: one in its key bucket once past the
   key check, one in the model bucket once past the model check, and for the primary bucket one
   at most, and one for sure when it goes to the primary tier.
   */
  ghost predicate Settled(c: Config, r: Request, p: Progress, cs: seq<Charge>, id: nat) {
    && (p.Refused? ==> Rank(p.failed) <= 3)
    && (!p.Refused? ==> p.minPriority <= 1)
    && (p.At? && Rank(p.check) <= 4 ==> p.minPriority == 0)
    && Taken(cs, KeyBucket(r), id) == (if RpmLimit(c, KeyBucket(r)).Some? && Passed(p, KeyRequests) then 1 else 0)
    && Taken(cs, ModelBucket(r), id) == (if RpmLimit(c, ModelBucket(r)).Some? && Passed(p, ModelRequests) then 1 else 0)
    && Taken(cs, PrimaryBucket(r), id) <=
       (if RpmLimit(c, PrimaryBucket(r)).Some? && Passed(p, PrimaryRequests) then 1 else 0)
    && (RpmLimit(c, PrimaryBucket(r)).Some? && Passed(p, PrimaryRequests) && !p.Refused? && p.minPriority == 0 ==>
          Taken(cs, PrimaryBucket(r), id) == 1)
    && (forall k :: k != KeyBucket(r) && k != ModelBucket(r) && k != PrimaryBucket(r) ==> Taken(cs, k, id) == 0)
  }

  ghost predicate LimitsKept(w: nat, c: Config, l: Ledger) {
    forall k :: RpmLimit(c, k).Some? ==> WithinLimit(Of(l.rpm, k), w, RpmLimit(c, k).value)
  }

  /** The ledger holds the charges and nothing else. */
  ghost predicate Balanced(l: Ledger, cs: seq<Charge>) {
    forall k :: Of(l.rpm, k) == Entries(cs, k)
  }

  ghost predicate AllSettled(c: Config, s: System) {
    && (forall id :: id in s.requests ==> Settled(c, s.requests[id].0, s.requests[id].1, s.charges, id))
    && (forall i :: 0 <= i < |s.charges| ==> s.charges[i].id in s.requests)
  }

  ghost predicate Sound(w: nat, c: Config, s: System, clock: int) {
    LedgerOrdered(s.ledger, clock) && LimitsKept(w, c, s.ledger) && Balanced(s.ledger, s.charges) && AllSettled(c, s)
  }

  // ---- Every run keeps the accounts ----

  lemma ChargeSnoc(cs: seq<Charge>, e: Charge, k: Key, id: nat)
    ensures Entries(cs + [e], k) == if e.key == k then Entries(cs, k) + [Entry(e.at, 1)] else Entries(cs, k)
    ensures Taken(cs + [e], k, id) == Taken(cs, k, id) + if e.key == k && e.id == id then 1 else 0
  {
    assert (cs + [e])[..|cs|] == cs;
  }

  lemma {:induction false} StrangerTookNothing(cs: seq<Charge>, k: Key, id: nat)
    requires forall i :: 0 <= i < |cs| ==> cs[i].id != id
    ensures Taken(cs, k, id) == 0
  {
    if cs != [] {
      StrangerTookNothing(cs[..|cs| - 1], k, id);
    }
  }

  /** Charges of other requests settle nothing here. */
  lemma OthersStaySettled(c: Config, r: Request, p: Progress, cs: seq<Charge>, e: Charge, id: nat)
    requires Settled(c, r, p, cs, id) && e.id != id
    ensures Settled(c, r, p, cs + [e], id)
  {
    hide RpmLimit, Passed;
    forall k
      ensures Taken(cs + [e], k, id) == Taken(cs, k, id)
    {
      ChargeSnoc(cs, e, k, id);
    }
  }

  /** A check and its charge keep the request's own account. */
  lemma AdvanceSettles(w: nat, c: Config, l: Ledger, r: Request, p: Progress, now: int, cs: seq<Charge>, id: nat)
    requires p.At? && Settled(c, r, p, cs, id)
    ensures Settled(c, r, Advance(w, c, l, r, p, now).1, cs + ChargeOf(w, c, l, r, p, id, now), id)
  {
    hide Allows, After, RpmLimit, TpmLimit;
    var added := ChargeOf(w, c, l, r, p, id, now);
    if added == [] {
      assert cs + added == cs;
    } else {
      var e := added[0];
      assert added == [e];
      forall k
        ensures Taken(cs + [e], k, id) == Taken(cs, k, id) + if e.key == k then 1 else 0
      {
        ChargeSnoc(cs, e, k, id);
      }
    }
  }

  /** The bucket that a check charges in the ledger is the one its charge names. */
  lemma AdvanceCharges(
      w: nat, c: Config, l: Ledger, r: Request, p: Progress, now: int, cs: seq<Charge>, id: nat, k: Key)
    requires p.At? && Of(l.rpm, k) == Entries(cs, k)
    ensures Of(Advance(w, c, l, r, p, now).0.rpm, k) == Entries(cs + ChargeOf(w, c, l, r, p, id, now), k)
  {
    hide Allows, RpmLimit, TpmLimit;
    var added := ChargeOf(w, c, l, r, p, id, now);
    if added == [] {
      assert cs + added == cs;
    } else {
      assert added == [added[0]];
      ChargeSnoc(cs, added[0], k, id);
    }
  }

  /** Checks of a bucket use the limit configured for that bucket. */
  lemma MadeUsesBucketLimit(c: Config, r: Request, p: Progress)
    requires p.At? && Made(c, r, p).Some? && Made(c, r, p).value.CheckRpm?
    ensures RpmLimit(c, Made(c, r, p).value.key) == Some(Made(c, r, p).value.limit)
  {
  }

  lemma AfterKeepsLimits(w: nat, c: Config, l: Ledger, op: Op, now: int)
    requires LedgerOrdered(l, now) && LimitsKept(w, c, l)
    requires op.CheckRpm? ==> RpmLimit(c, op.key) == Some(op.limit)
    ensures LimitsKept(w, c, After(w, l, op, now))
  {
    hide RpmLimit, WithinLimit, LedgerOrdered, After;
    var l' := After(w, l, op, now);
    forall k | RpmLimit(c, k).Some?
      ensures WithinLimit(Of(l'.rpm, k), w, RpmLimit(c, k).value)
    {
      assert WithinLimit(Of(l.rpm, k), w, RpmLimit(c, k).value);
      AfterKeepsLimit(w, l, op, now, k, RpmLimit(c, k).value);
    }
  }

  lemma ArrivalSettles(c: Config, r: Request, cs: seq<Charge>, id: nat)
    requires forall i :: 0 <= i < |cs| ==> cs[i].id != id
    ensures Settled(c, r, START, cs, id)
  {
    forall k
      ensures Taken(cs, k, id) == 0
    {
      StrangerTookNothing(cs, k, id);
    }
  }

  lemma ArrivalKeepsSettled(c: Config, s: System, id: nat, r: Request)
    requires AllSettled(c, s) && id !in s.requests
    ensures AllSettled(c, s.(requests := s.requests[id := (r, START)]))
  {
    hide Settled;
    ArrivalSettles(c, r, s.charges, id);
  }

  lemma CheckKeepsSettled(w: nat, c: Config, s: System, id: nat, at: int)
    requires AllSettled(c, s) && id in s.requests && s.requests[id].1.At?
    ensures AllSettled(c, Step(w, c, s, Checks(id, at)))
  {
    hide Settled, Advance;
    var (r, p) := s.requests[id];
    var added := ChargeOf(w, c, s.ledger, r, p, id, at);
    var t := Step(w, c, s, Checks(id, at));
    AdvanceSettles(w, c, s.ledger, r, p, at, s.charges, id);
    if added == [] {
      assert t.charges == s.charges;
    } else {
      assert t.charges == s.charges + [added[0]] && added[0].id == id;
      forall j | j in s.requests && j != id
        ensures Settled(c, t.requests[j].0, t.requests[j].1, t.charges, j)
      {
        OthersStaySettled(c, s.requests[j].0, s.requests[j].1, s.charges, added[0], j);
      }
    }
  }

  lemma CheckKeepsSound(w: nat, c: Config, s: System, was: int, id: nat, at: int)
    requires Sound(w, c, s, was) && was <= at && id in s.requests && s.requests[id].1.At?
    ensures Sound(w, c, Step(w, c, s, Checks(id, at)), at)
  {
    hide LedgerOrdered, LimitsKept, AllSettled, After, Made, ChargeOf;
    var (r, p) := s.requests[id];
    CheckKeepsSettled(w, c, s, id, at);
    LedgerOrderedLater(s.ledger, was, at);
    if Made(c, r, p).Some? {
      var op := Made(c, r, p).value;
      AfterKeepsOrder(w, s.ledger, op, was, at);
      if op.CheckRpm? {
        MadeUsesBucketLimit(c, r, p);
      }
      AfterKeepsLimits(w, c, s.ledger, op, at);
    }
    var t := Step(w, c, s, Checks(id, at));
    forall k
      ensures Of(t.ledger.rpm, k) == Entries(t.charges, k)
    {
      AdvanceCharges(w, c, s.ledger, r, p, at, s.charges, id, k);
    }
  }

  lemma QuietOpKeepsSound(w: nat, c: Config, s: System, was: int, op: Op, at: int)
    requires Sound(w, c, s, was) && was <= at
    requires op.Record? || op.Cleanup?
    ensures Sound(w, c, s.(ledger := After(w, s.ledger, op, at)), at)
  {
    hide LedgerOrdered, LimitsKept, Settled;
    LedgerOrderedLater(s.ledger, was, at);
    AfterKeepsOrder(w, s.ledger, op, was, at);
    AfterKeepsLimits(w, c, s.ledger, op, at);
  }

  lemma StepKeepsSound(w: nat, c: Config, s: System, was: int, e: Event)
    requires Sound(w, c, s, was) && was <= e.at
    ensures Sound(w, c, Step(w, c, s, e), e.at)
  {
    hide Settled, Advance, ChargeOf, LimitsKept, LedgerOrdered;
    LedgerOrderedLater(s.ledger, was, e.at);
    match e
    case Arrives(id, r, _) => if id !in s.requests { ArrivalKeepsSettled(c, s, id, r); }
    case Checks(id, at) => if id in s.requests && s.requests[id].1.At? { CheckKeepsSound(w, c, s, was, id, at); }
    case Records(_, k, tokens, at) => QuietOpKeepsSound(w, c, s, was, Record(k, tokens), at);
    case Sweeps(busy, at) => QuietOpKeepsSound(w, c, s, was, Cleanup(busy), at);
  }

  lemma IdleIsSound(w: nat, c: Config, clock: int)
    ensures Sound(w, c, IDLE, clock)
  {
    hide RpmLimit;
    EmptyIsOrdered(clock);
  }

  lemma SoundLater(w: nat, c: Config, s: System, was: int, now: int)
    requires Sound(w, c, s, was) && was <= now
    ensures Sound(w, c, s, now)
  {
    hide LedgerOrdered, LimitsKept, Balanced, AllSettled;
    LedgerOrderedLater(s.ledger, was, now);
  }

  lemma {:induction false} RunIsSound(w: nat, c: Config, es: seq<Event>, upTo: int)
    requires InOrder(es, upTo)
    ensures Sound(w, c, Run(w, c, es), upTo)
  {
    hide Sound, Step;
    if es == [] {
      IdleIsSound(w, c, upTo);
    } else {
      var before, last := es[..|es| - 1], es[|es| - 1];
      RunIsSound(w, c, before, last.at);
      StepKeepsSound(w, c, Run(w, c, before), last.at, last);
      SoundLater(w, c, Run(w, c, es), last.at, upTo);
    }
  }

  // ---- What the accounts promise ----

  /** Every slot of `k` that `id` took, it took in (t - w, t]. */
  ghost predicate AllIn(cs: seq<Charge>, k: Key, id: nat, t: int, w: nat) {
    forall i :: 0 <= i < |cs| && cs[i].key == k && cs[i].id == id ==> t - w < cs[i].at <= t
  }

  /** Requests whose slots lie in a window are no more than the window holds. */
  lemma {:induction false} WindowHoldsTakers(cs: seq<Charge>, k: Key, ids: set<nat>, t: int, w: nat)
    requires forall id :: id in ids ==> Taken(cs, k, id) >= 1 && AllIn(cs, k, id, t, w)
    ensures |ids| <= WindowSum(Entries(cs, k), t, w)
  {
    hide AllIn;
    if cs == [] {
      assert forall id :: id in ids ==> Taken(cs, k, id) >= 1;
      assert ids == {};
    } else {
      var before, e := cs[..|cs| - 1], cs[|cs| - 1];
      var rest := if e.key == k then ids - {e.id} else ids;
      forall id | id in rest
        ensures Taken(before, k, id) >= 1 && AllIn(before, k, id, t, w)
      {
        assert Taken(cs, k, id) >= 1 && AllIn(cs, k, id, t, w);
        AllInBefore(cs, k, id, t, w);
      }
      WindowHoldsTakers(before, k, rest, t, w);
      if e.key == k {
        WindowSumSnoc(Entries(before, k), Entry(e.at, 1), t, w);
        if e.id in ids {
          AllInBefore(cs, k, e.id, t, w);
          assert |ids| == |rest| + 1;
        } else {
          assert ids == rest;
        }
      }
    }
  }

  lemma AllInBefore(cs: seq<Charge>, k: Key, id: nat, t: int, w: nat)
    requires cs != [] && AllIn(cs, k, id, t, w)
    ensures AllIn(cs[..|cs| - 1], k, id, t, w)
    ensures cs[|cs| - 1].key == k && cs[|cs| - 1].id == id ==> t - w < cs[|cs| - 1].at <= t
  {
  }

  /** An accepted request holds a slot of its key and model buckets, and of the primary one when sent there. */
  predicate Holds(r: Request, p: Progress, k: Key) {
    p.Accepted? && (k == KeyBucket(r) || k == ModelBucket(r) || (k == PrimaryBucket(r) && p.minPriority == 0))
  }

  /**
   Gateway-wide limits: take any bucket with a request limit and any window, wherever it ends.
   The requests that were accepted on that bucket with their check in that window are at most the
   limit: per (key, model), per model, and for requests sent to the primary tier per (model, protocol).
   */
  lemma AcceptedFitEveryWindow(w: nat, c: Config, es: seq<Event>, upTo: int, k: Key, ids: set<nat>, t: int)
    requires InOrder(es, upTo) && RpmLimit(c, k).Some?
    requires forall id :: id in ids ==> id in Run(w, c, es).requests
    requires forall id :: id in ids ==> Holds(Run(w, c, es).requests[id].0, Run(w, c, es).requests[id].1, k)
    requires forall id :: id in ids ==> AllIn(Run(w, c, es).charges, k, id, t, w)
    ensures |ids| <= RpmLimit(c, k).value
  {
    hide Run, AllIn, RpmLimit;
    RunIsSound(w, c, es, upTo);
    var s := Run(w, c, es);
    forall id | id in ids
      ensures Taken(s.charges, k, id) >= 1
    {
      assert Settled(c, s.requests[id].0, s.requests[id].1, s.charges, id);
    }
    WindowHoldsTakers(s.charges, k, ids, t, w);
    assert WithinLimit(Of(s.ledger.rpm, k), w, RpmLimit(c, k).value);
    assert Of(s.ledger.rpm, k) == Entries(s.charges, k);
  }

  /** A bucket in which exactly the requests of `ids` hold one slot each has as many entries as `ids` members. */
  lemma {:induction false} OneSlotEach(cs: seq<Charge>, k: Key, ids: set<nat>)
    requires forall id: nat :: Taken(cs, k, id) == if id in ids then 1 else 0
    ensures |Entries(cs, k)| == |ids|
  {
    if cs == [] {
      assert forall id: nat :: Taken(cs, k, id) == 0;
      assert ids == {};
    } else {
      var before, e := cs[..|cs| - 1], cs[|cs| - 1];
      var rest := if e.key == k then ids - {e.id} else ids;
      forall id: nat
        ensures Taken(before, k, id) == if id in rest then 1 else 0
      {
        assert Taken(cs, k, id) == if id in ids then 1 else 0;
      }
      OneSlotEach(before, k, rest);
      if e.key == k {
        assert Taken(cs, k, e.id) >= 1;
        assert |ids| == |rest| + 1;
      }
    }
  }

  lemma ModelSlotMeansPassed(c: Config, r: Request, p: Progress, cs: seq<Charge>, id: nat, model: string)
    requires Settled(c, r, p, cs, id) && RpmLimit(c, Model(model)).Some?
    ensures Taken(cs, Model(model), id) == if r.modelId == model && Passed(p, ModelRequests) then 1 else 0
    ensures Passed(p, ModelRequests) ==> !p.Refused?
  {
    hide RpmLimit;
  }

  lemma RefusalLeaves(c: Config, r: Request, p: Progress, cs: seq<Charge>, id: nat, k: Key)
    requires Settled(c, r, p, cs, id) && p.Refused?
    ensures p.failed.KeyTokens? || p.failed.ModelTokens? || p.failed.KeyRequests? || p.failed.ModelRequests?
    ensures !p.failed.ModelRequests? || k != KeyBucket(r) ==> Taken(cs, k, id) == 0
    ensures p.failed.ModelRequests? && RpmLimit(c, KeyBucket(r)).Some? ==> Taken(cs, KeyBucket(r), id) == 1
  {
    hide RpmLimit;
  }

  function PastModelCheck(s: System, model: string): set<nat> {
    set id | id in s.requests && s.requests[id].0.modelId == model && Passed(s.requests[id].1, ModelRequests)
  }

  function AcceptedFor(s: System, model: string): set<nat> {
    set id | id in s.requests && s.requests[id].0.modelId == model && s.requests[id].1.Accepted?
  }

  /**
   The model bucket holds exactly the requests that passed its check, one entry each, and none of
   those was refused or can be; once no admission is under way, exactly the accepted ones.
   */
  lemma ModelBucketHoldsTheAccepted(w: nat, c: Config, es: seq<Event>, upTo: int, model: string)
    requires InOrder(es, upTo) && RpmLimit(c, Model(model)).Some?
    ensures |Of(Run(w, c, es).ledger.rpm, Model(model))| == |PastModelCheck(Run(w, c, es), model)|
    ensures forall id :: id in PastModelCheck(Run(w, c, es), model) ==> !Run(w, c, es).requests[id].1.Refused?
    ensures (forall id :: id in Run(w, c, es).requests ==> !Run(w, c, es).requests[id].1.At?) ==>
              PastModelCheck(Run(w, c, es), model) == AcceptedFor(Run(w, c, es), model)
  {
    hide Run, RpmLimit, Settled, LimitsKept, LedgerOrdered;
    RunIsSound(w, c, es, upTo);
    var s := Run(w, c, es);
    var past := PastModelCheck(s, model);
    forall id: nat
      ensures Taken(s.charges, Model(model), id) == if id in past then 1 else 0
    {
      if id in s.requests {
        ModelSlotMeansPassed(c, s.requests[id].0, s.requests[id].1, s.charges, id, model);
      } else {
        StrangerTookNothing(s.charges, Model(model), id);
      }
    }
    OneSlotEach(s.charges, Model(model), past);
    assert Of(s.ledger.rpm, Model(model)) == Entries(s.charges, Model(model));
    forall id | id in past
      ensures !s.requests[id].1.Refused?
    {
      ModelSlotMeansPassed(c, s.requests[id].0, s.requests[id].1, s.charges, id, model);
    }
    if forall id :: id in s.requests ==> !s.requests[id].1.At? {
      assert past == AcceptedFor(s, model);
    }
  }

  /**
   What a refused request leaves behind: it was refused by one of the four client-facing checks,
   never by primary capacity; a token refusal took no slot of any bucket; a key refusal took none
   either, so the shared model and primary buckets are untouched; a model refusal took one slot of
   its own key bucket and nothing else.
   */
  lemma RefusalsChargeTheRequesterOnly(w: nat, c: Config, es: seq<Event>, upTo: int, id: nat, k: Key)
    requires InOrder(es, upTo)
    requires id in Run(w, c, es).requests && Run(w, c, es).requests[id].1.Refused?
    ensures var s := Run(w, c, es);
            var (r, p) := s.requests[id];
            && (p.failed.KeyTokens? || p.failed.ModelTokens? || p.failed.KeyRequests? || p.failed.ModelRequests?)
            && (!p.failed.ModelRequests? || k != KeyBucket(r) ==> Taken(s.charges, k, id) == 0)
            && (p.failed.ModelRequests? && RpmLimit(c, KeyBucket(r)).Some? ==> Taken(s.charges, KeyBucket(r), id) == 1)
  {
    hide Run, RpmLimit, Settled, LimitsKept, Balanced, LedgerOrdered;
    RunIsSound(w, c, es, upTo);
    var s := Run(w, c, es);
    RefusalLeaves(c, s.requests[id].0, s.requests[id].1, s.charges, id, k);
  }
}
