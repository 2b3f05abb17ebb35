/**
 AdmissionGate: `check_rate_limits` itself, over the in-process limiter, and the recording of
 tokens once a response is complete. The clock is read by each limiter call.
 */
module AdmissionGate {
  import opened Options
  import opened Windows
  import opened Admission
  import AdmissionOutcomes
  import opened MemoryLimiter

  /** What the router records after a successful response. */
  datatype RecordCtx = RecordCtx(
    modelId: string,
    protocol: string,
    recordKeyTpm: bool,
    recordModelTpm: bool,
    recordPrimaryTpm: bool)

  datatype Verdict =
    | Admitted(ctx: Option<RecordCtx>, minPriority: nat)
    | TooMany(failed: Check, limit: U32, retryAfterSecs: nat)

  /** All remaining checks of one request, each at its own time, with nobody in between. */
  function AdvanceAll(w: nat, c: Config, l: Ledger, r: Request, p: Progress, times: seq<int>): (Ledger, Progress)
    requires |times| == 6
    decreases if p.At? then 6 - Rank(p.check) else 0
  {
    if !p.At? then (l, p)
    else
      var (l', p') := Advance(w, c, l, r, p, times[Rank(p.check)]);
      AdvanceAll(w, c, l', r, p', times)
  }

  ghost predicate Rising(times: seq<int>, since: int) {
    && (forall i :: 0 <= i < |times| ==> since <= times[i])
    && (forall i, j :: 0 <= i < j < |times| ==> times[i] <= times[j])
  }

  /** Reading a bucket's tokens, when a limit is configured. */
  method CheckTokensIfLimited(rl: MemoryRateLimiter, key: Key, limit: Option<U32>, now: int) returns (d: Decision)
    requires rl.Valid() && rl.clock <= now
    modifies rl
    ensures rl.Valid() && rl.clock <= now && rl.ledger == old(rl.ledger)
    ensures d.Denied? <==> limit.Some? && !Allows(rl.window, old(rl.ledger), CheckTpm(key, limit.value), now)
    ensures d.Denied? ==> d.retryAfterSecs == rl.window / 1000
  {
    hide MemoryRateLimiter.Valid;
    d := Allow;
    if limit.Some? {
      d := rl.CheckTokens(key, limit.value, now);
    }
  }

  /** Taking a slot of a bucket, when a limit is configured. */
  method CheckRequestIfLimited(rl: MemoryRateLimiter, key: Key, limit: Option<U32>, now: int) returns (d: Decision)
    requires rl.Valid() && rl.clock <= now
    modifies rl
    ensures rl.Valid() && rl.clock <= now
    ensures limit.None? ==> rl.ledger == old(rl.ledger)
    ensures limit.Some? ==> rl.ledger == After(rl.window, old(rl.ledger), CheckRpm(key, limit.value), now)
    ensures d.Denied? <==> limit.Some? && !Allows(rl.window, old(rl.ledger), CheckRpm(key, limit.value), now)
    ensures d.Denied? ==> d.retryAfterSecs == rl.window / 1000
  {
    hide MemoryRateLimiter.Valid;
    d := Allow;
    if limit.Some? {
      d := rl.CheckRequest(key, limit.value, now);
    }
  }

  /** The interleaved machine when only request `id` makes checks. */
  function Alone(w: nat, c: Config, s: System, id: nat, times: seq<int>): System
    requires |times| == 6 && id in s.requests
    decreases if s.requests[id].1.At? then 6 - Rank(s.requests[id].1.check) else 0
  {
    var p := s.requests[id].1;
    if !p.At? then s else Alone(w, c, Admission.Step(w, c, s, Checks(id, times[Rank(p.check)])), id, times)
  }

  /** The six checks in a row are one run of the interleaved machine, so its theorems speak of them. */
  lemma {:induction false} AdvanceAllIsARun(w: nat, c: Config, s: System, id: nat, times: seq<int>)
    requires |times| == 6 && id in s.requests
    ensures var (r, p) := s.requests[id]; var t := Alone(w, c, s, id, times);
            id in t.requests && (t.ledger, t.requests[id].1) == AdvanceAll(w, c, s.ledger, r, p, times)
    decreases if s.requests[id].1.At? then 6 - Rank(s.requests[id].1.check) else 0
  {
    hide Made, After, Allows, ChargeOf;
    var p := s.requests[id].1;
    if p.At? {
      AdvanceAllIsARun(w, c, Admission.Step(w, c, s, Checks(id, times[Rank(p.check)])), id, times);
    }
  }

  /** A token check of a request, in the terms of the interleaved machine. */
  lemma TokenCheckIsAdvance(
      w: nat, c: Config, l: Ledger, r: Request, check: Check, k: Key, times: seq<int>, denied: bool)
    requires |times| == 6 && (check.KeyTokens? || check.ModelTokens? || check.PrimaryTokens?) && k == BucketOf(r, check)
    requires denied <==> TpmLimit(c, k).Some? && !Allows(w, l, CheckTpm(k, TpmLimit(c, k).value), times[Rank(check)])
    ensures AdvanceAll(w, c, l, r, At(check, 0), times) == AdvanceAll(w, c, l, r, Next(At(check, 0), denied), times)
  {
    hide Allows, TpmLimit, RpmLimit;
  }

  lemma RequestCheckIsAdvance(
      w: nat, c: Config, l: Ledger, r: Request, check: Check, k: Key, times: seq<int>, l': Ledger, denied: bool)
    requires |times| == 6 && k == BucketOf(r, check)
    requires check.KeyRequests? || check.ModelRequests? || check.PrimaryRequests?
    requires denied <==> RpmLimit(c, k).Some? && !Allows(w, l, CheckRpm(k, RpmLimit(c, k).value), times[Rank(check)])
    requires RpmLimit(c, k).None? ==> l' == l
    requires RpmLimit(c, k).Some? ==> l' == After(w, l, CheckRpm(k, RpmLimit(c, k).value), times[Rank(check)])
    ensures AdvanceAll(w, c, l, r, At(check, 0), times) == AdvanceAll(w, c, l', r, Next(At(check, 0), denied), times)
  {
    hide Allows, After, TpmLimit, RpmLimit;
  }

  lemma SpilledIsDone(w: nat, c: Config, l: Ledger, r: Request, times: seq<int>)
    requires |times| == 6
    ensures AdvanceAll(w, c, l, r, At(PrimaryTokens, 1), times) == (l, Accepted(1))
  {
  }

  lemma AdvanceAllDone(w: nat, c: Config, l: Ledger, r: Request, p: Progress, times: seq<int>)
    requires |times| == 6 && !p.At?
    ensures AdvanceAll(w, c, l, r, p, times) == (l, p)
  {
  }

  /** Without any limit there is nothing to check. */
  lemma UnlimitedIsAdmitted(w: nat, c: Config, l: Ledger, r: Request, times: seq<int>)
    requires |times| == 6
    requires forall k :: k in {KeyBucket(r), ModelBucket(r), PrimaryBucket(r)} ==>
               RpmLimit(c, k).None? && TpmLimit(c, k).None?
    ensures AdvanceAll(w, c, l, r, START, times) == (l, Accepted(0))
  {
    hide Allows, After, TpmLimit, RpmLimit, AdvanceAll;
    TokenCheckIsAdvance(w, c, l, r, KeyTokens, KeyBucket(r), times, false);
    TokenCheckIsAdvance(w, c, l, r, ModelTokens, ModelBucket(r), times, false);
    RequestCheckIsAdvance(w, c, l, r, KeyRequests, KeyBucket(r), times, l, false);
    RequestCheckIsAdvance(w, c, l, r, ModelRequests, ModelBucket(r), times, l, false);
    RequestCheckIsAdvance(w, c, l, r, PrimaryRequests, PrimaryBucket(r), times, l, false);
    TokenCheckIsAdvance(w, c, l, r, PrimaryTokens, PrimaryBucket(r), times, false);
    AdvanceAllDone(w, c, l, r, Accepted(0), times);
  }

  /** Where a verdict leaves the machine. */
  function ProgressOf(v: Verdict): Progress {
    match v
    case Admitted(_, minPriority) => Accepted(minPriority)
    case TooMany(failed, _, _) => Refused(failed)
  }

  // ---- The answer, told from the windows before the request ----

  /** There is a limit and the window has reached it. */
  predicate Full(w: nat, h: seq<Entry>, limit: Option<U32>, now: int) {
    limit.Some? && WindowSum(h, now, w) >= limit.value
  }

  predicate TokensFull(w: nat, c: Config, l: Ledger, k: Key, now: int) {
    Full(w, Of(l.tpm, k), TpmLimit(c, k), now)
  }

  predicate RequestsFull(w: nat, c: Config, l: Ledger, k: Key, now: int) {
    Full(w, Of(l.rpm, k), RpmLimit(c, k), now)
  }

  /** Primary capacity is used up, in requests or, when these have room, in tokens. */
  predicate PrimaryFull(w: nat, c: Config, l: Ledger, r: Request, times: seq<int>)
    requires |times| == 6
  {
    RequestsFull(w, c, l, PrimaryBucket(r), times[4]) || TokensFull(w, c, l, PrimaryBucket(r), times[5])
  }

  /** Refused at the first full bucket; otherwise the fallback tier exactly when primary capacity is used up. */
  function Answer(w: nat, c: Config, l: Ledger, r: Request, times: seq<int>): Progress
    requires |times| == 6
  {
    if TokensFull(w, c, l, KeyBucket(r), times[0]) then Refused(KeyTokens)
    else if TokensFull(w, c, l, ModelBucket(r), times[1]) then Refused(ModelTokens)
    else if RequestsFull(w, c, l, KeyBucket(r), times[2]) then Refused(KeyRequests)
    else if RequestsFull(w, c, l, ModelBucket(r), times[3]) then Refused(ModelRequests)
    else Accepted(if PrimaryFull(w, c, l, r, times) then 1 else 0)
  }

  /** The slot taken in bucket `k`: each limited bucket that the request got as far as and that had room. */
  function SlotTaken(w: nat, c: Config, l: Ledger, r: Request, times: seq<int>, k: Key): seq<Entry>
    requires |times| == 6
  {
    var answer := Answer(w, c, l, r, times);
    var room := RpmLimit(c, k).Some?;
    match k
    case KeyModel(_, _) =>
      if room && k == KeyBucket(r) && (answer.Accepted? || answer == Refused(ModelRequests)) then [Entry(times[2], 1)]
      else []
    case Model(_) =>
      if room && k == ModelBucket(r) && answer.Accepted? then [Entry(times[3], 1)] else []
    case PrimaryTier(_, _) =>
      if room && k == PrimaryBucket(r) && answer.Accepted? && !RequestsFull(w, c, l, k, times[4])
      then [Entry(times[4], 1)]
      else []
  }

  function AfterRequestCheck(w: nat, c: Config, l: Ledger, k: Key, now: int): Ledger {
    if RpmLimit(c, k).None? then l else After(w, l, CheckRpm(k, RpmLimit(c, k).value), now)
  }

  /** A request check touches one bucket, and that only if it has a limit and room. */
  lemma RequestCheckTouches(w: nat, c: Config, l: Ledger, k: Key, now: int, j: Key)
    ensures var l' := AfterRequestCheck(w, c, l, k, now);
            && l'.tpm == l.tpm
            && Of(l'.rpm, j) == Of(l.rpm, j) + (if j == k && RpmLimit(c, k).Some? && !RequestsFull(w, c, l, k, now)
                                                then [Entry(now, 1)] else [])
  {
    hide RpmLimit, TpmLimit, WindowSum;
    assert Of(l.rpm, j) + [] == Of(l.rpm, j);
  }

  lemma TokenStage(w: nat, c: Config, l: Ledger, r: Request, check: Check, k: Key, times: seq<int>)
    requires |times| == 6 && AdmissionOutcomes.ReadsTokens(check) && k == BucketOf(r, check)
    ensures AdvanceAll(w, c, l, r, At(check, 0), times) ==
            AdvanceAll(w, c, l, r, Next(At(check, 0), TokensFull(w, c, l, k, times[Rank(check)])), times)
  {
    hide AdvanceAll, TpmLimit, RpmLimit, WindowSum, Next;
    TokenCheckIsAdvance(w, c, l, r, check, k, times, TokensFull(w, c, l, k, times[Rank(check)]));
  }

  lemma RequestStage(w: nat, c: Config, l: Ledger, r: Request, check: Check, k: Key, times: seq<int>)
    requires |times| == 6 && !AdmissionOutcomes.ReadsTokens(check) && k == BucketOf(r, check)
    ensures var now := times[Rank(check)];
            AdvanceAll(w, c, l, r, At(check, 0), times) ==
            AdvanceAll(w, c, AfterRequestCheck(w, c, l, k, now), r,
              Next(At(check, 0), RequestsFull(w, c, l, k, now)), times)
  {
    hide AdvanceAll, TpmLimit, RpmLimit, WindowSum, After, Next;
    var now := times[Rank(check)];
    RequestCheckIsAdvance(w, c, l, r, check, k, times,
      AfterRequestCheck(w, c, l, k, now), RequestsFull(w, c, l, k, now));
  }

  /** The last two checks, when the client-facing ones have let the request through. */
  lemma PrimaryStages(w: nat, c: Config, l: Ledger, r: Request, times: seq<int>)
    requires |times| == 6
    ensures AdvanceAll(w, c, l, r, At(PrimaryRequests, 0), times) ==
            (AfterRequestCheck(w, c, l, PrimaryBucket(r), times[4]),
             Accepted(if PrimaryFull(w, c, l, r, times) then 1 else 0))
  {
    hide AdvanceAll, TpmLimit, RpmLimit, Full, AfterRequestCheck;
    var k := PrimaryBucket(r);
    var l' := AfterRequestCheck(w, c, l, k, times[4]);
    RequestStage(w, c, l, r, PrimaryRequests, k, times);
    RequestCheckTouches(w, c, l, k, times[4], k);
    if RequestsFull(w, c, l, k, times[4]) {
      SpilledIsDone(w, c, l', r, times);
    } else {
      TokenStage(w, c, l', r, PrimaryTokens, k, times);
      AdvanceAllDone(w, c, l', r, Accepted(if TokensFull(w, c, l', k, times[5]) then 1 else 0), times);
    }
  }

  /** The buckets of one request are three different ones. */
  lemma OtherBucketsKeepTheirRoom(w: nat, c: Config, l: Ledger, k: Key, now: int, j: Key, later: int)
    requires j != k
    ensures var l' := AfterRequestCheck(w, c, l, k, now);
            && (RequestsFull(w, c, l', j, later) <==> RequestsFull(w, c, l, j, later))
            && (TokensFull(w, c, l', j, later) <==> TokensFull(w, c, l, j, later))
  {
    hide AfterRequestCheck, RpmLimit, TpmLimit, Full;
    RequestCheckTouches(w, c, l, k, now, j);
    assert Of(l.rpm, j) + [] == Of(l.rpm, j);
  }

  /** The history after the request checks that were made. */
  ghost function LedgerAfter(w: nat, c: Config, l: Ledger, r: Request, times: seq<int>): Ledger
    requires |times| == 6
  {
    var answer := Answer(w, c, l, r, times);
    var afterKey := AfterRequestCheck(w, c, l, KeyBucket(r), times[2]);
    var afterModel := AfterRequestCheck(w, c, afterKey, ModelBucket(r), times[3]);
    if answer == Refused(KeyTokens) || answer == Refused(ModelTokens) then l
    else if answer == Refused(KeyRequests) then afterKey
    else if answer == Refused(ModelRequests) then afterModel
    else AfterRequestCheck(w, c, afterModel, PrimaryBucket(r), times[4])
  }

  /** The six checks in a row give the answer told from the windows, and leave the history so told. */
  lemma GateStages(w: nat, c: Config, l: Ledger, r: Request, times: seq<int>)
    requires |times| == 6
    ensures AdvanceAll(w, c, l, r, START, times) == (LedgerAfter(w, c, l, r, times), Answer(w, c, l, r, times))
  {
    hide AdvanceAll, TpmLimit, RpmLimit, Full, AfterRequestCheck, RequestsFull, TokensFull;
    var key, model, primary := KeyBucket(r), ModelBucket(r), PrimaryBucket(r);
    var afterKey := AfterRequestCheck(w, c, l, key, times[2]);
    var afterModel := AfterRequestCheck(w, c, afterKey, model, times[3]);
    TokenStage(w, c, l, r, KeyTokens, key, times);
    TokenStage(w, c, l, r, ModelTokens, model, times);
    RequestStage(w, c, l, r, KeyRequests, key, times);
    RequestStage(w, c, afterKey, r, ModelRequests, model, times);
    PrimaryStages(w, c, afterModel, r, times);
    OtherBucketsKeepTheirRoom(w, c, l, key, times[2], model, times[3]);
    OtherBucketsKeepTheirRoom(w, c, l, key, times[2], primary, times[4]);
    OtherBucketsKeepTheirRoom(w, c, l, key, times[2], primary, times[5]);
    OtherBucketsKeepTheirRoom(w, c, afterKey, model, times[3], primary, times[4]);
    OtherBucketsKeepTheirRoom(w, c, afterKey, model, times[3], primary, times[5]);
    AdvanceAllDone(w, c, l, r, Refused(KeyTokens), times);
    AdvanceAllDone(w, c, l, r, Refused(ModelTokens), times);
    AdvanceAllDone(w, c, afterKey, r, Refused(KeyRequests), times);
    AdvanceAllDone(w, c, afterModel, r, Refused(ModelRequests), times);
  }

  /** What the request leaves in bucket `k`: one slot at most, none in any token bucket. */
  lemma LedgerAfterSlots(w: nat, c: Config, l: Ledger, r: Request, times: seq<int>, k: Key)
    requires |times| == 6
    ensures LedgerAfter(w, c, l, r, times).tpm == l.tpm
    ensures Of(LedgerAfter(w, c, l, r, times).rpm, k) == Of(l.rpm, k) + SlotTaken(w, c, l, r, times, k)
  {
    hide TpmLimit, RpmLimit, Full, AfterRequestCheck, RequestsFull, TokensFull, Of;
    var key, model, primary := KeyBucket(r), ModelBucket(r), PrimaryBucket(r);
    var afterKey := AfterRequestCheck(w, c, l, key, times[2]);
    var afterModel := AfterRequestCheck(w, c, afterKey, model, times[3]);
    RequestCheckTouches(w, c, l, key, times[2], k);
    RequestCheckTouches(w, c, afterKey, model, times[3], k);
    RequestCheckTouches(w, c, afterModel, primary, times[4], k);
    OtherBucketsKeepTheirRoom(w, c, l, key, times[2], model, times[3]);
    OtherBucketsKeepTheirRoom(w, c, l, key, times[2], primary, times[4]);
    OtherBucketsKeepTheirRoom(w, c, afterKey, model, times[3], primary, times[4]);
    var h := Of(l.rpm, k);
    assert h + [] == h && h + [] + [] == h && h + [] + [] + [] == h;
    assert forall e: Entry :: h + [e] + [] == h + [e];
    assert forall e: Entry :: h + [] + [e] == h + [e];
  }

  /** The buckets whose tokens are to be recorded: the configured ones, the primary one only when sent there. */
  function CtxFor(c: Config, r: Request, minPriority: nat): Option<RecordCtx> {
    var ctx := RecordCtx(r.modelId, r.protocol,
                         TpmLimit(c, KeyBucket(r)).Some?, TpmLimit(c, ModelBucket(r)).Some?,
                         TpmLimit(c, PrimaryBucket(r)).Some? && minPriority == 0);
    if ctx.recordKeyTpm || ctx.recordModelTpm || ctx.recordPrimaryTpm then Some(ctx) else None
  }

  /**
   Refuses, or picks the lowest tier the request may use. The limiter's history and the outcome are
   those of the six checks in order; a gateway without a limiter admits everything.
   */
  method CheckRateLimits(limiter: MemoryRateLimiter?, c: Config, r: Request, times: seq<int>) returns (v: Verdict)
    requires |times| == 6
    requires limiter != null ==> limiter.Valid() && Rising(times, limiter.clock)
    modifies limiter
    ensures limiter == null ==> v == Admitted(None, 0)
    ensures limiter != null ==> limiter.Valid()
    ensures limiter != null ==>
              (limiter.ledger, ProgressOf(v)) == AdvanceAll(limiter.window, c, old(limiter.ledger), r, START, times)
    ensures limiter != null ==> ProgressOf(v) == Answer(limiter.window, c, old(limiter.ledger), r, times)
    ensures limiter != null ==> limiter.ledger == LedgerAfter(limiter.window, c, old(limiter.ledger), r, times)
    ensures limiter != null && v.Admitted? ==> v.ctx == CtxFor(c, r, v.minPriority)
    ensures v.TooMany? ==> limiter != null && AdmissionOutcomes.LimitAt(c, r, v.failed) == Some(v.limit)
    ensures v.TooMany? ==> v.retryAfterSecs == limiter.window / 1000
  {
    hide AdvanceAll, After, Allows, RpmLimit, TpmLimit, MemoryRateLimiter.Valid, Answer, LedgerAfter;
    if limiter == null {
      return Admitted(None, 0);
    }
    GateStages(limiter.window, c, limiter.ledger, r, times);
    var keyModelKey, modelKey := KeyModel(r.apiKeyId, r.modelId), Model(r.modelId);
    var primaryKey := PrimaryTier(r.modelId, r.protocol);
    var keyRpm, keyTpm := RpmLimit(c, keyModelKey), TpmLimit(c, keyModelKey);
    var modelRpm, modelTpm := RpmLimit(c, modelKey), TpmLimit(c, modelKey);
    var primaryRpm, primaryTpm := RpmLimit(c, primaryKey), TpmLimit(c, primaryKey);
    ghost var w, l := limiter.window, limiter.ledger;
    if keyRpm.None? && keyTpm.None? && modelRpm.None? && modelTpm.None? && primaryRpm.None? && primaryTpm.None? {
      UnlimitedIsAdmitted(w, c, l, r, times);
      return Admitted(None, 0);
    }

    var d := CheckTokensIfLimited(limiter, keyModelKey, keyTpm, times[0]);
    TokenCheckIsAdvance(w, c, l, r, KeyTokens, keyModelKey, times, d.Denied?);
    if d.Denied? {
      AdvanceAllDone(w, c, l, r, Refused(KeyTokens), times);
      return TooMany(KeyTokens, keyTpm.value, d.retryAfterSecs);
    }
    d := CheckTokensIfLimited(limiter, modelKey, modelTpm, times[1]);
    TokenCheckIsAdvance(w, c, l, r, ModelTokens, modelKey, times, d.Denied?);
    if d.Denied? {
      AdvanceAllDone(w, c, l, r, Refused(ModelTokens), times);
      return TooMany(ModelTokens, modelTpm.value, d.retryAfterSecs);
    }
    d := CheckRequestIfLimited(limiter, keyModelKey, keyRpm, times[2]);
    RequestCheckIsAdvance(w, c, l, r, KeyRequests, keyModelKey, times, limiter.ledger, d.Denied?);
    if d.Denied? {
      AdvanceAllDone(w, c, limiter.ledger, r, Refused(KeyRequests), times);
      return TooMany(KeyRequests, keyRpm.value, d.retryAfterSecs);
    }
    l := limiter.ledger;
    d := CheckRequestIfLimited(limiter, modelKey, modelRpm, times[3]);
    RequestCheckIsAdvance(w, c, l, r, ModelRequests, modelKey, times, limiter.ledger, d.Denied?);
    if d.Denied? {
      AdvanceAllDone(w, c, limiter.ledger, r, Refused(ModelRequests), times);
      return TooMany(ModelRequests, modelRpm.value, d.retryAfterSecs);
    }

    var minPriority := CheckPrimary(limiter, c, r, primaryKey, primaryRpm, primaryTpm, times);
    var recordKeyTpm, recordModelTpm := keyTpm.Some?, modelTpm.Some?;
    var recordPrimaryTpm := primaryTpm.Some? && minPriority == 0;
    if recordKeyTpm || recordModelTpm || recordPrimaryTpm {
      var ctx := RecordCtx(r.modelId, r.protocol, recordKeyTpm, recordModelTpm, recordPrimaryTpm);
      v := Admitted(Some(ctx), minPriority);
    } else {
      v := Admitted(None, minPriority);
    }
  }

  /** The last two checks, which never refuse but may send the request to the fallback tier. */
  method CheckPrimary(limiter: MemoryRateLimiter, c: Config, r: Request, primaryKey: Key,
                      primaryRpm: Option<U32>, primaryTpm: Option<U32>, times: seq<int>)
    returns (minPriority: nat)
    requires |times| == 6 && limiter.Valid() && limiter.clock <= times[4] <= times[5]
    requires primaryKey == PrimaryBucket(r)
    requires primaryRpm == RpmLimit(c, primaryKey) && primaryTpm == TpmLimit(c, primaryKey)
    modifies limiter
    ensures limiter.Valid()
    ensures (limiter.ledger, Accepted(minPriority)) ==
            AdvanceAll(limiter.window, c, old(limiter.ledger), r, At(PrimaryRequests, 0), times)
  {
    hide AdvanceAll, After, Allows, RpmLimit, TpmLimit, MemoryRateLimiter.Valid;
    ghost var w, l := limiter.window, limiter.ledger;
    minPriority := 0;
    var d := CheckRequestIfLimited(limiter, primaryKey, primaryRpm, times[4]);
    RequestCheckIsAdvance(w, c, l, r, PrimaryRequests, primaryKey, times, limiter.ledger, d.Denied?);
    l := limiter.ledger;
    if d.Denied? {
      minPriority := 1;
      SpilledIsDone(w, c, l, r, times);
    }
    if minPriority == 0 {
      d := CheckTokensIfLimited(limiter, primaryKey, primaryTpm, times[5]);
      TokenCheckIsAdvance(w, c, l, r, PrimaryTokens, primaryKey, times, d.Denied?);
      if d.Denied? {
        minPriority := 1;
      }
      AdvanceAllDone(w, c, l, r, Accepted(minPriority), times);
    }
  }

  // ---- After the response ----

  /** What recording in bucket `key` adds to the history of bucket `k`. */
  function Added(on: bool, key: Key, k: Key, tokens: U32, at: int): seq<Entry> {
    if on && key == k then [Entry(at, tokens)] else []
  }

  /** What recording a response adds to the history of bucket `k`. */
  function TokensAdded(ctx: RecordCtx, apiKeyId: string, tokens: U32, times: seq<int>, k: Key): seq<Entry>
    requires |times| == 3
  {
    if tokens == 0 then []
    else
      match k
      case KeyModel(_, _) => Added(ctx.recordKeyTpm, KeyModel(apiKeyId, ctx.modelId), k, tokens, times[0])
      case Model(_) => Added(ctx.recordModelTpm, Model(ctx.modelId), k, tokens, times[1])
      case PrimaryTier(_, _) => Added(ctx.recordPrimaryTpm, PrimaryTier(ctx.modelId, ctx.protocol), k, tokens, times[2])
  }

  /** The context of one attempt: an upstream of the fallback tier does not count against primary capacity. */
  function ForAttempt(ctx: RecordCtx, priority: nat): RecordCtx {
    ctx.(recordPrimaryTpm := ctx.recordPrimaryTpm && priority == 0)
  }

  /**
   Where a response's tokens go, for an attempt on an upstream of the given tier: exactly to the
   request's own buckets that have a token limit, all of them and once, and to the primary bucket only
   when the request was sent to the primary tier and landed there. Without a context there is no such
   bucket.
   */
  lemma TokensGoToLimitedBuckets(
      c: Config, r: Request, minPriority: nat, priority: nat, tokens: U32, times: seq<int>, k: Key)
    requires |times| == 3
    ensures var ctx := CtxFor(c, r, minPriority);
            var counts := TpmLimit(c, k).Some? && (|| k == KeyBucket(r)
                                                   || k == ModelBucket(r)
                                                   || (k == PrimaryBucket(r) && minPriority == 0 && priority == 0));
            var at := if k.KeyModel? then times[0] else if k.Model? then times[1] else times[2];
            && (ctx.Some? ==> TokensAdded(ForAttempt(ctx.value, priority), r.apiKeyId, tokens, times, k) ==
                                if counts && tokens > 0 then [Entry(at, tokens)] else [])
            && (ctx.None? ==> !counts)
  {
    hide TpmLimit;
  }

  /** A bucket is of one kind, so at most one of the three recordings is for it. */
  lemma AddedInTurn(
      ctx: RecordCtx, apiKeyId: string, tokens: U32, times: seq<int>, k: Key, h0: seq<Entry>, h1: seq<Entry>,
      h2: seq<Entry>)
    requires |times| == 3 && tokens > 0
    requires h1 == h0 + Added(ctx.recordKeyTpm, KeyModel(apiKeyId, ctx.modelId), k, tokens, times[0])
    requires h2 == h1 + Added(ctx.recordModelTpm, Model(ctx.modelId), k, tokens, times[1])
    ensures h2 + Added(ctx.recordPrimaryTpm, PrimaryTier(ctx.modelId, ctx.protocol), k, tokens, times[2])
         == h0 + TokensAdded(ctx, apiKeyId, tokens, times, k)
  {
    assert h0 + [] == h0 && h1 + [] == h1 && h2 + [] == h2;
  }

  method RecordIf(limiter: MemoryRateLimiter, on: bool, key: Key, tokens: U32, now: int)
    requires limiter.Valid() && limiter.clock <= now && tokens > 0
    modifies limiter
    ensures limiter.Valid() && limiter.clock <= now && limiter.ledger.rpm == old(limiter.ledger.rpm)
    ensures forall k :: Of(limiter.ledger.tpm, k) == Of(old(limiter.ledger.tpm), k) + Added(on, key, k, tokens, now)
  {
    hide MemoryRateLimiter.Valid;
    if on {
      limiter.RecordTokens(key, tokens, now);
    }
  }

  /** Adds the tokens of one response to each bucket the context names, once, and to no other. */
  method RecordTokens(limiter: MemoryRateLimiter, ctx: RecordCtx, apiKeyId: string, tokens: U32, times: seq<int>)
    requires |times| == 3 && limiter.Valid() && limiter.clock <= times[0] <= times[1] <= times[2]
    modifies limiter
    ensures limiter.Valid() && limiter.ledger.rpm == old(limiter.ledger.rpm)
    ensures forall k ::
              Of(limiter.ledger.tpm, k) == Of(old(limiter.ledger.tpm), k) + TokensAdded(ctx, apiKeyId, tokens, times, k)
  {
    if tokens == 0 {
      return;
    }
    hide Of, Added, TokensAdded, MemoryRateLimiter.Valid;
    ghost var h0 := limiter.ledger.tpm;
    RecordIf(limiter, ctx.recordKeyTpm, KeyModel(apiKeyId, ctx.modelId), tokens, times[0]);
    ghost var h1 := limiter.ledger.tpm;
    RecordIf(limiter, ctx.recordModelTpm, Model(ctx.modelId), tokens, times[1]);
    ghost var h2 := limiter.ledger.tpm;
    RecordIf(limiter, ctx.recordPrimaryTpm, PrimaryTier(ctx.modelId, ctx.protocol), tokens, times[2]);
    forall k
      ensures Of(limiter.ledger.tpm, k) == Of(h0, k) + TokensAdded(ctx, apiKeyId, tokens, times, k)
    {
      AddedInTurn(ctx, apiKeyId, tokens, times, k, Of(h0, k), Of(h1, k), Of(h2, k));
    }
  }
}
