/**
 The retry loop of core/src/upstream/retry.rs around the per-attempt selection, breaker
 recording and token recording of server/src/router.rs (the buffered-response path). The
 upstreams' answers are parameters; delays are not modelled.
 */
module Retry {
  import opened Options
  import opened CircuitBreakers
  import opened Upstreams
  import opened UpstreamObjects
  import BreakerHistory
  import Failover
  import Rendezvous

  /** What happens to an attempt `n`: when it selects and ends, and how the upstream answers. */
  datatype Outcome = NoContact | BadBody | Response(status: nat, tokens: nat)
  datatype Answer = Answer(selectAt: nat, endAt: nat, outcome: Outcome)
  type Answers = nat -> Answer

  const NOT_FOUND := 404
  const INTERNAL_ERROR := 500
  const UNAVAILABLE := 503

  predicate IsRetryableStatus(status: nat) {
    status in {408, 429, 500, 502, 503, 504}
  }

  predicate IsSuccess(status: nat) {
    200 <= status < 300
  }

  lemma RetriesAreNotSuccesses(status: nat)
    ensures !(IsRetryableStatus(status) && IsSuccess(status))
  {
  }

  predicate Succeeds(a: Answer) {
    a.outcome.Response? && IsSuccess(a.outcome.status)
  }

  /** The status the client would see after this attempt. */
  function StatusOf(picked: Option<nat>, a: Answer): nat {
    if picked.None? then NOT_FOUND
    else match a.outcome
      case NoContact => UNAVAILABLE
      case BadBody => INTERNAL_ERROR
      case Response(status, _) => status
  }

  /** How an attempt on binding `i` ends. */
  function EndOf(id: nat, i: nat, a: Answer): Failover.Event {
    if Succeeds(a) then Failover.Succeeded(id, i, a.endAt) else Failover.Failed(id, i, a.endAt)
  }

  /** The number that a request alone on the group goes by. */
  const ALONE: nat := 0

  /** One attempt as events on the group: a selection, and the outcome of what it picked. */
  function AttemptEvents(picked: Option<nat>, r: Request, a: Answer): (es: seq<Failover.Event>)
    ensures forall k :: 0 <= k < |es| ==> es[k].Selection? || (picked.Some? && es[k].i == picked.value)
  {
    match picked
    case None => [Failover.Selection(ALONE, r, a.selectAt)]
    case Some(i) => [Failover.Selection(ALONE, r, a.selectAt), EndOf(ALONE, i, a)]
  }

  /** The tokens an attempt records: those of a success, once, unless there are none. */
  function RecordedBy(picked: Option<nat>, a: Answer): seq<nat> {
    if picked.Some? && Succeeds(a) && a.outcome.tokens > 0 then [a.outcome.tokens] else []
  }

  /** The group after one attempt. */
  ghost function AfterAttempt(g: Group, h: Rendezvous.Digest, r: Request, a: Answer): (after: Group)
    requires ValidBindings(g.bindings)
    ensures |after.bindings| == |g.bindings|
  {
    var (after, picked) := Select(g, h, r, a.selectAt);
    match picked
    case None => after
    case Some(i) => WithOutcome(after, i, Succeeds(a), a.endAt)
  }

  ghost function PickedBy(g: Group, h: Rendezvous.Digest, r: Request, a: Answer): (picked: Option<nat>)
    requires ValidBindings(g.bindings)
    ensures picked.Some? ==> picked.value < |g.bindings|
  {
    Select(g, h, r, a.selectAt).1
  }

  function NoEvents(n: nat): (es: seq<Failover.Event>)
    ensures es == [] && Failover.ValidEvents(es, n)
  {
    []
  }

  lemma ValidAppend(a: seq<Failover.Event>, b: seq<Failover.Event>, n: nat)
    requires Failover.ValidEvents(a, n)
    requires forall k :: 0 <= k < |b| ==> b[k].Selection? || b[k].i < n
    ensures Failover.ValidEvents(a + b, n)
  {
  }

  /** The events of the first `n` attempts. */
  ghost function Events(g: Group, h: Rendezvous.Digest, r: Request, answers: Answers, n: nat): (es: seq<Failover.Event>)
    requires ValidBindings(g.bindings)
    ensures Failover.ValidEvents(es, |g.bindings|)
  {
    hide Select, PickedBy, Failover.Run, AttemptEvents, Failover.ValidEvents;
    if n == 0 then NoEvents(|g.bindings|)
    else
      var before := Events(g, h, r, answers, n - 1);
      var more := AttemptEvents(PickedBy(Failover.Run(g, h, before), h, r, answers(n - 1)), r, answers(n - 1));
      ValidAppend(before, more, |g.bindings|);
      before + more
  }

  /** The group when attempt `n` starts. */
  ghost function At(g: Group, h: Rendezvous.Digest, r: Request, answers: Answers, n: nat): (now: Group)
    requires ValidBindings(g.bindings)
    ensures Failover.SameConfiguration(g, now) && ValidBindings(now.bindings)
  {
    Failover.Run(g, h, Events(g, h, r, answers, n))
  }

  /** The status attempt `n` ends with. */
  ghost function Status(g: Group, h: Rendezvous.Digest, r: Request, answers: Answers, n: nat): nat
    requires ValidBindings(g.bindings)
  {
    StatusOf(PickedBy(At(g, h, r, answers, n), h, r, answers(n)), answers(n))
  }

  lemma RunOne(g: Group, h: Rendezvous.Digest, es: seq<Failover.Event>, e: Failover.Event)
    requires ValidBindings(g.bindings) && Failover.ValidEvents(es + [e], |g.bindings|)
    ensures Failover.ValidEvents(es, |g.bindings|)
    ensures var was := Failover.Run(g, h, es);
            && ValidBindings(was.bindings) && |was.bindings| == |g.bindings|
            && Failover.Run(g, h, es + [e]) == Failover.Apply(was, h, e)
  {
    var all := es + [e];
    assert all[..|all| - 1] == es && all[|all| - 1] == e;
    assert forall k :: 0 <= k < |es| ==> es[k] == all[k];
  }

  /** An attempt is its events. */
  lemma AttemptIsItsEvents(g: Group, h: Rendezvous.Digest, r: Request, answers: Answers, n: nat)
    requires ValidBindings(g.bindings)
    ensures At(g, h, r, answers, n + 1) == AfterAttempt(At(g, h, r, answers, n), h, r, answers(n))
    ensures Status(g, h, r, answers, n) == StatusOf(PickedBy(At(g, h, r, answers, n), h, r, answers(n)), answers(n))
    ensures At(g, h, r, answers, 0) == g
  {
    hide Select;
    var es, a := Events(g, h, r, answers, n), answers(n);
    var was := At(g, h, r, answers, n);
    var first := Failover.Selection(ALONE, r, a.selectAt);
    RunOne(g, h, es, first);
    var picked := PickedBy(was, h, r, a);
    if picked.Some? {
      var i := picked.value;
      var second := EndOf(ALONE, i, a);
      assert es + AttemptEvents(picked, r, a) == es + [first] + [second];
      RunOne(g, h, es + [first], second);
    }
  }

  /** One attempt: select, call the upstream, record its outcome and, on success, its tokens. */
  method Attempt(group: UpstreamGroup, r: Request, a: Answer) returns (status: nat, recorded: seq<nat>)
    requires group.Valid()
    modifies group`cursor, group.upstreams`currentWeight, group.Breakers()
    ensures ValidBindings(old(group.View()).bindings)
    ensures status == StatusOf(PickedBy(old(group.View()), group.digest, r, a), a)
    ensures group.View() == AfterAttempt(old(group.View()), group.digest, r, a)
    ensures recorded == RecordedBy(PickedBy(old(group.View()), group.digest, r, a), a)
  {
    hide Select, WithOutcome, ValidBindings, UpstreamGroup.View, UpstreamGroup.Valid;
    recorded := [];
    var picked := group.SelectWithMinPriority(r, a.selectAt);
    match picked {
      case None =>
        status := NOT_FOUND;
      case Some(i) =>
        match a.outcome {
          case NoContact =>
            group.RecordOutcome(i, false, a.endAt);
            status := UNAVAILABLE;
          case BadBody =>
            group.RecordOutcome(i, false, a.endAt);
            status := INTERNAL_ERROR;
          case Response(answered, tokens) =>
            status := answered;
            if IsSuccess(answered) {
              group.RecordOutcome(i, true, a.endAt);
              if tokens > 0 {
                recorded := recorded + [tokens];
              }
            } else {
              group.RecordOutcome(i, false, a.endAt);
            }
        }
    }
  }

  /** The tokens that attempt `n` records. */
  ghost function Recorded(g: Group, h: Rendezvous.Digest, r: Request, answers: Answers, n: nat): seq<nat>
    requires ValidBindings(g.bindings)
  {
    RecordedBy(PickedBy(At(g, h, r, answers, n), h, r, answers(n)), answers(n))
  }

  /** Only a success records, and a success is not retried. */
  lemma OnlySuccessRecords(g: Group, h: Rendezvous.Digest, r: Request, answers: Answers, n: nat)
    requires ValidBindings(g.bindings)
    ensures Recorded(g, h, r, answers, n) != [] ==> IsSuccess(Status(g, h, r, answers, n))
    ensures IsRetryableStatus(Status(g, h, r, answers, n)) ==> Recorded(g, h, r, answers, n) == []
  {
    hide At, Select;
    RetriesAreNotSuccesses(Status(g, h, r, answers, n));
  }

  /** Attempt `n` of the loop, on the group as the earlier attempts left it. */
  method AttemptNumber(group: UpstreamGroup, r: Request, answers: Answers, n: nat, ghost g: Group)
    returns (status: nat, recorded: seq<nat>)
    requires group.Valid() && ValidBindings(g.bindings) && group.View() == At(g, group.digest, r, answers, n)
    modifies group`cursor, group.upstreams`currentWeight, group.Breakers()
    ensures group.View() == At(g, group.digest, r, answers, n + 1)
    ensures status == Status(g, group.digest, r, answers, n) && recorded == Recorded(g, group.digest, r, answers, n)
    ensures IsRetryableStatus(status) ==> recorded == []
  {
    hide Select, AfterAttempt, PickedBy, StatusOf, RecordedBy, At, IsSuccess, Succeeds, UpstreamGroup.View;
    status, recorded := Attempt(group, r, answers(n));
    AttemptIsItsEvents(g, group.digest, r, answers, n);
    OnlySuccessRecords(g, group.digest, r, answers, n);
  }

  /**
   The attempt is worth another one: it picked an upstream and could not contact it, or could not read
   the body, or got one of the statuses that stand for a passing failure.
   */
  predicate WorthRetrying(picked: Option<nat>, a: Answer) {
    && picked.Some?
    && match a.outcome
       case NoContact => true
       case BadBody => true
       case Response(status, _) =>
         status == 408 || status == 429 || status == 500 || status == 502 || status == 503 || status == 504
  }

  /** The status that the loop looks at says exactly that. */
  lemma RetriesWhatIsWorthIt(picked: Option<nat>, a: Answer)
    ensures IsRetryableStatus(StatusOf(picked, a)) <==> WorthRetrying(picked, a)
  {
  }

  /** The answer is a success status. */
  predicate AnswersSuccess(a: Answer) {
    match a.outcome
    case NoContact => false
    case BadBody => false
    case Response(status, _) => 200 <= status < 300
  }

  /**
   An attempt tells exactly one breaker exactly one thing, that of the binding it picked: a success for a
   success status, and a failure for any other, for no contact and for an unreadable body.
   */
  lemma AttemptTellsItsPick(picked: Option<nat>, r: Request, a: Answer, i: nat)
    ensures Failover.Told(AttemptEvents(picked, r, a), i) ==
            if picked == Some(i)
            then [BreakerHistory.Timed(
                    if AnswersSuccess(a) then BreakerHistory.Success else BreakerHistory.Failure, a.endAt)]
            else []
  {
    var es := AttemptEvents(picked, r, a);
    assert es[..0] == [] && es[..1] == [Failover.Selection(ALONE, r, a.selectAt)];
    Failover.ToldSnoc(es, i);
  }

  /** In the breakers' counters: the pick's totals account for the attempt, and no other's change. */
  lemma AttemptIsCountedOnce(g: Group, h: Rendezvous.Digest, r: Request, a: Answer, i: nat)
    requires ValidBindings(g.bindings) && i < |g.bindings|
    ensures var was, now := g.bindings[i].breaker, AfterAttempt(g, h, r, a).bindings[i].breaker;
            var told := PickedBy(g, h, r, a) == Some(i);
            && now.totalSuccesses == was.totalSuccesses + (if told && AnswersSuccess(a) then 1 else 0)
            && now.totalFailures == was.totalFailures + (if told && !AnswersSuccess(a) then 1 else 0)
            && (told && AnswersSuccess(a) ==> now.failures == 0)
            && (told && !AnswersSuccess(a) ==> now.lastFailure == a.endAt)
  {
    hide Select;
    SelectHalfOpensUpToItsTier(g, h, r, a.selectAt, i);
  }

  /** Attempts 0 to `n` - 1 were all worth another one. */
  ghost predicate AllWorthRetrying(g: Group, h: Rendezvous.Digest, r: Request, answers: Answers, n: nat)
    requires ValidBindings(g.bindings)
  {
    forall m: nat :: m < n ==> WorthRetrying(PickedBy(At(g, h, r, answers, m), h, r, answers(m)), answers(m))
  }

  function MaxAttempts(maxRetries: nat): (max: nat)
    ensures max == if maxRetries < 1 then 1 else maxRetries
  {
    if maxRetries < 1 then 1 else maxRetries
  }

  /** What a finished loop has to show for itself. */
  datatype Result = Result(status: nat, attempts: nat, backoffs: nat, exhausted: bool, recorded: seq<nat>)

  /**
   Told from the upstreams picked and their answers: every attempt but the last was worth another one;
   the loop stopped before using up its attempts only at one that was not, so at no upstream or at an
   answer of another status; and exactly a success that states tokens is recorded, once.
   */
  ghost predicate Finished(
      g: Group, h: Rendezvous.Digest, r: Request, maxRetries: nat, answers: Answers, result: Result)
    requires ValidBindings(g.bindings)
  {
    && 1 <= result.attempts <= MaxAttempts(maxRetries) && result.backoffs == result.attempts - 1
    && AllWorthRetrying(g, h, r, answers, result.attempts - 1)
    && var last := result.attempts - 1;
       var picked := PickedBy(At(g, h, r, answers, last), h, r, answers(last));
       && (result.exhausted <==> WorthRetrying(picked, answers(last)))
       && (result.exhausted ==> result.attempts == MaxAttempts(maxRetries))
       && result.status == StatusOf(picked, answers(last))
       && result.recorded ==
          if picked.Some? && AnswersSuccess(answers(last)) && answers(last).outcome.tokens > 0
          then [answers(last).outcome.tokens] else []
  }

  /**
   So while attempts remain, an attempt that picked an upstream and could not contact it, or could not
   read its body, or got a passing failure, is followed by another; one that picked nothing is the last.
   */
  lemma LoopGoesOnIff(
      g: Group, h: Rendezvous.Digest, r: Request, maxRetries: nat, answers: Answers, result: Result, n: nat)
    requires ValidBindings(g.bindings) && Finished(g, h, r, maxRetries, answers, result)
    requires n < result.attempts && n + 1 < MaxAttempts(maxRetries)
    ensures n + 1 < result.attempts <==> WorthRetrying(PickedBy(At(g, h, r, answers, n), h, r, answers(n)), answers(n))
  {
    hide At, PickedBy, WorthRetrying;
  }

  /** What the client is told: the upstream's own status, or 404, 503 or 500 when there is none. */
  lemma ClientStatus(g: Group, h: Rendezvous.Digest, r: Request, maxRetries: nat, answers: Answers, result: Result)
    requires ValidBindings(g.bindings) && Finished(g, h, r, maxRetries, answers, result)
    ensures var last := result.attempts - 1;
            var picked := PickedBy(At(g, h, r, answers, last), h, r, answers(last));
            && (picked.None? ==> result.status == 404)
            && (picked.Some? && answers(last).outcome.NoContact? ==> result.status == 503)
            && (picked.Some? && answers(last).outcome.BadBody? ==> result.status == 500)
            && (picked.Some? && answers(last).outcome.Response? ==> result.status == answers(last).outcome.status)
            && (result.recorded != [] ==> 200 <= result.status < 300)
  {
    hide At, PickedBy;
  }

  lemma Finishes(
      g: Group, h: Rendezvous.Digest, r: Request, maxRetries: nat, answers: Answers, n: nat, status: nat,
      recorded: seq<nat>)
    requires ValidBindings(g.bindings) && n < MaxAttempts(maxRetries) && AllWorthRetrying(g, h, r, answers, n)
    requires status == Status(g, h, r, answers, n) && recorded == Recorded(g, h, r, answers, n)
    ensures !IsRetryableStatus(status) ==>
              Finished(g, h, r, maxRetries, answers, Result(status, n + 1, n, false, recorded))
    ensures IsRetryableStatus(status) && n + 1 == MaxAttempts(maxRetries) ==>
              Finished(g, h, r, maxRetries, answers, Result(status, n + 1, n, true, recorded))
    ensures IsRetryableStatus(status) ==> AllWorthRetrying(g, h, r, answers, n + 1)
  {
    hide At, IsRetryableStatus, PickedBy, WorthRetrying, StatusOf;
    RetriesWhatIsWorthIt(PickedBy(At(g, h, r, answers, n), h, r, answers(n)), answers(n));
  }

  /** The retry loop: at most max(1, maxRetries) attempts, with one backoff between neighbours. */
  method ExecuteWithRetry(group: UpstreamGroup, r: Request, maxRetries: nat, answers: Answers) returns (result: Result)
    requires group.Valid()
    modifies group`cursor, group.upstreams`currentWeight, group.Breakers()
    ensures ValidBindings(old(group.View()).bindings)
    ensures Finished(old(group.View()), group.digest, r, maxRetries, answers, result)
    ensures group.View() == At(old(group.View()), group.digest, r, answers, result.attempts)
  {
    hide *;
    ghost var g := group.View();
    group.ViewIsValid();
    AttemptIsItsEvents(g, group.digest, r, answers, 0);
    NoneTried(g, group.digest, r, answers);
    var max := if maxRetries < 1 then 1 else maxRetries;
    var attempt, backoffs, recorded := 0, 0, [];
    while true
      invariant attempt < max && backoffs == attempt && recorded == []
      invariant group.View() == At(g, group.digest, r, answers, attempt)
      invariant AllWorthRetrying(g, group.digest, r, answers, attempt)
      decreases max - attempt
    {
      var status, newly := AttemptNumber(group, r, answers, attempt, g);
      Finishes(g, group.digest, r, maxRetries, answers, attempt, status, newly);
      recorded := recorded + newly;
      assert recorded == newly;
      var isLast := attempt + 1 >= max;
      if !IsRetryableStatus(status) {
        return Result(status, attempt + 1, backoffs, false, recorded);
      }
      if isLast {
        return Result(status, attempt + 1, backoffs, true, recorded);
      }
      backoffs := backoffs + 1;
      attempt := attempt + 1;
    }
  }

  lemma NoneTried(g: Group, h: Rendezvous.Digest, r: Request, answers: Answers)
    requires ValidBindings(g.bindings)
    ensures AllWorthRetrying(g, h, r, answers, 0)
  {
  }

  // ---- The loop among other requests ----

  /** What others do before an attempt of the request, and while it is under way. */
  datatype Gap = Gap(before: seq<Failover.Event>, during: seq<Failover.Event>)
  type Gaps = nat -> Gap

  ghost predicate ForeignGaps(gaps: Gaps, id: nat, n: nat) {
    forall m: nat :: Failover.Foreign(gaps(m).before, id, n) && Failover.Foreign(gaps(m).during, id, n)
  }

  /** The first `n` attempts of the loop, with everything that others do in between. */
  ghost function Amid(
      g: Group, h: Rendezvous.Digest, r: Request, id: nat, answers: Answers, gaps: Gaps,
      n: nat): (es: seq<Failover.Event>)
    requires ValidBindings(g.bindings) && ForeignGaps(gaps, id, |g.bindings|)
    ensures Failover.ValidEvents(es, |g.bindings|)
  {
    hide Select, PickedBy, Failover.Run, Failover.SameConfiguration;
    if n == 0 then NoEvents(|g.bindings|)
    else
      var a, gap := answers(n - 1), gaps(n - 1);
      var before := Amid(g, h, r, id, answers, gaps, n - 1);
      ValidAppend(before, gap.before, |g.bindings|);
      var start := before + gap.before;
      var picked := PickedBy(Failover.Run(g, h, start), h, r, a);
      ValidAppend(start, [Failover.Selection(id, r, a.selectAt)], |g.bindings|);
      ValidAppend(start + [Failover.Selection(id, r, a.selectAt)], gap.during, |g.bindings|);
      var underway := start + [Failover.Selection(id, r, a.selectAt)] + gap.during;
      if picked.None? then underway
      else
        ValidAppend(underway, [EndOf(id, picked.value, a)], |g.bindings|);
        underway + [EndOf(id, picked.value, a)]
  }

  /** Attempts are awaited, so those of a request that fails again and again are one at a time. */
  lemma {:induction false} FailingRequestIsSequential(
      g: Group, h: Rendezvous.Digest, r: Request, id: nat, answers: Answers, gaps: Gaps, n: nat)
    requires ValidBindings(g.bindings) && ForeignGaps(gaps, id, |g.bindings|)
    requires forall m: nat :: m < n ==> !AnswersSuccess(answers(m))
    ensures Failover.OneAtATime(g, h, Amid(g, h, r, id, answers, gaps, n), id, None)
  {
    hide Select, Failover.Run, Failover.OneAtATime;
    if n == 0 {
      NothingIsPending(g, h, id);
    } else {
      var a, gap := answers(n - 1), gaps(n - 1);
      var before := Amid(g, h, r, id, answers, gaps, n - 1);
      var start := before + gap.before;
      FailingRequestIsSequential(g, h, r, id, answers, gaps, n - 1);
      Failover.OneAtATimeAmidForeign(g, h, before, gap.before, id, None);
      Failover.OneAtATimeSelects(g, h, start, id, r, a.selectAt);
      var picked := PickedBy(Failover.Run(g, h, start), h, r, a);
      var selected := start + [Failover.Selection(id, r, a.selectAt)];
      Failover.OneAtATimeAmidForeign(g, h, selected, gap.during, id, picked);
      if picked.Some? {
        Failover.OneAtATimeFails(g, h, selected + gap.during, id, picked.value, a.endAt);
      }
    }
  }

  lemma NothingIsPending(g: Group, h: Rendezvous.Digest, id: nat)
    requires ValidBindings(g.bindings)
    ensures Failover.OneAtATime(g, h, [], id, None)
  {
  }

  /**
   Of one request's attempts in a stretch shorter than the breaker timeouts, none succeeding, at most
   P * T reach a tier of P bindings with failure thresholds at most T, whatever other requests and
   operators do between and during the attempts; the others go to a higher tier or find nothing.
   */
  lemma RetriesLeaveTier(
      g: Group, h: Rendezvous.Digest, r: Request, id: nat, answers: Answers, gaps: Gaps, n: nat,
      from: nat, tier: nat, T: nat)
    requires ValidBindings(g.bindings) && ForeignGaps(gaps, id, |g.bindings|) && T >= 1
    requires forall m: nat :: m < n ==> !AnswersSuccess(answers(m))
    requires Failover.ReachedBy(g, from) && Failover.Stretch(g, Amid(g, h, r, id, answers, gaps, n), from)
    requires forall i :: i in Failover.TierMembers(g.bindings, tier) ==> g.bindings[i].config.failureThreshold <= T
    ensures Failover.LandedOnTier(g, h, Amid(g, h, r, id, answers, gaps, n), {id}, tier)
         <= |Failover.TierMembers(g.bindings, tier)| * T
  {
    hide Amid, ForeignGaps, AnswersSuccess, Failover.OneAtATime, Failover.ReachedBy, Failover.Stretch;
    hide Failover.TierMembers, Failover.LandedOnTier;
    FailingRequestIsSequential(g, h, r, id, answers, gaps, n);
    Failover.RequestLeavesTier(g, h, Amid(g, h, r, id, answers, gaps, n), id, None, from, tier, T);
  }

  function NoGaps(): Gaps {
    _ => Gap([], [])
  }

  /** With nobody else about, these are the events of the loop alone. */
  lemma {:induction false} AloneIsAmidNothing(g: Group, h: Rendezvous.Digest, r: Request, answers: Answers, n: nat)
    requires ValidBindings(g.bindings)
    ensures ForeignGaps(NoGaps(), ALONE, |g.bindings|)
    ensures Amid(g, h, r, ALONE, answers, NoGaps(), n) == Events(g, h, r, answers, n)
  {
    hide PickedBy, Failover.Run, Failover.ValidEvents, EndOf;
    if n > 0 {
      AloneIsAmidNothing(g, h, r, answers, n - 1);
      var before, a := Events(g, h, r, answers, n - 1), answers(n - 1);
      var selection := Failover.Selection(ALONE, r, a.selectAt);
      assert before + [] == before && before + [selection] + [] == before + [selection];
      var picked := PickedBy(Failover.Run(g, h, before), h, r, a);
      if picked.Some? {
        var end := EndOf(ALONE, picked.value, a);
        assert before + [selection] + [end] == before + [selection, end];
      }
    }
  }
}
