/**
 AdmissionBudget: the soft token limit over the admission machine. A request is under way in a bucket
 from its allowed token check there until it is refused by a later check or its tokens are recorded;
 a response without usage records zero tokens.
 */
module AdmissionBudget {
  import opened Options
  import opened Windows
  import opened Admission
  import TokenBudget

  /** The check that reads the tokens of bucket `k`. */
  function TokenCheck(k: Key): Check {
    match k
    case KeyModel(_, _) => KeyTokens
    case Model(_) => ModelTokens
    case PrimaryTier(_, _) => PrimaryTokens
  }

  /** The event is a check still to be made by a request that has arrived. */
  predicate Acts(s: System, e: Event) {
    e.Checks? && e.id in s.requests && s.requests[e.id].1.At?
  }

  /** The event is a request's allowed token check of bucket `k`. */
  predicate Enters(w: nat, c: Config, s: System, e: Event, k: Key, limit: U32) {
    && Acts(s, e)
    && Made(c, s.requests[e.id].0, s.requests[e.id].1) == Some(CheckTpm(k, limit))
    && Allows(w, s.ledger, CheckTpm(k, limit), e.at)
  }

  /** The event refuses a request, or records what it used of bucket `k`. */
  predicate Leaves(w: nat, c: Config, s: System, e: Event, k: Key) {
    || (Acts(s, e) && Step(w, c, s, e).requests[e.id].1.Refused?)
    || (e.Records? && e.key == k)
  }

  /** The requests under way in bucket `k`. */
  function Underway(w: nat, c: Config, es: seq<Event>, k: Key, limit: U32): set<nat> {
    if es == [] then {}
    else
      var before, e := es[..|es| - 1], es[|es| - 1];
      var s, ids := Admission.Run(w, c, before), Underway(w, c, before, k, limit);
      if Enters(w, c, s, e, k, limit) then ids + {e.id}
      else if Leaves(w, c, s, e, k) then ids - {e.id}
      else ids
  }

  /** The request has recorded, or been recorded without usage, in bucket `k`. */
  predicate HasRecorded(es: seq<Event>, id: nat, k: Key) {
    exists n :: 0 <= n < |es| && es[n].Records? && es[n].id == id && es[n].key == k
  }

  /** Bucket `k` is one that the request's tokens count in: its key's, its model's, the primary one if sent there. */
  predicate CountsIn(r: Request, p: Progress, k: Key) {
    k == KeyBucket(r) || k == ModelBucket(r) || (k == PrimaryBucket(r) && !p.Refused? && p.minPriority == 0)
  }

  /**
   Only accepted requests record, once in a bucket of their own, at most `m` tokens; at most `cap` are
   under way at any time. Nothing is assumed of what their checks found.
   */
  ghost predicate Disciplined(w: nat, c: Config, es: seq<Event>, k: Key, limit: U32, m: nat, cap: nat) {
    if es == [] then true
    else
      var before, e := es[..|es| - 1], es[|es| - 1];
      var s := Admission.Run(w, c, before);
      && Disciplined(w, c, before, k, limit, m, cap)
      && (e.Records? && e.key == k ==>
            && e.id in s.requests && s.requests[e.id].1.Accepted? && CountsIn(s.requests[e.id].0, s.requests[e.id].1, k)
            && !HasRecorded(before, e.id, k) && e.tokens <= m)
      && |Underway(w, c, es, k, limit)| <= cap
  }

  // ---- Accepted requests are under way until they record ----

  /** The request counts in the bucket, is past its token check and was not refused. */
  predicate Admitted(s: System, id: nat, k: Key) {
    && id in s.requests
    && CountsIn(s.requests[id].0, s.requests[id].1, k)
    && Passed(s.requests[id].1, TokenCheck(k)) && !s.requests[id].1.Refused?
  }

  /** A request gets past a limited token check of its own bucket only by being allowed. */
  lemma AdmittedByItsCheck(w: nat, c: Config, s: System, e: Event, id: nat, k: Key, limit: U32)
    requires TpmLimit(c, k) == Some(limit)
    requires Admitted(Step(w, c, s, e), id, k) && !Admitted(s, id, k)
    requires id in s.requests ==> SaneProgress(s.requests[id].1)
    ensures Enters(w, c, s, e, k, limit) && e.id == id
  {
    hide Allows, After, ChargeOf, RpmLimit, TpmLimit;
  }

  /** Until its capacity was checked, a request is bound for the primary tier. */
  predicate SaneProgress(p: Progress) {
    p.At? && Rank(p.check) <= 4 ==> p.minPriority == 0
  }

  lemma StaysAdmitted(w: nat, c: Config, s: System, e: Event, id: nat, k: Key)
    requires Admitted(Step(w, c, s, e), id, k) && Leaves(w, c, s, e, k) && e.id == id
    ensures e.Records? && e.key == k
  {
    hide Allows, After, ChargeOf, RpmLimit, TpmLimit, CountsIn;
  }

  lemma ProgressIsSane(w: nat, c: Config, es: seq<Event>, upTo: int, id: nat)
    requires InOrder(es, upTo) && id in Admission.Run(w, c, es).requests
    ensures SaneProgress(Admission.Run(w, c, es).requests[id].1)
  {
    hide Admission.Run, LimitsKept, Balanced, LedgerOrdered, InOrder, RpmLimit, Taken;
    RunIsSound(w, c, es, upTo);
    var s := Admission.Run(w, c, es);
    assert Settled(c, s.requests[id].0, s.requests[id].1, s.charges, id);
  }

  lemma HasRecordedPrefix(es: seq<Event>, id: nat, k: Key)
    requires es != [] && !HasRecorded(es, id, k)
    ensures !HasRecorded(es[..|es| - 1], id, k)
    ensures !(es[|es| - 1].Records? && es[|es| - 1].id == id && es[|es| - 1].key == k)
  {
    var before := es[..|es| - 1];
    assert forall n :: 0 <= n < |before| ==> before[n] == es[n];
  }

  /** So an accepted request is under way in each of its limited token buckets until it records there. */
  lemma {:induction false} AdmittedAreUnderway(
      w: nat, c: Config, es: seq<Event>, upTo: int, id: nat, k: Key, limit: U32)
    requires InOrder(es, upTo) && TpmLimit(c, k) == Some(limit)
    requires Admitted(Admission.Run(w, c, es), id, k) && !HasRecorded(es, id, k)
    ensures id in Underway(w, c, es, k, limit)
  {
    hide Step, Enters, Admitted, HasRecorded, InOrder, TpmLimit, SaneProgress;
    if es == [] {
      NobodyIsAdmitted(id, k);
    } else {
      var before, e := es[..|es| - 1], es[|es| - 1];
      var s := Admission.Run(w, c, before);
      InOrderPrefix(es, upTo);
      HasRecordedPrefix(es, id, k);
      if Admitted(s, id, k) {
        AdmittedAreUnderway(w, c, before, e.at, id, k, limit);
        if Leaves(w, c, s, e, k) && e.id == id {
          StaysAdmitted(w, c, s, e, id, k);
        }
      } else {
        if id in s.requests {
          ProgressIsSane(w, c, before, e.at, id);
        }
        AdmittedByItsCheck(w, c, s, e, id, k, limit);
      }
    }
  }

  lemma NobodyIsAdmitted(id: nat, k: Key)
    ensures !Admitted(IDLE, id, k)
  {
  }

  /** A request under way has arrived, was not refused, and is past its token check of the bucket. */
  ghost predicate Past(s: System, ids: set<nat>, k: Key) {
    forall id :: id in ids ==> id in s.requests && Passed(s.requests[id].1, TokenCheck(k)) && !s.requests[id].1.Refused?
  }

  /** One check only moves a request on. */
  lemma AdvanceMovesOn(w: nat, c: Config, s: System, e: Event, k: Key)
    requires Acts(s, e)
    ensures var (was, now) := (s.requests[e.id].1, Step(w, c, s, e).requests[e.id].1);
            Passed(was, TokenCheck(k)) && !now.Refused? ==> Passed(now, TokenCheck(k))
    ensures forall id :: id != e.id && id in s.requests ==> Step(w, c, s, e).requests[id] == s.requests[id]
    ensures s.requests.Keys == Step(w, c, s, e).requests.Keys
  {
    hide Made, Allows, After, ChargeOf;
  }

  /** A request that makes the token check of a bucket has not passed it before, and passes it if allowed. */
  lemma EntersOnce(w: nat, c: Config, s: System, e: Event, k: Key, limit: U32)
    requires Acts(s, e) && Made(c, s.requests[e.id].0, s.requests[e.id].1) == Some(CheckTpm(k, limit))
    ensures !Passed(s.requests[e.id].1, TokenCheck(k))
    ensures Enters(w, c, s, e, k, limit) ==>
              Passed(Step(w, c, s, e).requests[e.id].1, TokenCheck(k)) && !Step(w, c, s, e).requests[e.id].1.Refused?
  {
    hide Allows, After, ChargeOf, TpmLimit, RpmLimit;
  }

  lemma {:induction false} UnderwayArePast(w: nat, c: Config, es: seq<Event>, k: Key, limit: U32)
    ensures Past(Admission.Run(w, c, es), Underway(w, c, es, k, limit), k)
  {
    hide Step, Allows, Made, Passed, TokenCheck;
    if es != [] {
      var before, e := es[..|es| - 1], es[|es| - 1];
      UnderwayArePast(w, c, before, k, limit);
      OneEventKeepsPast(w, c, Admission.Run(w, c, before), e, Underway(w, c, before, k, limit), k, limit);
    }
  }

  lemma OneEventKeepsPast(w: nat, c: Config, s: System, e: Event, ids: set<nat>, k: Key, limit: U32)
    requires Past(s, ids, k)
    ensures Enters(w, c, s, e, k, limit) ==> Past(Step(w, c, s, e), ids + {e.id}, k)
    ensures !Enters(w, c, s, e, k, limit) && Leaves(w, c, s, e, k) ==> Past(Step(w, c, s, e), ids - {e.id}, k)
    ensures !Enters(w, c, s, e, k, limit) && !Leaves(w, c, s, e, k) ==> Past(Step(w, c, s, e), ids, k)
  {
    hide Allows, Made, Passed, TokenCheck, Advance, ChargeOf, After;
    if Acts(s, e) {
      hide Step;
      AdvanceMovesOn(w, c, s, e, k);
      if Enters(w, c, s, e, k, limit) {
        EntersOnce(w, c, s, e, k, limit);
      }
    }
  }

  /** The event as the bucket sees it. */
  function Seen(w: nat, c: Config, s: System, e: Event, k: Key, limit: U32): TokenBudget.Event {
    if Enters(w, c, s, e, k, limit) then TokenBudget.Begin(limit, e.at)
    else if e.Records? && e.key == k then TokenBudget.End(e.tokens, e.at)
    else TokenBudget.Other(Cleanup({}), e.at)
  }

  /** Only recordings for the bucket change its tokens. */
  lemma BucketAfter(w: nat, c: Config, s: System, e: Event, k: Key)
    ensures Of(Step(w, c, s, e).ledger.tpm, k) ==
            Of(s.ledger.tpm, k) + if e.Records? && e.key == k && e.tokens > 0 then [Entry(e.at, e.tokens)] else []
  {
    hide Allows, ChargeOf;
    assert Of(s.ledger.tpm, k) + [] == Of(s.ledger.tpm, k);
  }

  lemma InOrderPrefix(es: seq<Event>, upTo: int)
    requires InOrder(es, upTo) && es != []
    ensures InOrder(es[..|es| - 1], es[|es| - 1].at) && es[|es| - 1].at <= upTo
  {
  }

  /** How many are under way, one event on. */
  lemma UnderwayCounts(w: nat, c: Config, es: seq<Event>, k: Key, limit: U32)
    requires es != []
    ensures var before, e := es[..|es| - 1], es[|es| - 1];
            var was, now := Underway(w, c, before, k, limit), Underway(w, c, es, k, limit);
            && (Enters(w, c, Admission.Run(w, c, before), e, k, limit) ==> |now| == |was| + 1)
            && (!Enters(w, c, Admission.Run(w, c, before), e, k, limit) ==> |now| <= |was|)
            && (e.Records? && e.key == k && e.id in was ==> |now| == |was| - 1)
  {
    hide Step, Allows, Made, Passed, TokenCheck;
    var before, e := es[..|es| - 1], es[|es| - 1];
    var s, was := Admission.Run(w, c, before), Underway(w, c, before, k, limit);
    UnderwayArePast(w, c, before, k, limit);
    if Enters(w, c, s, e, k, limit) {
      EntersOnce(w, c, s, e, k, limit);
      assert e.id !in was;
    } else if Leaves(w, c, s, e, k) && e.id in was {
      assert was == (was - {e.id}) + {e.id};
    }
  }

  /**
   The soft token limit holds over every run of the machine: when accepted requests record once in a
   limited bucket of theirs, at most `m` tokens each, and at most `cap` are under way at any time, no
   window of it ever holds more than limit - 1 + cap * m tokens, and from the last event on at most that
   less m for every request still under way.
   */
  lemma {:induction false} AdmittedTokensAreBounded(
      w: nat, c: Config, es: seq<Event>, k: Key, limit: U32, m: nat, cap: nat, upTo: int, t: int)
    requires InOrder(es, upTo) && TpmLimit(c, k) == Some(limit) && Disciplined(w, c, es, k, limit, m, cap)
    ensures WindowSum(Of(Admission.Run(w, c, es).ledger.tpm, k), t, w) <= TokenBudget.Budget(limit, m, cap)
    ensures t >= upTo ==>
              WindowSum(Of(Admission.Run(w, c, es).ledger.tpm, k), t, w) + m * |Underway(w, c, es, k, limit)|
              <= TokenBudget.Budget(limit, m, cap)
  {
    hide Step, Enters, Leaves, TokenBudget.Budget, InOrder, WindowSum, Underway, TpmLimit, CountsIn, HasRecorded;
    if es == [] {
      NobodyYet(w, c, k, limit, m, cap, t);
    } else {
      var before, e := es[..|es| - 1], es[|es| - 1];
      InOrderPrefix(es, upTo);
      AdmittedTokensAreBounded(w, c, before, k, limit, m, cap, e.at, t);
      AdmittedTokensAreBounded(w, c, before, k, limit, m, cap, e.at, e.at);
      OneEventIsBounded(w, c, es, k, limit, m, cap, upTo, t);
    }
  }

  lemma NobodyYet(w: nat, c: Config, k: Key, limit: U32, m: nat, cap: nat, t: int)
    ensures Of(Admission.Run(w, c, []).ledger.tpm, k) == [] && WindowSum([], t, w) == 0
    ensures |Underway(w, c, [], k, limit)| == 0
    ensures m * 0 <= TokenBudget.Budget(limit, m, cap)
  {
  }

  lemma Fewer(m: nat, a: nat, b: nat)
    requires a <= b
    ensures m * a <= m * b
  {
  }

  lemma CapHolds(w: nat, c: Config, es: seq<Event>, k: Key, limit: U32, m: nat, cap: nat)
    requires Disciplined(w, c, es, k, limit, m, cap)
    ensures |Underway(w, c, es, k, limit)| <= cap
  {
  }

  lemma RecordersAreUnderway(
      w: nat, c: Config, es: seq<Event>, k: Key, limit: U32, m: nat, cap: nat, upTo: int)
    requires es != [] && InOrder(es, upTo) && TpmLimit(c, k) == Some(limit)
    requires Disciplined(w, c, es, k, limit, m, cap)
    ensures var before, e := es[..|es| - 1], es[|es| - 1];
            e.Records? && e.key == k ==> e.id in Underway(w, c, before, k, limit) && e.tokens <= m
  {
    hide Step, HasRecorded, Underway, TpmLimit, InOrder;
    var before, e := es[..|es| - 1], es[|es| - 1];
    InOrderPrefix(es, upTo);
    if e.Records? && e.key == k {
      AdmittedAreUnderway(w, c, before, e.at, e.id, k, limit);
    }
  }

  lemma OneEventIsBounded(w: nat, c: Config, es: seq<Event>, k: Key, limit: U32, m: nat, cap: nat, upTo: int, t: int)
    requires es != [] && InOrder(es, upTo) && TpmLimit(c, k) == Some(limit)
    requires Disciplined(w, c, es, k, limit, m, cap)
    requires var before, e := es[..|es| - 1], es[|es| - 1];
             var was, n := Of(Admission.Run(w, c, before).ledger.tpm, k), |Underway(w, c, before, k, limit)|;
             && WindowSum(was, t, w) <= TokenBudget.Budget(limit, m, cap)
             && WindowSum(was, e.at, w) + m * n <= TokenBudget.Budget(limit, m, cap)
             && (t >= e.at ==> WindowSum(was, t, w) + m * n <= TokenBudget.Budget(limit, m, cap))
    ensures WindowSum(Of(Admission.Run(w, c, es).ledger.tpm, k), t, w) <= TokenBudget.Budget(limit, m, cap)
    ensures t >= upTo ==>
              WindowSum(Of(Admission.Run(w, c, es).ledger.tpm, k), t, w) + m * |Underway(w, c, es, k, limit)|
              <= TokenBudget.Budget(limit, m, cap)
  {
    hide Step, Leaves, TokenBudget.Budget, WindowSum, Underway, Made, LedgerOrdered, TpmLimit, CountsIn, HasRecorded;
    var before, e := es[..|es| - 1], es[|es| - 1];
    var s := Admission.Run(w, c, before);
    RecordersAreUnderway(w, c, es, k, limit, m, cap, upTo);
    var was, n := Of(s.ledger.tpm, k), |Underway(w, c, before, k, limit)|;
    InOrderPrefix(es, upTo);
    TokensInOrder(w, c, before, e.at, k);
    UnderwayCounts(w, c, es, k, limit);
    BucketAfter(w, c, s, e, k);
    assert was + [] == was;
    var seen := Seen(w, c, s, e, k, limit);
    var now := |Underway(w, c, es, k, limit)|;
    CapHolds(w, c, before, k, limit, m, cap);
    CapHolds(w, c, es, k, limit, m, cap);
    TokenBudget.OneEvent(w, limit, m, cap, was, n, seen, t, upTo);
    if !seen.Begin? {
      Fewer(m, now, n);
    }
  }

  lemma TokensInOrder(w: nat, c: Config, es: seq<Event>, upTo: int, k: Key)
    requires InOrder(es, upTo)
    ensures Ordered(Of(Admission.Run(w, c, es).ledger.tpm, k), upTo)
  {
    hide Admission.Run, LimitsKept, Balanced, AllSettled, InOrder;
    RunIsSound(w, c, es, upTo);
  }
}
