/**
 AdmissionOutcomes: why a request of the admission machine is where it is, told from what its checks
 found: how much the bucket's window held, at that moment, against the configured limit.
 */
module AdmissionOutcomes {
  import opened Options
  import opened Windows
  import opened Admission

  predicate ReadsTokens(check: Check) {
    check.KeyTokens? || check.ModelTokens? || check.PrimaryTokens?
  }

  /** The limit that a check compares with. */
  function LimitAt(c: Config, r: Request, check: Check): Option<U32> {
    if ReadsTokens(check) then TpmLimit(c, BucketOf(r, check)) else RpmLimit(c, BucketOf(r, check))
  }

  /** What the window of the check's bucket holds at `now`. */
  function HeldAt(w: nat, l: Ledger, r: Request, check: Check, now: int): nat {
    WindowSum(Of(if ReadsTokens(check) then l.tpm else l.rpm, BucketOf(r, check)), now, w)
  }

  /** Event `n` of the run is this check by the request, and it found the window below the limit, or not. */
  ghost predicate Found(w: nat, c: Config, es: seq<Event>, id: nat, r: Request, check: Check, below: bool, n: nat) {
    && n < |es| && es[n].Checks? && es[n].id == id
    && var s := Admission.Run(w, c, es[..n]);
       && id in s.requests && s.requests[id].0 == r && s.requests[id].1.At? && s.requests[id].1.check == check
       && LimitAt(c, r, check).Some?
       && (below <==> HeldAt(w, s.ledger, r, check, es[n].at) < LimitAt(c, r, check).value)
  }

  /** The check has no limit, or found room. */
  ghost predicate FoundRoom(w: nat, c: Config, es: seq<Event>, id: nat, r: Request, check: Check) {
    LimitAt(c, r, check).None? || exists n :: Found(w, c, es, id, r, check, true, n)
  }

  ghost predicate FoundFull(w: nat, c: Config, es: seq<Event>, id: nat, r: Request, check: Check) {
    exists n :: Found(w, c, es, id, r, check, false, n)
  }

  /** The four checks that refuse. */
  predicate Refuses(check: Check) {
    Rank(check) <= 3
  }

  /** Still bound for the primary tier after this check of its capacity. */
  predicate KeepsPrimary(p: Progress, check: Check) {
    !Refuses(check) && !p.Refused? && Passed(p, check) && p.minPriority == 0
  }

  /**
   A request is past a check only if that found room; it is refused by a check only if that found the
   limit reached; it is still bound for the primary tier only if its capacity had room, and bound for the
   fallback tier only if it had none.
   */
  ghost predicate Explained(w: nat, c: Config, es: seq<Event>, id: nat, r: Request, p: Progress) {
    && (forall check :: Refuses(check) && Passed(p, check) ==> FoundRoom(w, c, es, id, r, check))
    && (forall check :: KeepsPrimary(p, check) ==> FoundRoom(w, c, es, id, r, check))
    && (p.Refused? ==> Refuses(p.failed) && FoundFull(w, c, es, id, r, p.failed))
    && (!p.Refused? && p.minPriority != 0 ==>
          FoundFull(w, c, es, id, r, PrimaryRequests) || FoundFull(w, c, es, id, r, PrimaryTokens))
    && (!p.Refused? ==> p.minPriority <= 1) && (p.At? && Rank(p.check) <= 4 ==> p.minPriority == 0)
  }

  lemma FoundLater(
      w: nat, c: Config, es: seq<Event>, e: Event, id: nat, r: Request, check: Check, below: bool, n: nat)
    requires Found(w, c, es, id, r, check, below, n)
    ensures Found(w, c, es + [e], id, r, check, below, n)
  {
    hide Admission.Run, HeldAt, LimitAt;
    assert (es + [e])[..n] == es[..n];
  }

  lemma RoomAndFullLater(w: nat, c: Config, es: seq<Event>, e: Event, id: nat, r: Request, check: Check)
    ensures FoundRoom(w, c, es, id, r, check) ==> FoundRoom(w, c, es + [e], id, r, check)
    ensures FoundFull(w, c, es, id, r, check) ==> FoundFull(w, c, es + [e], id, r, check)
  {
    hide Found;
    if n :| Found(w, c, es, id, r, check, true, n) {
      FoundLater(w, c, es, e, id, r, check, true, n);
    }
    if n :| Found(w, c, es, id, r, check, false, n) {
      FoundLater(w, c, es, e, id, r, check, false, n);
    }
  }

  lemma ExplainedLater(w: nat, c: Config, es: seq<Event>, e: Event, id: nat, r: Request, p: Progress)
    requires Explained(w, c, es, id, r, p)
    ensures Explained(w, c, es + [e], id, r, p)
  {
    hide FoundRoom, FoundFull, KeepsPrimary, Passed, Refuses;
    forall check
      ensures FoundRoom(w, c, es, id, r, check) ==> FoundRoom(w, c, es + [e], id, r, check)
      ensures FoundFull(w, c, es, id, r, check) ==> FoundFull(w, c, es + [e], id, r, check)
    {
      RoomAndFullLater(w, c, es, e, id, r, check);
    }
  }

  /** The check that the last event makes. */
  lemma JustFound(w: nat, c: Config, es: seq<Event>, id: nat, at: int)
    requires var s := Admission.Run(w, c, es); id in s.requests && s.requests[id].1.At?
    ensures var s := Admission.Run(w, c, es); var (r, p) := s.requests[id];
            var all := es + [Checks(id, at)];
            var denied := LimitAt(c, r, p.check).Some?
                          && HeldAt(w, s.ledger, r, p.check, at) >= LimitAt(c, r, p.check).value;
            && (denied ==> FoundFull(w, c, all, id, r, p.check))
            && (!denied ==> FoundRoom(w, c, all, id, r, p.check))
  {
    hide Admission.Run, HeldAt, LimitAt;
    var s := Admission.Run(w, c, es);
    var (r, p) := s.requests[id];
    var all := es + [Checks(id, at)];
    assert all[..|es|] == es && all[|es|] == Checks(id, at);
    if LimitAt(c, r, p.check).Some? {
      var below := HeldAt(w, s.ledger, r, p.check, at) < LimitAt(c, r, p.check).value;
      assert Found(w, c, all, id, r, p.check, below, |es|);
    }
  }

  /**
   Where a check leads, told from what it finds; the second check of primary capacity is skipped after a
   full first.
   */
  lemma AdvanceIsTold(w: nat, c: Config, l: Ledger, r: Request, p: Progress, now: int)
    requires p.At? && p.minPriority <= 1
    ensures var next := Advance(w, c, l, r, p, now).1;
            var skipped := p.check.PrimaryTokens? && p.minPriority != 0;
            var denied := LimitAt(c, r, p.check).Some? && HeldAt(w, l, r, p.check, now) >= LimitAt(c, r, p.check).value;
            && (next.Refused? <==> Refuses(p.check) && denied)
            && (next.Refused? ==> next.failed == p.check)
            && (!next.Refused? ==>
                  next.minPriority == if !Refuses(p.check) && !skipped && denied then 1 else p.minPriority)
            && (forall check :: !next.Refused? ==> (Passed(next, check) <==> Passed(p, check) || check == p.check))
            && (forall check :: next.Refused? ==> (Passed(next, check) <==> Passed(p, check)))
            && (next.At? ==> Rank(next.check) == Rank(p.check) + 1)
  {
    hide After, RpmLimit, TpmLimit, WindowSum;
  }

  lemma CheckExplains(w: nat, c: Config, es: seq<Event>, id: nat, at: int)
    requires var s := Admission.Run(w, c, es); id in s.requests && s.requests[id].1.At?
    requires var s := Admission.Run(w, c, es); Explained(w, c, es, id, s.requests[id].0, s.requests[id].1)
    ensures var s := Admission.Run(w, c, es); var (r, p) := s.requests[id];
            Explained(w, c, es + [Checks(id, at)], id, r, Advance(w, c, s.ledger, r, p, at).1)
  {
    hide Admission.Run, FoundRoom, FoundFull, Advance, HeldAt, LimitAt;
    var s := Admission.Run(w, c, es);
    var (r, p) := s.requests[id];
    ExplainedLater(w, c, es, Checks(id, at), id, r, p);
    JustFound(w, c, es, id, at);
    AdvanceIsTold(w, c, s.ledger, r, p, at);
  }

  lemma ArrivalIsExplained(w: nat, c: Config, es: seq<Event>, id: nat, r: Request)
    ensures Explained(w, c, es, id, r, START)
  {
    hide FoundRoom, FoundFull;
  }

  /**
   Every outcome is explained, in every interleaving. In particular an accepted request found less than
   the limit in each limited token and request bucket of its key and model at its check, one that a
   check refused found that check's limit reached, and a request was moved to the fallback tier exactly
   when it found primary capacity used up.
   */
  lemma {:induction false} OutcomesAreExplained(w: nat, c: Config, es: seq<Event>, id: nat)
    requires id in Admission.Run(w, c, es).requests
    ensures var (r, p) := Admission.Run(w, c, es).requests[id]; Explained(w, c, es, id, r, p)
  {
    hide Explained, Advance, ChargeOf, After;
    var before, e := es[..|es| - 1], es[|es| - 1];
    var s := Admission.Run(w, c, before);
    assert es == before + [e];
    if id in s.requests {
      var (r, p) := s.requests[id];
      OutcomesAreExplained(w, c, before, id);
      if e.Checks? && e.id == id && p.At? {
        CheckExplains(w, c, before, id, e.at);
      } else {
        ExplainedLater(w, c, before, e, id, r, p);
      }
    } else {
      ArrivalIsExplained(w, c, es, id, Admission.Run(w, c, es).requests[id].0);
    }
  }

  /** An accepted request and a limited bucket of its key or model: its check found the window below the limit. */
  lemma AcceptedFoundRoom(w: nat, c: Config, es: seq<Event>, id: nat, check: Check) returns (n: nat)
    requires id in Admission.Run(w, c, es).requests && Admission.Run(w, c, es).requests[id].1.Accepted?
    requires Refuses(check) && LimitAt(c, Admission.Run(w, c, es).requests[id].0, check).Some?
    ensures Found(w, c, es, id, Admission.Run(w, c, es).requests[id].0, check, true, n)
  {
    hide Admission.Run, Found, LimitAt;
    OutcomesAreExplained(w, c, es, id);
    var r := Admission.Run(w, c, es).requests[id].0;
    assert FoundRoom(w, c, es, id, r, check);
    n :| Found(w, c, es, id, r, check, true, n);
  }

  /** Moved to the fallback tier exactly when some check of primary capacity found it used up. */
  lemma FallbackMeansFullPrimary(w: nat, c: Config, es: seq<Event>, id: nat)
    requires id in Admission.Run(w, c, es).requests && Admission.Run(w, c, es).requests[id].1.Accepted?
    ensures var (r, p) := Admission.Run(w, c, es).requests[id];
            && (p.minPriority == 0 ==>
                  FoundRoom(w, c, es, id, r, PrimaryRequests) && FoundRoom(w, c, es, id, r, PrimaryTokens))
            && p.minPriority <= 1
            && (p.minPriority == 1 ==>
                  FoundFull(w, c, es, id, r, PrimaryRequests) || FoundFull(w, c, es, id, r, PrimaryTokens))
  {
    hide Admission.Run, FoundRoom, FoundFull;
    OutcomesAreExplained(w, c, es, id);
    var p := Admission.Run(w, c, es).requests[id].1;
    assert p.minPriority == 0 ==> KeepsPrimary(p, PrimaryRequests) && KeepsPrimary(p, PrimaryTokens);
  }
}
