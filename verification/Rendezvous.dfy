/**
 Weighted rendezvous hashing: `select_weighted_hash` of core/src/upstream/routing.rs.
 The digest is an arbitrary function to the non-negative reals; the score divides it by
 the weight and the first lowest score wins.
 */
module Rendezvous {
  import opened Decimals

  type Digest = (string, string) -> real

  datatype Candidate = Candidate(url: string, weight: nat)

  ghost predicate ValidDigest(h: Digest) {
    forall key, url :: h(key, url) >= 0.0
  }

  predicate Weighted(cs: seq<Candidate>) {
    forall c :: c in cs ==> c.weight > 0
  }

  function Score(h: Digest, key: string, c: Candidate): real
    requires c.weight > 0
  {
    h(key, c.url) / c.weight as real
  }

  function Scores(h: Digest, key: string, cs: seq<Candidate>): (r: seq<real>)
    requires Weighted(cs)
    ensures |r| == |cs|
    ensures forall i :: 0 <= i < |cs| ==> r[i] == Score(h, key, cs[i])
  {
    seq(|cs|, i requires 0 <= i < |cs| => Score(h, key, cs[i]))
  }

  /** The position of the first minimum, as `min_by` returns it. */
  function FirstMin(xs: seq<real>): (r: nat)
    requires xs != []
    ensures r < |xs|
    ensures forall k: nat :: k < r ==> xs[k] > xs[r]
    ensures forall k: nat :: r <= k < |xs| ==> xs[k] >= xs[r]
  {
    if |xs| == 1 then 0
    else
      var r := FirstMin(xs[..|xs| - 1]);
      if xs[|xs| - 1] < xs[r] then |xs| - 1 else r
  }

  function Choose(h: Digest, key: string, cs: seq<Candidate>): (r: nat)
    requires cs != [] && Weighted(cs)
    ensures r < |cs|
  {
    FirstMin(Scores(h, key, cs))
  }

  /** The key used for a request: its own, or one made from the model and the cursor. */
  function KeyFor(routingKey: string, keyed: bool, modelId: string, cursor: nat): string {
    if keyed then routingKey else modelId + ":" + Decimal(cursor)
  }

  // ---- Minimal disruption ----

  /** `keep` lists, in order, which candidates of a list of `n` remain. */
  ghost predicate Selection(keep: seq<nat>, n: nat) {
    && (forall k :: 0 <= k < |keep| ==> keep[k] < n)
    && (forall j, k :: 0 <= j < k < |keep| ==> keep[j] < keep[k])
  }

  function Kept(cs: seq<Candidate>, keep: seq<nat>): (r: seq<Candidate>)
    requires forall k :: 0 <= k < |keep| ==> keep[k] < |cs|
    ensures |r| == |keep|
    ensures forall k :: 0 <= k < |keep| ==> r[k] == cs[keep[k]]
  {
    seq(|keep|, k requires 0 <= k < |keep| => cs[keep[k]])
  }

  /**
   Between a list and a shorter one, either way round: unless the longer list's winner is not in the
   shorter one, it is the winner of both. So taking away candidates but the winner keeps it, and
   adding candidates leaves the old winner or makes one of the new ones win.
   */
  lemma MinimalDisruption(h: Digest, key: string, cs: seq<Candidate>, keep: seq<nat>)
    requires cs != [] && Weighted(cs) && Selection(keep, |cs|) && keep != []
    ensures Weighted(Kept(cs, keep))
    ensures Choose(h, key, cs) !in keep || keep[Choose(h, key, Kept(cs, keep))] == Choose(h, key, cs)
  {
    KeptAreWeighted(cs, keep);
    var w := Choose(h, key, cs);
    if w in keep {
      var p :| 0 <= p < |keep| && keep[p] == w;
      WinnerStays(h, key, cs, keep, p);
    }
  }

  lemma KeptAreWeighted(cs: seq<Candidate>, keep: seq<nat>)
    requires Weighted(cs) && Selection(keep, |cs|)
    ensures Weighted(Kept(cs, keep))
  {
    var few := Kept(cs, keep);
    forall c | c in few
      ensures c.weight > 0
    {
      var k :| 0 <= k < |few| && few[k] == c;
      assert cs[keep[k]] in cs;
    }
  }

  lemma FirstMinIsUnique(xs: seq<real>, r: nat)
    requires r < |xs|
    requires forall k: nat :: k < r ==> xs[k] > xs[r]
    requires forall k: nat :: r <= k < |xs| ==> xs[k] >= xs[r]
    ensures r == FirstMin(xs)
  {
    var m := FirstMin(xs);
    assert xs[m] == xs[r];
  }

  lemma WinnerStays(h: Digest, key: string, cs: seq<Candidate>, keep: seq<nat>, p: nat)
    requires cs != [] && Weighted(cs) && Selection(keep, |cs|) && Weighted(Kept(cs, keep))
    requires p < |keep| && keep[p] == Choose(h, key, cs)
    ensures Choose(h, key, Kept(cs, keep)) == p
  {
    hide Score, Weighted, FirstMin;
    var all, some := Scores(h, key, cs), Scores(h, key, Kept(cs, keep));
    forall q: nat | q < |keep|
      ensures some[q] == all[keep[q]]
      ensures q < p ==> some[q] > some[p]
      ensures q >= p ==> some[q] >= some[p]
    {
      assert some[p] == all[keep[p]];
      assert q < p ==> keep[q] < keep[p];
      assert q > p ==> keep[q] > keep[p];
    }
    FirstMinIsUnique(some, p);
  }

  lemma Cancel(p: real, q: real, a: real)
    requires a > 0.0 && q * a <= p * a
    ensures q <= p
  {
  }

  lemma TimesMore(q: real, a: real, b: real)
    requires q >= 0.0 && a <= b
    ensures q * a <= q * b
  {
  }

  lemma LowerScore(x: real, small: nat, large: nat)
    requires 0 < small <= large && x >= 0.0
    ensures x / large as real <= x / small as real
  {
    var a, b := small as real, large as real;
    var p, q := x / a, x / b;
    assert p * a == x && q * b == x;
    TimesMore(q, a, b);
    Cancel(p, q, a);
  }

  /** Raising one weight moves a key only to that upstream; lowering one, only away from it. */
  lemma RaisingMovesOnlyThere(h: Digest, key: string, cs: seq<Candidate>, j: nat, weight: nat)
    requires ValidDigest(h) && Weighted(cs) && j < |cs| && weight >= cs[j].weight
    ensures Weighted(cs[j := cs[j].(weight := weight)])
    ensures var now := Choose(h, key, cs[j := cs[j].(weight := weight)]);
            now == Choose(h, key, cs) || now == j
    ensures Choose(h, key, cs) == j ==> Choose(h, key, cs[j := cs[j].(weight := weight)]) == j
  {
    var heavier := cs[j := cs[j].(weight := weight)];
    forall c | c in heavier
      ensures c.weight > 0
    {
      var i :| 0 <= i < |cs| && heavier[i] == c;
      assert cs[i] in cs && cs[j] in cs;
    }
    var was, now := Scores(h, key, cs), Scores(h, key, heavier);
    LowerScore(h(key, cs[j].url), cs[j].weight, weight);
    assert now[j] <= was[j];
    assert forall i :: 0 <= i < |cs| && i != j ==> now[i] == was[i];
  }

  // ---- What decides, without division ----

  lemma CompareScores(x: real, a: nat, y: real, b: nat)
    requires a > 0 && b > 0
    ensures x / a as real <= y / b as real <==> x * b as real <= y * a as real
  {
    var ra, rb := a as real, b as real;
    var p, q := x / ra, y / rb;
    assert p * ra == x && q * rb == y;
    assert x * rb == (p * rb) * ra && y * ra == (q * rb) * ra;
    if p <= q {
      Scaled(p, q, rb);
      Scaled(p * rb, q * rb, ra);
    } else {
      ScaledStrictly(q, p, rb);
      ScaledStrictly(q * rb, p * rb, ra);
    }
  }

  lemma Scaled(p: real, q: real, a: real)
    requires p <= q && a > 0.0
    ensures p * a <= q * a
  {
  }

  lemma ScaledStrictly(p: real, q: real, a: real)
    requires p < q && a > 0.0
    ensures p * a < q * a
  {
  }

  /** Candidate `i` beats or ties candidate `j`: its digest is lower for its weight. */
  predicate NotWorse(h: Digest, key: string, cs: seq<Candidate>, i: nat, j: nat)
    requires i < |cs| && j < |cs|
  {
    h(key, cs[i].url) * cs[j].weight as real <= h(key, cs[j].url) * cs[i].weight as real
  }

  /** The choice is exactly the candidate with the lowest digest for its weight, the first of those that tie. */
  lemma ChoiceIsLowestForWeight(h: Digest, key: string, cs: seq<Candidate>, r: nat)
    requires cs != [] && Weighted(cs) && r < |cs|
    ensures r == Choose(h, key, cs) <==>
              && (forall j: nat :: j < |cs| ==> NotWorse(h, key, cs, r, j))
              && (forall j: nat :: j < r ==> !NotWorse(h, key, cs, j, r))
  {
    hide FirstMin, NotWorse;
    var xs := Scores(h, key, cs);
    forall i: nat, j: nat | i < |cs| && j < |cs|
      ensures xs[i] <= xs[j] <==> NotWorse(h, key, cs, i, j)
    {
      ScoresCompare(h, key, cs, i, j);
    }
    if (forall j: nat :: j < |cs| ==> NotWorse(h, key, cs, r, j))
       && (forall j: nat :: j < r ==> !NotWorse(h, key, cs, j, r)) {
      FirstMinIsUnique(xs, r);
    }
  }

  lemma ScoresCompare(h: Digest, key: string, cs: seq<Candidate>, i: nat, j: nat)
    requires Weighted(cs) && i < |cs| && j < |cs|
    ensures Score(h, key, cs[i]) <= Score(h, key, cs[j]) <==> NotWorse(h, key, cs, i, j)
  {
    assert cs[i] in cs && cs[j] in cs;
    CompareScores(h(key, cs[i].url), cs[i].weight, h(key, cs[j].url), cs[j].weight);
  }

  // ---- Keys ----

  lemma {:induction false} DecimalIsInjective(a: nat, b: nat)
    requires Decimal(a) == Decimal(b)
    ensures a == b
  {
    ParseDecimal(a);
    ParseDecimal(b);
  }

  /** A request's own key is used as it is, whatever the cursor; keys made from different cursors differ. */
  lemma KeysOfRequests(routingKey: string, modelId: string, a: nat, b: nat)
    ensures KeyFor(routingKey, true, modelId, a) == routingKey
    ensures KeyFor(routingKey, false, modelId, a) == KeyFor(routingKey, false, modelId, b) ==> a == b
  {
    if KeyFor(routingKey, false, modelId, a) == KeyFor(routingKey, false, modelId, b) {
      var n, x := |modelId| + 1, modelId + ":" + Decimal(a);
      assert x[n..] == Decimal(a) && (modelId + ":" + Decimal(b))[n..] == Decimal(b);
      DecimalIsInjective(a, b);
    }
  }
}
