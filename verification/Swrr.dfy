/**
 Smooth weighted round robin: the selection step of core/src/upstream/routing.rs,
 on the weights and running weights of a group, and what holds over whole runs.

 A round offers a list of distinct candidates; the list changes from round to
 round as circuit breakers open and close. Running weights are machine integers
 in the program: `WrapStep` wraps like an i64, `Step` is exact, and
 `RunNeverWraps` shows when they agree.
 */
module Swrr {
  import opened IndexSums
  import opened Options

  const TWO_63: int := 0x8000_0000_0000_0000
  const TWO_64: int := 0x1_0000_0000_0000_0000

  /**
   The i64 that results when the exact value is `x`. Weights are at most 255, so an addition
   or subtraction leaves the range by less than 2^64.
   */
  function WrapI64(x: int): (r: int)
    ensures -TWO_63 <= x < TWO_63 ==> r == x
    ensures -TWO_63 - TWO_64 <= x < TWO_63 + TWO_64 ==> -TWO_63 <= r < TWO_63
    ensures r == x || r == x - TWO_64 || r == x + TWO_64
  {
    if x >= TWO_63 then x - TWO_64 else if x < -TWO_63 then x + TWO_64 else x
  }

  /** The position of the first maximum, as the fold with a strict comparison finds it. */
  function FirstMax(xs: seq<int>): (r: nat)
    requires xs != []
    ensures r < |xs|
    ensures forall k: nat :: k < r ==> xs[k] < xs[r]
    ensures forall k: nat :: r <= k < |xs| ==> xs[k] <= xs[r]
  {
    if |xs| == 1 then 0
    else
      var r := FirstMax(xs[..|xs| - 1]);
      if xs[|xs| - 1] > xs[r] then |xs| - 1 else r
  }

  lemma FirstMaxIsUnique(xs: seq<int>, r: nat)
    requires r < |xs|
    requires forall k: nat :: k < r ==> xs[k] < xs[r]
    requires forall k: nat :: r <= k < |xs| ==> xs[k] <= xs[r]
    ensures r == FirstMax(xs)
  {
    var m := FirstMax(xs);
    assert xs[m] == xs[r];
  }

  /** A round: distinct indices into a group of `n` bindings, in candidate order. */
  ghost predicate ValidRound(cs: seq<nat>, n: nat) {
    && (forall k :: 0 <= k < |cs| ==> cs[k] < n)
    && (forall j, k :: 0 <= j < k < |cs| ==> cs[j] != cs[k])
  }

  ghost predicate ValidRounds(rounds: seq<seq<nat>>, n: nat) {
    forall r :: 0 <= r < |rounds| ==> ValidRound(rounds[r], n)
  }

  function Members(cs: seq<nat>): set<nat> {
    set c | c in cs
  }

  /** The total weight of the listed candidates. */
  function WeightOf(w: seq<nat>, cs: seq<nat>): nat
    requires forall k :: 0 <= k < |cs| ==> cs[k] < |w|
  {
    if cs == [] then 0 else WeightOf(w, cs[..|cs| - 1]) + w[cs[|cs| - 1]]
  }

  /** Running weights once every candidate has been credited its weight. */
  function Credited(w: seq<nat>, cw: seq<int>, cs: seq<nat>): (r: seq<int>)
    requires |w| == |cw|
    ensures |r| == |cw|
    ensures forall i: nat :: i < |cw| ==> r[i] == cw[i] + if i in cs then w[i] else 0
  {
    if cw == [] then []
    else
      var n := |cw| - 1;
      Credited(w[..n], cw[..n], cs) + [cw[n] + if n in cs then w[n] else 0]
  }

  /** The values of `cw` at the candidates, in candidate order. */
  function At(cw: seq<int>, cs: seq<nat>): (r: seq<int>)
    requires forall k :: 0 <= k < |cs| ==> cs[k] < |cw|
    ensures |r| == |cs|
    ensures forall k: nat :: k < |cs| ==> r[k] == cw[cs[k]]
  {
    if cs == [] then [] else At(cw, cs[..|cs| - 1]) + [cw[cs[|cs| - 1]]]
  }

  /** The binding chosen by a round; none when there is no candidate. */
  ghost function Pick(w: seq<nat>, cw: seq<int>, cs: seq<nat>): (r: Option<nat>)
    requires |w| == |cw| && ValidRound(cs, |w|)
    ensures r.None? <==> cs == []
    ensures r.Some? ==> r.value in cs && r.value < |w|
  {
    if cs == [] then None else Some(cs[FirstMax(At(Credited(w, cw, cs), cs))])
  }

  /** The running weights after a round. */
  ghost function Step(w: seq<nat>, cw: seq<int>, cs: seq<nat>): (r: seq<int>)
    requires |w| == |cw| && ValidRound(cs, |w|)
    ensures |r| == |cw|
    ensures cs == [] ==> r == cw
  {
    match Pick(w, cw, cs)
    case None => cw
    case Some(v) => var up := Credited(w, cw, cs); up[v := up[v] - WeightOf(w, cs)]
  }

  // ---- The same round on wrapping 64-bit integers ----

  function WrapCredited(w: seq<nat>, cw: seq<int>, cs: seq<nat>): (r: seq<int>)
    requires |w| == |cw|
    ensures |r| == |cw|
    ensures forall i: nat :: i < |cw| ==> r[i] == if i in cs then WrapI64(cw[i] + w[i]) else cw[i]
  {
    if cw == [] then []
    else
      var n := |cw| - 1;
      WrapCredited(w[..n], cw[..n], cs) + [if n in cs then WrapI64(cw[n] + w[n]) else cw[n]]
  }

  /** The choice made from the wrapped running weights. */
  ghost function WrapPick(w: seq<nat>, cw: seq<int>, cs: seq<nat>): (r: Option<nat>)
    requires |w| == |cw| && ValidRound(cs, |w|)
    ensures r.None? <==> cs == []
    ensures r.Some? ==> r.value in cs && r.value < |w|
  {
    if cs == [] then None else Some(cs[FirstMax(At(WrapCredited(w, cw, cs), cs))])
  }

  ghost function WrapStep(w: seq<nat>, cw: seq<int>, cs: seq<nat>): (r: seq<int>)
    requires |w| == |cw| && ValidRound(cs, |w|)
    ensures |r| == |cw|
    ensures cs == [] ==> r == cw
  {
    match WrapPick(w, cw, cs)
    case None => cw
    case Some(v) => var up := WrapCredited(w, cw, cs); up[v := WrapI64(up[v] - WeightOf(w, cs))]
  }

  // ---- Runs ----

  /** Every running weight starts at zero. */
  function Zeros(n: nat): (r: seq<int>)
    ensures |r| == n
  {
    seq(n, _ => 0)
  }

  /** The running weights after all `rounds`, starting from `cw`. */
  ghost function Run(w: seq<nat>, cw: seq<int>, rounds: seq<seq<nat>>): (r: seq<int>)
    requires |w| == |cw| && ValidRounds(rounds, |w|)
    ensures |r| == |w|
  {
    if rounds == [] then cw
    else Step(w, Run(w, cw, rounds[..|rounds| - 1]), rounds[|rounds| - 1])
  }

  /** The choices made by `rounds`, in order. */
  ghost function Picks(w: seq<nat>, cw: seq<int>, rounds: seq<seq<nat>>): (r: seq<Option<nat>>)
    requires |w| == |cw| && ValidRounds(rounds, |w|)
    ensures |r| == |rounds|
  {
    if rounds == [] then []
    else
      var before := rounds[..|rounds| - 1];
      Picks(w, cw, before) + [Pick(w, Run(w, cw, before), rounds[|rounds| - 1])]
  }

  /** The same run on 64-bit integers. */
  ghost function WrapRun(w: seq<nat>, cw: seq<int>, rounds: seq<seq<nat>>): (r: seq<int>)
    requires |w| == |cw| && ValidRounds(rounds, |w|)
    ensures |r| == |w|
  {
    if rounds == [] then cw
    else WrapStep(w, WrapRun(w, cw, rounds[..|rounds| - 1]), rounds[|rounds| - 1])
  }

  ghost function Total(w: seq<nat>): nat {
    SumOnMonotone(w, {}, Indices(|w|));
    SumOnZeros(w, {});
    SumOn(w, Indices(|w|))
  }

  /** Subset `s` of a group of `n` bindings owes at most W * |s| * (n - |s|). */
  ghost predicate SubsetCredit(w: seq<nat>, cw: seq<int>, s: set<nat>)
    requires |w| == |cw|
  {
    SumOn(cw, s) <= Total(w) * (|s| * (|w| - |s|))
  }

  /** The bounded-credit invariant. */
  ghost predicate Credit(w: seq<nat>, cw: seq<int>) {
    && |w| == |cw|
    && SumOn(cw, Indices(|w|)) == 0
    && forall s: set<nat> :: s <= Indices(|w|) ==> SubsetCredit(w, cw, s)
  }

  // ---- One round keeps the invariant ----

  lemma {:induction false} WeightIsSumOn(w: seq<nat>, cs: seq<nat>)
    requires ValidRound(cs, |w|)
    ensures WeightOf(w, cs) == SumOn(w, Members(cs))
  {
    if cs == [] {
      assert Members(cs) == {};
      SumOnZeros(w, {});
    } else {
      var before, last := cs[..|cs| - 1], cs[|cs| - 1];
      WeightIsSumOn(w, before);
      SumOnInsert(w, Members(before), last);
      assert Members(cs) == Members(before) + {last};
    }
  }

  /** `next` credits every index in `c` its weight and charges the leader `v` all of them. */
  ghost predicate Charged(w: seq<nat>, cw: seq<int>, next: seq<int>, c: set<nat>, v: nat) {
    && |w| == |cw| == |next|
    && c <= Indices(|w|) && v in c
    && (forall i: nat :: i < |w| ==>
          next[i] == cw[i] + (if i in c then w[i] else 0) - (if i == v then SumOn(w, c) else 0))
    && (forall i: nat :: i < |w| && i in c ==> cw[i] + w[i] <= cw[v] + w[v])
  }

  /** A non-empty round credits its candidates and charges a candidate that leads them. */
  lemma StepCharges(w: seq<nat>, cw: seq<int>, cs: seq<nat>, v: nat)
    requires |w| == |cw| && ValidRound(cs, |w|) && Pick(w, cw, cs) == Some(v)
    ensures Charged(w, cw, Step(w, cw, cs), Members(cs), v)
    ensures SumOn(w, Members(cs)) == WeightOf(w, cs)
  {
    var up := Credited(w, cw, cs);
    var at := At(up, cs);
    var m := FirstMax(at);
    forall c: nat | c < |w| && c in Members(cs)
      ensures cw[c] + w[c] <= cw[v] + w[v]
    {
      var k :| 0 <= k < |cs| && cs[k] == c;
      assert at[k] <= at[m];
    }
    WeightIsSumOn(w, cs);
  }

  /** The sum over a set after a charge. */
  lemma ChargedSum(w: seq<nat>, cw: seq<int>, next: seq<int>, c: set<nat>, v: nat, s: set<nat>)
    requires Charged(w, cw, next, c, v)
    ensures SumOn(next, s) == SumOn(cw, s) + SumOn(w, s * c) - (if v in s then SumOn(w, c) else 0)
  {
    SumOnShift(cw, next, w, c, v, SumOn(w, c), s);
  }

  /** The averaging argument, on plain numbers. */
  lemma AveragedBound(W: int, s: int, n: int, sum: int, cwi: int, cwv: int, wi: int, wv: int, gain: int)
    requires sum - cwi <= W * ((s - 1) * (n - (s - 1)))
    requires sum + cwv <= W * ((s + 1) * (n - (s + 1)))
    requires cwi + wi <= cwv + wv
    requires 0 <= wi && 0 <= wv && gain + wv <= W
    ensures sum + gain <= W * (s * (n - s))
  {
    var p := s * (n - s);
    var d := 2 * s - n;
    assert (s - 1) * (n - (s - 1)) == p + d - 1;
    assert (s + 1) * (n - (s + 1)) == p - d - 1;
    assert W * (p + d - 1) + W * (p - d - 1) == 2 * (W * p) - 2 * W;
  }

  /** The two subsets the inductive step compares with: `s` without `i`, and with `v`. */
  lemma NeighbourSums(w: seq<nat>, cw: seq<int>, c: set<nat>, s: set<nat>, i: nat, v: nat)
    requires |w| == |cw| && i < |w| && v < |w| && i in s && v !in s
    ensures SumOn(cw, s - {i}) == SumOn(cw, s) - cw[i] && |s - {i}| == |s| - 1
    ensures SumOn(cw, s + {v}) == SumOn(cw, s) + cw[v] && |s + {v}| == |s| + 1
    ensures SumOn(w, s * c) + w[v] <= Total(w)
  {
    var less := s - {i};
    assert less + {i} == s;
    SumOnInsert(cw, less, i);
    SumOnInsert(cw, s, v);
    SumOnInsert(w, s * c, v);
    SumOnMonotone(w, (s * c) + {v}, Indices(|w|));
  }

  lemma ChargedKeepsSubsetCredit(w: seq<nat>, cw: seq<int>, next: seq<int>, c: set<nat>, v: nat, s: set<nat>)
    requires Credit(w, cw) && Charged(w, cw, next, c, v) && s <= Indices(|w|)
    ensures SubsetCredit(w, next, s)
  {
    hide Total, SumOn;
    assert SubsetCredit(w, cw, s);
    ChargedSum(w, cw, next, c, v, s);
    if v in s {
      SumOnMonotone(w, s * c, c);
    } else if s * c == {} {
      SumOnZeros(w, s * c);
    } else {
      var i :| i in s * c;
      assert SubsetCredit(w, cw, s - {i}) && SubsetCredit(w, cw, s + {v});
      NeighbourSums(w, cw, c, s, i, v);
      AveragedBound(Total(w), |s|, |w|, SumOn(cw, s), cw[i], cw[v], w[i], w[v], SumOn(w, s * c));
    }
  }

  /** A round over any candidates keeps the bounded-credit invariant. */
  lemma StepKeepsCredit(w: seq<nat>, cw: seq<int>, cs: seq<nat>)
    requires Credit(w, cw) && ValidRound(cs, |w|)
    ensures Credit(w, Step(w, cw, cs))
  {
    hide Step, Pick, SubsetCredit, Total, SumOn, Members;
    if cs != [] {
      var next, c, v := Step(w, cw, cs), Members(cs), Pick(w, cw, cs).value;
      StepCharges(w, cw, cs, v);
      forall s: set<nat> | s <= Indices(|w|)
        ensures SubsetCredit(w, next, s)
      {
        ChargedKeepsSubsetCredit(w, cw, next, c, v, s);
      }
      ChargedSum(w, cw, next, c, v, Indices(|w|));
      assert Indices(|w|) * c == c;
    }
  }

  lemma ZerosHaveCredit(w: seq<nat>)
    ensures Credit(w, Zeros(|w|))
  {
    var zeros := Zeros(|w|);
    forall s: set<nat> | s <= Indices(|w|)
      ensures SubsetCredit(w, zeros, s)
    {
      SumOnZeros(zeros, s);
      SubsetSize(s, |w|);
      ProductIsNatural(|s|, |w| - |s|);
      ProductIsNatural(Total(w), |s| * (|w| - |s|));
    }
    SumOnZeros(zeros, Indices(|w|));
  }

  lemma ProductIsNatural(a: nat, b: nat)
    ensures a * b >= 0
  {
  }

  lemma SubsetSize(s: set<nat>, n: nat)
    requires s <= Indices(n)
    ensures |s| <= n
  {
    IndicesSize(n);
    var rest := Indices(n) - s;
    assert s + rest == Indices(n);
  }

  // ---- Main results ----

  /** Bounded credit over every run of rounds, whatever candidates each of them has. */
  lemma {:induction false} RunKeepsCredit(w: seq<nat>, cw: seq<int>, rounds: seq<seq<nat>>)
    requires Credit(w, cw) && ValidRounds(rounds, |w|)
    ensures Credit(w, Run(w, cw, rounds))
  {
    if rounds != [] {
      RunKeepsCredit(w, cw, rounds[..|rounds| - 1]);
      StepKeepsCredit(w, Run(w, cw, rounds[..|rounds| - 1]), rounds[|rounds| - 1]);
    }
  }

  lemma SingletonSums(w: seq<nat>, cw: seq<int>, i: nat)
    requires i < |w| == |cw|
    ensures SumOn(cw, {i}) == cw[i] && {i} <= Indices(|w|) && |{i}| == 1
    ensures var rest := Indices(|w|) - {i};
            SumOn(cw, rest) == SumOn(cw, Indices(|w|)) - cw[i] && |rest| == |w| - 1
  {
    var rest := Indices(|w|) - {i};
    IndicesSize(|w|);
    SumOnZeros(cw, {});
    SumOnInsert(cw, {}, i);
    assert {} + {i} == {i};
    SumOnInsert(cw, rest, i);
    assert rest + {i} == Indices(|w|);
  }

  /** No single running weight leaves [-W(n-1), W(n-1)]. */
  lemma CreditBoundsEach(w: seq<nat>, cw: seq<int>, i: nat)
    requires Credit(w, cw) && i < |w|
    ensures -(Total(w) * (|w| - 1)) <= cw[i] <= Total(w) * (|w| - 1)
  {
    hide Total, SumOn;
    SingletonSums(w, cw, i);
    assert SubsetCredit(w, cw, {i}) && SubsetCredit(w, cw, Indices(|w|) - {i});
    assert (|w| - 1) * (|w| - (|w| - 1)) == |w| - 1;
  }

  lemma CreditedIsInRange(w: seq<nat>, cw: seq<int>, i: nat)
    requires Credit(w, cw) && Total(w) * |w| < TWO_63 && i < |w|
    ensures -TWO_63 <= cw[i] < TWO_63 && -TWO_63 <= cw[i] + w[i] < TWO_63
  {
    CreditBoundsEach(w, cw, i);
    SumOnZeros(w, {});
    SumOnInsert(w, {}, i);
    SumOnMonotone(w, {} + {i}, Indices(|w|));
    assert Total(w) * (|w| - 1) + Total(w) == Total(w) * |w|;
  }

  lemma CreditedDoesNotWrap(w: seq<nat>, cw: seq<int>, cs: seq<nat>)
    requires |w| == |cw|
    requires forall i: nat :: i < |w| ==> -TWO_63 <= cw[i] + w[i] < TWO_63
    ensures WrapCredited(w, cw, cs) == Credited(w, cw, cs)
  {
    var a, b := WrapCredited(w, cw, cs), Credited(w, cw, cs);
    forall i: nat | i < |w|
      ensures a[i] == b[i]
    {
      assert -TWO_63 <= cw[i] + w[i] < TWO_63;
    }
  }

  /** Equal credited weights give equal picks. */
  lemma SamePick(w: seq<nat>, cw: seq<int>, cs: seq<nat>)
    requires |w| == |cw| && ValidRound(cs, |w|)
    requires WrapCredited(w, cw, cs) == Credited(w, cw, cs)
    ensures WrapPick(w, cw, cs) == Pick(w, cw, cs)
  {
    hide Credited, WrapCredited, FirstMax, At;
  }

  lemma StepIs(w: seq<nat>, cw: seq<int>, cs: seq<nat>, up: seq<int>, v: nat, total: nat)
    requires |w| == |cw| && ValidRound(cs, |w|) && v < |up| && Pick(w, cw, cs) == Some(v)
    requires up == Credited(w, cw, cs) && total == WeightOf(w, cs)
    ensures Step(w, cw, cs) == up[v := up[v] - total]
  {
    hide Credited, WeightOf, Pick, ValidRound;
  }

  lemma WrapStepIs(w: seq<nat>, cw: seq<int>, cs: seq<nat>, up: seq<int>, v: nat, total: nat)
    requires |w| == |cw| && ValidRound(cs, |w|) && v < |up| && WrapPick(w, cw, cs) == Some(v)
    requires up == WrapCredited(w, cw, cs) && total == WeightOf(w, cs)
    ensures WrapStep(w, cw, cs) == up[v := WrapI64(up[v] - total)]
  {
    hide WrapCredited, WeightOf, WrapPick, WrapI64, ValidRound;
  }

  ghost predicate Fits64(xs: seq<int>) {
    forall i: nat :: i < |xs| ==> -TWO_63 <= xs[i] < TWO_63
  }

  lemma InRangeDoesNotWrap(w: seq<nat>, cw: seq<int>, cs: seq<nat>, up: seq<int>, v: nat, total: nat)
    requires |w| == |cw| && ValidRound(cs, |w|) && v < |up| && Fits64(Step(w, cw, cs))
    requires up == WrapCredited(w, cw, cs) == Credited(w, cw, cs) && total == WeightOf(w, cs)
    requires WrapPick(w, cw, cs) == Pick(w, cw, cs) == Some(v)
    ensures WrapStep(w, cw, cs) == Step(w, cw, cs)
  {
    hide *;
    StepIs(w, cw, cs, up, v, total);
    WrapStepIs(w, cw, cs, up, v, total);
    SameCharge(up, v, total, Step(w, cw, cs), WrapStep(w, cw, cs));
  }

  lemma SameCharge(up: seq<int>, v: nat, total: nat, next: seq<int>, wrapped: seq<int>)
    requires v < |up| && next == up[v := up[v] - total] && wrapped == up[v := WrapI64(up[v] - total)]
    requires Fits64(next)
    ensures wrapped == next
  {
  }

  /** A round does not wrap when W * n fits in an i64, and then makes the exact choice. */
  lemma StepDoesNotWrap(w: seq<nat>, cw: seq<int>, cs: seq<nat>)
    requires Credit(w, cw) && ValidRound(cs, |w|)
    requires Total(w) * |w| < TWO_63
    ensures WrapPick(w, cw, cs) == Pick(w, cw, cs)
    ensures WrapStep(w, cw, cs) == Step(w, cw, cs)
  {
    hide Credited, WrapCredited, WeightOf, Pick, WrapPick, Step, WrapStep, Credit, Total;
    CreditLength(w, cw);
    StepKeepsCredit(w, cw, cs);
    CreditFits(w, cw);
    CreditFits(w, Step(w, cw, cs));
    CreditedDoesNotWrap(w, cw, cs);
    SamePick(w, cw, cs);
    if cs != [] {
      InRangeDoesNotWrap(w, cw, cs, Credited(w, cw, cs), Pick(w, cw, cs).value, WeightOf(w, cs));
    }
  }

  lemma CreditFits(w: seq<nat>, cw: seq<int>)
    requires Credit(w, cw) && Total(w) * |w| < TWO_63
    ensures Fits64(cw)
    ensures forall i: nat :: i < |w| ==> -TWO_63 <= cw[i] + w[i] < TWO_63
  {
    hide Credit, Total;
    assert |w| == |cw| by {
      CreditLength(w, cw);
    }
    forall i: nat | i < |w|
      ensures -TWO_63 <= cw[i] < TWO_63 && -TWO_63 <= cw[i] + w[i] < TWO_63
    {
      CreditedIsInRange(w, cw, i);
    }
  }

  lemma CreditLength(w: seq<nat>, cw: seq<int>)
    requires Credit(w, cw)
    ensures |w| == |cw|
  {
  }

  /** The i64 arithmetic of the program never wraps, over any run. */
  lemma {:induction false} RunNeverWraps(w: seq<nat>, cw: seq<int>, rounds: seq<seq<nat>>)
    requires Credit(w, cw) && ValidRounds(rounds, |w|) && Total(w) * |w| < TWO_63
    ensures WrapRun(w, cw, rounds) == Run(w, cw, rounds)
  {
    if rounds != [] {
      var before := rounds[..|rounds| - 1];
      RunNeverWraps(w, cw, before);
      RunKeepsCredit(w, cw, before);
      StepDoesNotWrap(w, Run(w, cw, before), rounds[|rounds| - 1]);
    }
  }

  // ---- Fair shares ----

  /** In how many rounds binding `i` is a candidate. */
  ghost function Offers(rounds: seq<seq<nat>>, i: nat): nat {
    if rounds == [] then 0
    else Offers(rounds[..|rounds| - 1], i) + if i in rounds[|rounds| - 1] then 1 else 0
  }

  /** How often `i` occurs among the choices. */
  ghost function Wins(picks: seq<Option<nat>>, i: nat): nat {
    if picks == [] then 0
    else Wins(picks[..|picks| - 1], i) + if picks[|picks| - 1] == Some(i) then 1 else 0
  }

  /** What binding `i` has been charged in all: the candidates' total weight in each round it won. */
  ghost function Paid(w: seq<nat>, cw: seq<int>, rounds: seq<seq<nat>>, i: nat): nat
    requires |w| == |cw| && ValidRounds(rounds, |w|)
  {
    if rounds == [] then 0
    else
      var before, last := rounds[..|rounds| - 1], rounds[|rounds| - 1];
      Paid(w, cw, before, i) + if Pick(w, Run(w, cw, before), last) == Some(i) then WeightOf(w, last) else 0
  }

  lemma StepAccount(w: seq<nat>, cw: seq<int>, cs: seq<nat>, i: nat)
    requires |w| == |cw| && ValidRound(cs, |w|) && i < |w|
    ensures Step(w, cw, cs)[i] ==
            cw[i] + (if i in cs then w[i] else 0) - (if Pick(w, cw, cs) == Some(i) then WeightOf(w, cs) else 0)
  {
    hide Pick, WeightOf;
  }

  /** A running weight is what its binding was offered less what it was charged. */
  lemma {:induction false} RunAccount(w: seq<nat>, cw: seq<int>, rounds: seq<seq<nat>>, i: nat)
    requires |w| == |cw| && ValidRounds(rounds, |w|) && i < |w|
    ensures Run(w, cw, rounds)[i] == cw[i] + Offers(rounds, i) * w[i] - Paid(w, cw, rounds, i)
  {
    hide Step, Pick, WeightOf;
    if rounds != [] {
      var before, last := rounds[..|rounds| - 1], rounds[|rounds| - 1];
      RunAccount(w, cw, before, i);
      StepAccount(w, Run(w, cw, before), last, i);
      GainIsLinear(Offers(before, i), w[i]);
    }
  }

  lemma GainIsLinear(k: int, x: int)
    ensures (k + 1) * x == k * x + x
  {
  }

  /**
   Fair shares over any run, from any reachable state and whatever the other candidates do: what a
   binding is charged differs from its weight in every round that offered it by at most 2W(n-1).
   */
  lemma FairShare(w: seq<nat>, cw: seq<int>, rounds: seq<seq<nat>>, i: nat)
    requires Credit(w, cw) && ValidRounds(rounds, |w|) && i < |w|
    ensures var slack := 2 * (Total(w) * (|w| - 1));
            Offers(rounds, i) * w[i] - slack <= Paid(w, cw, rounds, i) <= Offers(rounds, i) * w[i] + slack
  {
    hide Credit, Run, Total, Offers, Paid;
    CreditLength(w, cw);
    RunAccount(w, cw, rounds, i);
    RunKeepsCredit(w, cw, rounds);
    CreditBoundsEach(w, cw, i);
    CreditBoundsEach(w, Run(w, cw, rounds), i);
  }

  lemma {:induction false} NeverPickedPaysNothing(w: seq<nat>, cw: seq<int>, rounds: seq<seq<nat>>, i: nat)
    requires |w| == |cw| && ValidRounds(rounds, |w|)
    requires Some(i) !in Picks(w, cw, rounds)
    ensures Paid(w, cw, rounds, i) == 0
  {
    hide Step, Pick, WeightOf, Run;
    if rounds != [] {
      var before, picks := rounds[..|rounds| - 1], Picks(w, cw, rounds);
      assert picks == Picks(w, cw, before) + [picks[|rounds| - 1]];
      assert picks[|rounds| - 1] in picks;
      assert forall p :: p in Picks(w, cw, before) ==> p in picks;
      NeverPickedPaysNothing(w, cw, before, i);
    }
  }

  /** No starvation: a binding offered k times with k * weight > 2W(n-1) has been chosen at least once. */
  lemma NoStarvation(w: seq<nat>, cw: seq<int>, rounds: seq<seq<nat>>, i: nat)
    requires Credit(w, cw) && ValidRounds(rounds, |w|) && i < |w|
    requires Offers(rounds, i) * w[i] > 2 * (Total(w) * (|w| - 1))
    ensures Some(i) in Picks(w, cw, rounds)
  {
    hide Credit, Total, Offers, Paid, Picks;
    CreditLength(w, cw);
    FairShare(w, cw, rounds, i);
    if Some(i) !in Picks(w, cw, rounds) {
      NeverPickedPaysNothing(w, cw, rounds, i);
      assert false;
    }
  }

  // ---- Exact proportions with a fixed candidate list ----

  ghost function Repeat(cs: seq<nat>, k: nat): (r: seq<seq<nat>>)
    ensures |r| == k
    ensures forall j :: 0 <= j < k ==> r[j] == cs
  {
    if k == 0 then [] else Repeat(cs, k - 1) + [cs]
  }

  /** The account after `k` rounds over `c`, `wins[i]` of them won by `i`. */
  ghost predicate Account(w: seq<nat>, cw: seq<int>, c: set<nat>, k: nat, picks: seq<Option<nat>>) {
    && |w| == |cw| && c <= Indices(|w|)
    && SumOn(cw, c) == 0
    && (forall i: nat :: i < |w| && i in c ==>
          cw[i] == k * w[i] - SumOn(w, c) * Wins(picks, i) && cw[i] > -SumOn(w, c))
    && (forall i: nat :: i < |w| && i !in c ==> cw[i] == 0)
  }

  /** When the running weights of `c` sum to zero, the winner is credited above zero. */
  lemma WinnerIsPositive(w: seq<nat>, cw: seq<int>, next: seq<int>, c: set<nat>, v: nat)
    requires Charged(w, cw, next, c, v) && SumOn(cw, c) == 0 && SumOn(w, c) > 0
    ensures next[v] > -SumOn(w, c)
  {
    if cw[v] + w[v] <= 0 {
      var up := seq(|cw|, i requires 0 <= i < |cw| => cw[i] + if i in c then w[i] else 0);
      SumOnShift(cw, up, w, c, |w|, 0, c);
      assert c * c == c;
      SumOnNonPositive(up, c);
    }
  }

  lemma ChargeAccountsFor(W: int, k: int, x: int, wins: int, won: int, was: int, now: int)
    requires 0 <= won <= 1
    requires was == k * x - W * wins && now == was + x - won * W
    ensures now == (k + 1) * x - W * (wins + won)
  {
    assert W * (wins + won) == W * wins + W * won;
  }

  lemma ChargeKeepsAccount(
      w: seq<nat>, cw: seq<int>, next: seq<int>, c: set<nat>, v: nat, k: nat, picks: seq<Option<nat>>)
    requires Account(w, cw, c, k, picks) && Charged(w, cw, next, c, v) && SumOn(w, c) > 0
    ensures Account(w, next, c, k + 1, picks + [Some(v)])
  {
    var W, now := SumOn(w, c), picks + [Some(v)];
    assert now[..|now| - 1] == picks;
    ChargedSum(w, cw, next, c, v, c);
    assert c * c == c;
    WinnerIsPositive(w, cw, next, c, v);
    forall i: nat | i < |w| && i in c
      ensures next[i] == (k + 1) * w[i] - W * Wins(now, i) && next[i] > -W
    {
      ChargeAccountsFor(W, k, w[i], Wins(picks, i), if i == v then 1 else 0, cw[i], next[i]);
    }
  }

  lemma RunSnoc(w: seq<nat>, cw: seq<int>, rounds: seq<seq<nat>>, cs: seq<nat>)
    requires |w| == |cw| && ValidRounds(rounds, |w|) && ValidRound(cs, |w|)
    ensures ValidRounds(rounds + [cs], |w|)
    ensures Run(w, cw, rounds + [cs]) == Step(w, Run(w, cw, rounds), cs)
    ensures Picks(w, cw, rounds + [cs]) == Picks(w, cw, rounds) + [Pick(w, Run(w, cw, rounds), cs)]
  {
    hide Step, Pick;
    var all := rounds + [cs];
    assert all[..|all| - 1] == rounds && all[|all| - 1] == cs;
  }

  lemma FreshAccount(w: seq<nat>, c: set<nat>)
    requires c <= Indices(|w|) && SumOn(w, c) > 0
    ensures Account(w, Zeros(|w|), c, 0, [])
  {
    SumOnZeros(Zeros(|w|), c);
  }

  /**
   With a fixed list, after k rounds: a candidate's running weight is k times its weight
   less W for every time it won, it is above -W, and the candidates' sum is zero.
   */
  lemma {:induction false} FixedListAccount(w: seq<nat>, cs: seq<nat>, k: nat)
    requires ValidRound(cs, |w|) && cs != [] && WeightOf(w, cs) > 0
    ensures ValidRounds(Repeat(cs, k), |w|)
    ensures Account(w, Run(w, Zeros(|w|), Repeat(cs, k)), Members(cs), k, Picks(w, Zeros(|w|), Repeat(cs, k)))
  {
    hide Step, Pick, WeightOf, Account, Charged;
    WeightIsSumOn(w, cs);
    if k == 0 {
      FreshAccount(w, Members(cs));
    } else {
      FixedListAccount(w, cs, k - 1);
      var before := Repeat(cs, k - 1);
      var cw := Run(w, Zeros(|w|), before);
      RunSnoc(w, Zeros(|w|), before, cs);
      var v := Pick(w, cw, cs).value;
      StepCharges(w, cw, cs, v);
      ChargeKeepsAccount(w, cw, Step(w, cw, cs), Members(cs), v, k - 1, Picks(w, Zeros(|w|), before));
    }
  }

  /**
   Exact proportions: if the candidate weights are g times the numbers `u` (with g their
   gcd, for the shortest period), then after m times the sum of `u` rounds over the same list
   candidate i has won exactly m * u[i] times and all running weights are zero again.
   */
  lemma FixedListIsProportional(w: seq<nat>, u: seq<nat>, g: nat, cs: seq<nat>, m: nat, k: nat)
    requires ValidRound(cs, |w|) && cs != [] && |u| == |w|
    requires forall c :: c in cs ==> c < |w| && 0 < w[c] == g * u[c]
    requires k == m * WeightOf(u, cs)
    ensures ValidRounds(Repeat(cs, k), |w|)
    ensures Run(w, Zeros(|w|), Repeat(cs, k)) == Zeros(|w|)
    ensures forall i :: i in cs ==> Wins(Picks(w, Zeros(|w|), Repeat(cs, k)), i) == m * u[i]
  {
    hide Run, Picks, Account;
    ScaledWeight(w, u, g, cs);
    assert cs[|cs| - 1] in cs;
    WeightIsSumOn(w, cs);
    var rounds := Repeat(cs, k);
    FixedListAccount(w, cs, k);
    var cw, picks := Run(w, Zeros(|w|), rounds), Picks(w, Zeros(|w|), rounds);
    AccountCloses(w, u, g, cw, Members(cs), k, m, WeightOf(u, cs), picks);
    assert forall i :: i in cs ==> i in Members(cs);
  }

  /** After whole periods the account is settled. */
  lemma AccountCloses(
      w: seq<nat>, u: seq<nat>, g: nat, cw: seq<int>, c: set<nat>, k: nat, m: nat, U: nat, picks: seq<Option<nat>>)
    requires Account(w, cw, c, k, picks) && |u| == |w|
    requires k == m * U && SumOn(w, c) == g * U > 0
    requires forall i: nat :: i < |w| && i in c ==> w[i] == g * u[i]
    ensures cw == Zeros(|w|)
    ensures forall i: nat :: i in c ==> i < |w| && Wins(picks, i) == m * u[i]
  {
    forall i: nat | i < |w| && i in c
      ensures cw[i] >= 0 && (cw[i] == 0 ==> Wins(picks, i) == m * u[i])
    {
      MultipleAbove(SumOn(w, c), m, U, g, u[i], Wins(picks, i), cw[i]);
    }
    SumOnZeroMeansZeros(cw, c);
  }

  /** A multiple of W above -W is not negative. */
  lemma MultipleAbove(W: int, m: int, U: int, g: int, x: int, wins: int, value: int)
    requires W > 0 && W == g * U
    requires value == (m * U) * (g * x) - W * wins && value > -W
    ensures value >= 0
    ensures value == 0 ==> wins == m * x
  {
    var d := m * x - wins;
    assert value == W * d by {
      assert (m * U) * (g * x) == (g * U) * (m * x);
      assert W * (m * x) - W * wins == W * d;
    }
    SignOfProduct(W, d);
  }

  lemma SignOfProduct(W: int, d: int)
    requires W > 0
    ensures d < 0 ==> W * d <= -W
    ensures d > 0 ==> W * d >= W
  {
  }

  lemma {:induction false} ScaledWeight(w: seq<nat>, u: seq<nat>, g: nat, cs: seq<nat>)
    requires ValidRound(cs, |w|) && |u| == |w|
    requires forall c :: c in cs ==> c < |w| && w[c] == g * u[c]
    ensures WeightOf(w, cs) == g * WeightOf(u, cs)
  {
    if cs != [] {
      var before, last := cs[..|cs| - 1], cs[|cs| - 1];
      ScaledWeight(w, u, g, before);
      assert g * (WeightOf(u, before) + u[last]) == g * WeightOf(u, before) + g * u[last];
    }
  }
}
