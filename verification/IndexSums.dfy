/** Sums of integer sequences over sets of indices. */
module IndexSums {

  /** The indices of a sequence of length `n`. */
  ghost function Indices(n: nat): (r: set<nat>)
    ensures forall i: nat :: i in r <==> i < n
  {
    if n == 0 then {} else Indices(n - 1) + {n - 1}
  }

  lemma {:induction false} IndicesSize(n: nat)
    ensures |Indices(n)| == n
  {
    if n > 0 {
      IndicesSize(n - 1);
      var before := Indices(n - 1);
      assert Indices(n) == before + {n - 1} && n - 1 !in before;
    }
  }

  /** The sum of `f[i]` over the indices `i` of `f` that lie in `s`. */
  ghost function SumOn(f: seq<int>, s: set<nat>): int {
    if f == [] then 0
    else SumOn(f[..|f| - 1], s) + if |f| - 1 in s then f[|f| - 1] else 0
  }

  lemma {:induction false} SumOnInsert(f: seq<int>, s: set<nat>, i: nat)
    requires i < |f| && i !in s
    ensures SumOn(f, s + {i}) == SumOn(f, s) + f[i]
  {
    var front := f[..|f| - 1];
    if i == |f| - 1 {
      SumOnSameMembers(front, s, s + {i});
    } else {
      SumOnInsert(front, s, i);
    }
  }

  lemma {:induction false} SumOnSameMembers(f: seq<int>, s: set<nat>, t: set<nat>)
    requires forall i: nat :: i < |f| ==> (i in s <==> i in t)
    ensures SumOn(f, s) == SumOn(f, t)
  {
    if f != [] {
      SumOnSameMembers(f[..|f| - 1], s, t);
    }
  }

  lemma {:induction false} SumOnMonotone(f: seq<nat>, s: set<nat>, t: set<nat>)
    requires forall i: nat :: i < |f| && i in s ==> i in t
    ensures 0 <= SumOn(f, s) <= SumOn(f, t)
  {
    if f != [] {
      SumOnMonotone(f[..|f| - 1], s, t);
    }
  }

  lemma {:induction false} SumOnZeros(f: seq<int>, s: set<nat>)
    requires forall i: nat :: i < |f| && i in s ==> f[i] == 0
    ensures SumOn(f, s) == 0
  {
    if f != [] {
      SumOnZeros(f[..|f| - 1], s);
    }
  }

  /** If every summand is at most zero, so is the sum. */
  lemma {:induction false} SumOnNonPositive(f: seq<int>, s: set<nat>)
    requires forall i: nat :: i < |f| && i in s ==> f[i] <= 0
    ensures SumOn(f, s) <= 0
  {
    if f != [] {
      SumOnNonPositive(f[..|f| - 1], s);
    }
  }

  /** If no summand is negative and the sum is zero, every summand is zero. */
  lemma {:induction false} SumOnZeroMeansZeros(f: seq<int>, s: set<nat>)
    requires forall i: nat :: i < |f| && i in s ==> f[i] >= 0
    ensures SumOn(f, s) >= 0
    ensures SumOn(f, s) == 0 ==> forall i: nat :: i < |f| && i in s ==> f[i] == 0
  {
    if f != [] {
      SumOnZeroMeansZeros(f[..|f| - 1], s);
      assert forall i: nat :: i < |f| - 1 && i in s ==> f[..|f| - 1][i] == f[i];
    }
  }

  /** How a sum changes when `w` is added on `c` and `t` is taken off index `v`. */
  lemma {:induction false} SumOnShift(f: seq<int>, g: seq<int>, w: seq<nat>, c: set<nat>, v: nat, t: int, s: set<nat>)
    requires |f| == |g| == |w|
    requires forall i: nat :: i < |f| ==>
               g[i] == f[i] + (if i in c then w[i] else 0) - (if i == v then t else 0)
    ensures SumOn(g, s) == SumOn(f, s) + SumOn(w, s * c) - (if v in s && v < |f| then t else 0)
  {
    if f != [] {
      var n := |f| - 1;
      forall i: nat | i < n
        ensures g[..n][i] == f[..n][i] + (if i in c then w[..n][i] else 0) - (if i == v then t else 0)
      {
      }
      SumOnShift(f[..n], g[..n], w[..n], c, v, t, s);
    }
  }
}
