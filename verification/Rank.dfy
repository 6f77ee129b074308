/** Rank normalisation: a value's place in the cohort, never its magnitude. */
module Rank {
  import opened Order

  /** A raw signal; `Unknown` is the lowest possible value, below every known one. */
  datatype Value = Unknown | Known(v: real)

  predicate Below(a: Value, b: Value)
  {
    match (a, b)
    case (_, Unknown) => false
    case (Unknown, Known(_)) => true
    case (Known(x), Known(y)) => x < y
  }

  // ---- The specification: counting ----

  function Lower(vals: seq<Value>, v: Value): nat
  {
    if |vals| == 0 then 0 else (if Below(vals[0], v) then 1 else 0) + Lower(vals[1..], v)
  }

  function Tied(vals: seq<Value>, v: Value): nat
  {
    if |vals| == 0 then 0 else (if vals[0] == v then 1 else 0) + Tied(vals[1..], v)
  }

  function Higher(vals: seq<Value>, v: Value): nat
  {
    if |vals| == 0 then 0 else (if Below(v, vals[0]) then 1 else 0) + Higher(vals[1..], v)
  }

  /** The normalised rank of `v` in a cohort of `vals`. */
  function Norm(vals: seq<Value>, v: Value): real
  {
    if |vals| < 2 then 0.5
    else (2 * Lower(vals, v) + Tied(vals, v) - 1) as real / (2 * (|vals| - 1)) as real
  }

  lemma CountsAddUp(vals: seq<Value>, v: Value)
    ensures Lower(vals, v) + Tied(vals, v) + Higher(vals, v) == |vals|
    ensures v in vals ==> Tied(vals, v) >= 1
  {
  }

  lemma CountsConcat(a: seq<Value>, b: seq<Value>, v: Value)
    ensures Lower(a + b, v) == Lower(a, v) + Lower(b, v)
    ensures Tied(a + b, v) == Tied(a, v) + Tied(b, v)
  {
    if |a| == 0 {
      assert a + b == b;
    } else {
      assert (a + b)[1..] == a[1..] + b;
      CountsConcat(a[1..], b, v);
    }
  }

  /** The counts do not depend on the order of the cohort. */
  lemma {:induction false} CountsOfPermutation(a: seq<Value>, b: seq<Value>, v: Value)
    requires multiset(a) == multiset(b)
    ensures Lower(a, v) == Lower(b, v) && Tied(a, v) == Tied(b, v)
    decreases |a|
  {
    PermutationFacts(a, b);
    if |a| > 0 {
      var k := DropFromPermutation(a, b);
      CountsOfPermutation(a[1..], Without(b, k), v);
      CountsWithout(b, k, v);
    }
  }

  lemma CountsWithout(vals: seq<Value>, k: nat, v: Value)
    requires k < |vals|
    ensures Lower(vals, v) == (if Below(vals[k], v) then 1 else 0) + Lower(Without(vals, k), v)
    ensures Tied(vals, v) == (if vals[k] == v then 1 else 0) + Tied(Without(vals, k), v)
  {
    assert vals == vals[..k] + ([vals[k]] + vals[k + 1..]);
    CountsConcat(vals[..k], [vals[k]] + vals[k + 1..], v);
    CountsConcat(vals[..k], vals[k + 1..], v);
  }

  /** The positions, among the first `n`, of the values below `v`, and of those equal to it. */
  ghost function LowerAt(vals: seq<Value>, v: Value, n: nat): set<int>
    requires n <= |vals|
  {
    set i | 0 <= i < n && Below(vals[i], v)
  }

  ghost function TiedAt(vals: seq<Value>, v: Value, n: nat): set<int>
    requires n <= |vals|
  {
    set i | 0 <= i < n && vals[i] == v
  }

  lemma {:induction false} CountOneMore(vals: seq<Value>, v: Value, n: nat)
    requires 0 < n <= |vals|
    ensures Lower(vals[..n], v) == Lower(vals[..n - 1], v) + (if Below(vals[n - 1], v) then 1 else 0)
    ensures Tied(vals[..n], v) == Tied(vals[..n - 1], v) + (if vals[n - 1] == v then 1 else 0)
  {
    var x := [vals[n - 1]];
    assert vals[..n] == vals[..n - 1] + x;
    CountsConcat(vals[..n - 1], x, v);
    assert x[1..] == [];
  }

  lemma {:induction false} PositionsOneMore(vals: seq<Value>, v: Value, n: nat)
    requires 0 < n <= |vals|
    ensures |LowerAt(vals, v, n)| == |LowerAt(vals, v, n - 1)| + (if Below(vals[n - 1], v) then 1 else 0)
    ensures |TiedAt(vals, v, n)| == |TiedAt(vals, v, n - 1)| + (if vals[n - 1] == v then 1 else 0)
  {
    OneMoreIf(LowerAt(vals, v, n - 1), LowerAt(vals, v, n), n - 1, Below(vals[n - 1], v));
    OneMoreIf(TiedAt(vals, v, n - 1), TiedAt(vals, v, n), n - 1, vals[n - 1] == v);
  }

  /** The counts are the numbers of positions that hold lower and equal values. */
  lemma {:induction false} CountsArePositions(vals: seq<Value>, v: Value, n: nat)
    requires n <= |vals|
    ensures Lower(vals[..n], v) == |LowerAt(vals, v, n)| && Tied(vals[..n], v) == |TiedAt(vals, v, n)|
    decreases n
  {
    if n > 0 {
      CountsArePositions(vals, v, n - 1);
      CountOneMore(vals, v, n);
      PositionsOneMore(vals, v, n);
    } else {
      assert vals[..0] == [] && LowerAt(vals, v, 0) == {} && TiedAt(vals, v, 0) == {};
    }
  }

  /** The rank is the middle of the places a value's ties take, out of the places there are. */
  lemma NormMeans(vals: seq<Value>, v: Value)
    ensures |vals| < 2 ==> Norm(vals, v) == 0.5
    ensures |vals| >= 2 ==>
      Norm(vals, v) == (2 * |LowerAt(vals, v, |vals|)| + |TiedAt(vals, v, |vals|)| - 1) as real / (2 * (|vals| - 1)) as real
  {
    assert vals[..|vals|] == vals;
    CountsArePositions(vals, v, |vals|);
  }

  // ---- Fractions ----

  lemma FractionBounds(a: int, b: int)
    requires 0 <= a <= b && b > 0
    ensures 0.0 <= a as real / b as real <= 1.0
  {
  }

  lemma FractionSum(a: int, b: int, d: real)
    requires d > 0.0
    ensures a as real / d + b as real / d == (a + b) as real / d
  {
  }

  lemma FractionGap(a: int, b: int, d: int)
    requires d > 0 && b - a >= 2
    ensures b as real / (2 * d) as real - a as real / (2 * d) as real >= 1.0 / d as real > 0.0
  {
    var e := (2 * d) as real;
    assert b as real / e - a as real / e == (b - a) as real / e;
    assert (b - a) as real / e >= 2.0 / e == 1.0 / d as real;
  }

  lemma HalfOf(n: int)
    requires n >= 2
    ensures (n * (n - 1)) as real / (2 * (n - 1)) as real == n as real / 2.0
  {
    var d := (n - 1) as real;
    assert (n * (n - 1)) as real == n as real * d;
    assert (2 * (n - 1)) as real == 2.0 * d;
  }

  // ---- What the ranks mean ----

  lemma NormInUnit(vals: seq<Value>, v: Value)
    requires v in vals
    ensures 0.0 <= Norm(vals, v) <= 1.0
  {
    CountsAddUp(vals, v);
    if |vals| >= 2 {
      FractionBounds(2 * Lower(vals, v) + Tied(vals, v) - 1, 2 * (|vals| - 1));
    }
  }

  lemma LowerSteps(vals: seq<Value>, v: Value, w: Value)
    requires Below(v, w)
    ensures Lower(vals, w) >= Lower(vals, v) + Tied(vals, v)
  {
  }

  /**
   Order is kept strictly and ties are kept exactly. Two different values of a
   cohort of n are at least 1/(n-1) apart, so no outlier can press the rest together.
   */
  lemma NormKeepsOrder(vals: seq<Value>, v: Value, w: Value)
    requires v in vals && w in vals
    ensures Below(v, w) <==> Norm(vals, v) < Norm(vals, w)
    ensures v == w <==> Norm(vals, v) == Norm(vals, w)
    ensures Below(v, w) ==> Norm(vals, w) - Norm(vals, v) >= 1.0 / (|vals| - 1) as real
  {
    if Below(v, w) { NormGap(vals, v, w); }
    if Below(w, v) { NormGap(vals, w, v); }
  }

  lemma NormGap(vals: seq<Value>, v: Value, w: Value)
    requires v in vals && w in vals && Below(v, w)
    ensures |vals| >= 2 && Norm(vals, w) - Norm(vals, v) >= 1.0 / (|vals| - 1) as real > 0.0
  {
    CountsAddUp(vals, v);
    CountsAddUp(vals, w);
    LowerSteps(vals, v, w);
    assert |vals| >= 2;
    FractionGap(2 * Lower(vals, v) + Tied(vals, v) - 1, 2 * Lower(vals, w) + Tied(vals, w) - 1, |vals| - 1);
  }

  // ---- Magnitudes do not matter ----

  ghost predicate StrictlyIncreasing(f: Value -> Value)
  {
    forall a, b :: Below(a, b) ==> Below(f(a), f(b))
  }

  lemma CountsOfMapped(vals: seq<Value>, f: Value -> Value, v: Value)
    requires StrictlyIncreasing(f)
    ensures Lower(Map(vals, f), f(v)) == Lower(vals, v)
    ensures Tied(Map(vals, f), f(v)) == Tied(vals, v)
  {
    if |vals| > 0 {
      CountsOfMapped(vals[1..], f, v);
      assert Below(vals[0], v) || vals[0] == v || Below(v, vals[0]);
      assert Map(vals, f)[1..] == Map(vals[1..], f);
    }
  }

  /** Ranks are the same before and after any strictly increasing rescaling. */
  lemma NormIgnoresScale(vals: seq<Value>, f: Value -> Value, v: Value)
    requires StrictlyIncreasing(f)
    ensures Norm(Map(vals, f), f(v)) == Norm(vals, v)
  {
    CountsOfMapped(vals, f, v);
  }

  // ---- The ranks of a cohort sum to half its size ----

  ghost function SumLower(xs: seq<Value>, vals: seq<Value>): nat
  {
    if |xs| == 0 then 0 else Lower(vals, xs[0]) + SumLower(xs[1..], vals)
  }

  ghost function SumHigher(xs: seq<Value>, vals: seq<Value>): nat
  {
    if |xs| == 0 then 0 else Higher(vals, xs[0]) + SumHigher(xs[1..], vals)
  }

  ghost function SumTied(xs: seq<Value>, vals: seq<Value>): nat
  {
    if |xs| == 0 then 0 else Tied(vals, xs[0]) + SumTied(xs[1..], vals)
  }

  lemma {:induction false} SumHigherFirst(xs: seq<Value>, vals: seq<Value>)
    requires |vals| > 0
    ensures SumHigher(xs, vals) == Lower(xs, vals[0]) + SumHigher(xs, vals[1..])
    decreases |xs|
  {
    if |xs| > 0 {
      SumHigherFirst(xs[1..], vals);
    }
  }

  /** Counting the pairs (lower, higher) from either end. */
  lemma {:induction false} DoubleCount(xs: seq<Value>, vals: seq<Value>)
    ensures SumLower(xs, vals) == SumHigher(vals, xs)
    decreases |xs|
  {
    if |xs| == 0 {
      assert forall v :: Higher(xs, v) == 0;
      SumHigherOfNone(vals, xs);
    } else {
      DoubleCount(xs[1..], vals);
      SumHigherFirst(vals, xs);
    }
  }

  lemma SumHigherOfNone(xs: seq<Value>, vals: seq<Value>)
    requires |vals| == 0
    ensures SumHigher(xs, vals) == 0
  {
  }

  lemma OneRowMore(rows: nat, n: nat)
    ensures (rows + 1) * n == n + rows * n
  {
  }

  lemma {:induction false} SumsAddUp(xs: seq<Value>, vals: seq<Value>)
    ensures SumLower(xs, vals) + SumTied(xs, vals) + SumHigher(xs, vals) == |xs| * |vals|
    decreases |xs|
  {
    if |xs| > 0 {
      CountsAddUp(vals, xs[0]);
      SumsAddUp(xs[1..], vals);
      OneRowMore(|xs[1..]|, |vals|);
    }
  }

  function SumNorms(xs: seq<Value>, vals: seq<Value>): real
  {
    if |xs| == 0 then 0.0 else Norm(vals, xs[0]) + SumNorms(xs[1..], vals)
  }

  lemma {:induction false} SumNormsCounts(xs: seq<Value>, vals: seq<Value>)
    requires |vals| >= 2
    ensures SumNorms(xs, vals) == (2 * SumLower(xs, vals) + SumTied(xs, vals) - |xs|) as real / (2 * (|vals| - 1)) as real
    decreases |xs|
  {
    var d := (2 * (|vals| - 1)) as real;
    if |xs| > 0 {
      SumNormsCounts(xs[1..], vals);
      var a := 2 * Lower(vals, xs[0]) + Tied(vals, xs[0]) - 1;
      var b := 2 * SumLower(xs[1..], vals) + SumTied(xs[1..], vals) - |xs[1..]|;
      FractionSum(a, b, d);
    }
  }

  lemma NormsSumToHalf(vals: seq<Value>)
    ensures SumNorms(vals, vals) == |vals| as real / 2.0
  {
    var n := |vals|;
    if n >= 2 {
      SumNormsCounts(vals, vals);
      DoubleCount(vals, vals);
      SumsAddUp(vals, vals);
      assert 2 * SumLower(vals, vals) + SumTied(vals, vals) - n == n * (n - 1);
      HalfOf(n);
    } else if n == 1 {
      assert SumNorms(vals[1..], vals) == 0.0;
    }
  }

  // ---- The computation ----

  datatype Indexed = Indexed(i: nat, v: Value)

  predicate ByValue(a: Indexed, b: Indexed)
  {
    Below(a.v, b.v)
  }

  lemma ByValueIsStrictWeak()
    ensures StrictWeak(ByValue)
  {
  }

  function ValueOf(x: Indexed): Value
  {
    x.v
  }

  lemma AllLower(xs: seq<Value>, v: Value)
    requires forall p :: 0 <= p < |xs| ==> Below(xs[p], v)
    ensures Lower(xs, v) == |xs| && Tied(xs, v) == 0
  {
  }

  lemma AllTied(xs: seq<Value>, v: Value)
    requires forall p :: 0 <= p < |xs| ==> xs[p] == v
    ensures Lower(xs, v) == 0 && Tied(xs, v) == |xs|
  {
  }

  lemma AllHigher(xs: seq<Value>, v: Value)
    requires forall p :: 0 <= p < |xs| ==> Below(v, xs[p])
    ensures Lower(xs, v) == 0 && Tied(xs, v) == 0
  {
  }

  /** A tie run with everything before it lower and everything after it higher. */
  lemma CountsOfRun(before: seq<Value>, run: seq<Value>, after: seq<Value>, v: Value)
    requires forall p :: 0 <= p < |before| ==> Below(before[p], v)
    requires forall p :: 0 <= p < |run| ==> run[p] == v
    requires forall p :: 0 <= p < |after| ==> Below(v, after[p])
    ensures Lower(before + (run + after), v) == |before| && Tied(before + (run + after), v) == |run|
  {
    CountsConcat(before, run + after, v);
    CountsConcat(run, after, v);
    AllLower(before, v);
    AllTied(run, v);
    AllHigher(after, v);
  }

  /** `sorted` is the indexed cohort in value order. */
  ghost predicate SortsCohort(vals: seq<Value>, sorted: seq<Indexed>)
  {
    && |sorted| == |vals|
    && (forall p :: 0 <= p < |sorted| ==> sorted[p].i < |vals| && sorted[p].v == vals[sorted[p].i])
    && (forall p, q :: 0 <= p < q < |sorted| ==> sorted[p].i != sorted[q].i && !Below(sorted[q].v, sorted[p].v))
    && (forall k :: 0 <= k < |vals| ==> Indexed(k, vals[k]) in sorted)
    && multiset(Map(sorted, ValueOf)) == multiset(vals)
  }

  method SortCohort(vals: seq<Value>) returns (sorted: seq<Indexed>)
    ensures SortsCohort(vals, sorted)
  {
    var indexed := seq(|vals|, i requires 0 <= i < |vals| => Indexed(i, vals[i]));
    ByValueIsStrictWeak();
    sorted := SortSlice(indexed, ByValue);
    PermutationFacts(indexed, sorted);
    MapOfPermutation(indexed, sorted, ValueOf);
    assert Map(indexed, ValueOf) == vals;
    assert forall k :: 0 <= k < |vals| ==> indexed[k] == Indexed(k, vals[k]) && indexed[k] in sorted;
    assert forall p :: 0 <= p < |sorted| ==> sorted[p] in indexed;
  }

  lemma ThreeParts<T>(xs: seq<T>, i: nat, j: nat)
    requires i <= j <= |xs|
    ensures xs == xs[..i] + (xs[i..j] + xs[j..])
  {
  }

  lemma {:induction false} SlicesCount(sv: seq<Value>, i: nat, j: nat, v: Value)
    requires i <= j < |sv|
    requires forall p :: i <= p <= j ==> sv[p] == v
    requires forall p :: 0 <= p < i ==> Below(sv[p], v)
    requires forall p :: j < p < |sv| ==> Below(v, sv[p])
    ensures Lower(sv, v) == i && Tied(sv, v) == j - i + 1
  {
    var before, run, after := sv[..i], sv[i..j + 1], sv[j + 1..];
    ThreeParts(sv, i, j + 1);
    CountsOfRun(before, run, after, v);
  }

  lemma {:induction false} RunCounts(vals: seq<Value>, sv: seq<Value>, i: nat, j: nat, v: Value)
    requires multiset(sv) == multiset(vals) && i <= j < |sv|
    requires forall p :: i <= p <= j ==> sv[p] == v
    requires forall p :: 0 <= p < i ==> Below(sv[p], v)
    requires forall p :: j < p < |sv| ==> Below(v, sv[p])
    ensures Lower(vals, v) == i && Tied(vals, v) == j - i + 1
  {
    SlicesCount(sv, i, j, v);
    CountsOfPermutation(sv, vals, v);
  }

  lemma NormFromCounts(vals: seq<Value>, v: Value, a: int)
    requires |vals| >= 2 && 2 * Lower(vals, v) + Tied(vals, v) - 1 == a
    ensures Norm(vals, v) == (a as real / 2.0) / (|vals| - 1) as real
  {
    HalfOver(a, |vals| - 1);
  }

  lemma {:induction false} RunNorm(vals: seq<Value>, sorted: seq<Indexed>, i: nat, j: nat)
    requires SortsCohort(vals, sorted) && |vals| >= 2 && IsRun(sorted, i, j)
    ensures Norm(vals, sorted[i].v) == MiddlePlace(i, j, |vals|)
  {
    RunCounts(vals, Map(sorted, ValueOf), i, j, sorted[i].v);
    NormFromCounts(vals, sorted[i].v, i + j);
  }

  lemma HalfOver(a: int, d: int)
    requires d > 0
    ensures a as real / (2 * d) as real == (a as real / 2.0) / d as real
  {
    assert (2 * d) as real == 2.0 * d as real;
  }

  lemma AllEqualNorm(vals: seq<Value>, sorted: seq<Indexed>, k: nat)
    requires SortsCohort(vals, sorted) && |vals| >= 2 && k < |vals|
    requires forall p :: 0 <= p < |sorted| ==> sorted[p].v == sorted[0].v
    ensures Norm(vals, vals[k]) == 0.5
  {
    assert Indexed(k, vals[k]) in sorted;
    forall l | 0 <= l < |vals| ensures vals[l] == vals[k] {
      assert Indexed(l, vals[l]) in sorted;
    }
    AllTied(vals, vals[k]);
    NormFromCounts(vals, vals[k], |vals| - 1);
    HalfIsHalf(|vals| - 1);
  }

  lemma HalfIsHalf(d: int)
    requires d > 0
    ensures (d as real / 2.0) / d as real == 0.5
  {
  }

  /** `out` holds the `rank` of each of the first `m` sorted values. */
  ghost predicate Scattered(rank: Value -> real, sorted: seq<Indexed>, out: seq<real>, m: nat)
  {
    forall p :: 0 <= p < m && p < |sorted| && sorted[p].i < |out| ==> out[sorted[p].i] == rank(sorted[p].v)
  }

  lemma ScatterOne(rank: Value -> real, sorted: seq<Indexed>, out: seq<real>, m: nat)
    requires m < |sorted| && sorted[m].i < |out| && Scattered(rank, sorted, out, m)
    requires forall p, q :: 0 <= p < q < |sorted| ==> sorted[p].i != sorted[q].i
    ensures Scattered(rank, sorted, out[sorted[m].i := rank(sorted[m].v)], m + 1)
  {
  }

  /** Positions i..j are a tie run that cannot be extended. */
  ghost predicate IsRun(sorted: seq<Indexed>, i: nat, j: nat)
  {
    && i <= j < |sorted|
    && (forall p :: i <= p <= j ==> sorted[p].v == sorted[i].v)
    && (i > 0 ==> sorted[i - 1].v != sorted[i].v)
    && (j + 1 < |sorted| ==> sorted[j + 1].v != sorted[i].v)
  }

  /** The middle of the places `i` to `j`, out of `n`. */
  function MiddlePlace(i: nat, j: nat, n: nat): real
    requires n >= 2
  {
    ((i + j) as real / 2.0) / (n - 1) as real
  }

  ghost predicate RanksRuns(rank: Value -> real, sorted: seq<Indexed>)
    requires |sorted| >= 2
  {
    forall i: nat, j: nat :: IsRun(sorted, i, j) ==> rank(sorted[i].v) == MiddlePlace(i, j, |sorted|)
  }

  ghost function NormIn(vals: seq<Value>): Value -> real
  {
    v => Norm(vals, v)
  }

  lemma NormRanksRuns(vals: seq<Value>, sorted: seq<Indexed>)
    requires SortsCohort(vals, sorted) && |vals| >= 2
    ensures RanksRuns(NormIn(vals), sorted)
  {
    forall i: nat, j: nat | IsRun(sorted, i, j) ensures NormIn(vals)(sorted[i].v) == MiddlePlace(i, j, |sorted|) {
      RunNorm(vals, sorted, i, j);
    }
  }

  lemma ScatteredEverywhere(rank: Value -> real, vals: seq<Value>, sorted: seq<Indexed>, out: seq<real>)
    requires SortsCohort(vals, sorted) && |out| == |vals| && Scattered(rank, sorted, out, |sorted|)
    ensures forall k :: 0 <= k < |vals| ==> out[k] == rank(vals[k])
  {
    forall k | 0 <= k < |vals| ensures out[k] == rank(vals[k]) {
      assert Indexed(k, vals[k]) in sorted;
    }
  }

  /** Finds each tie run and writes its average rank back to where its values came from. */
  method ScatterRanks(ghost rank: Value -> real, sorted: seq<Indexed>, out: array<real>)
    requires |sorted| >= 2 && forall p :: 0 <= p < |sorted| ==> sorted[p].i < out.Length
    requires forall p, q :: 0 <= p < q < |sorted| ==> sorted[p].i != sorted[q].i
    requires RanksRuns(rank, sorted)
    modifies out
    ensures Scattered(rank, sorted, out[..], |sorted|)
  {
    var n := |sorted|;
    var i := 0;
    while i < n
      invariant 0 <= i <= n
      invariant 0 < i < n ==> sorted[i - 1].v != sorted[i].v
      invariant Scattered(rank, sorted, out[..], i)
    {
      var j := i;
      while j + 1 < n && sorted[j + 1].v == sorted[i].v
        invariant i <= j < n
        invariant forall p :: i <= p <= j ==> sorted[p].v == sorted[i].v
      {
        j := j + 1;
      }
      assert IsRun(sorted, i, j);
      var avgRank := (i + j) as real / 2.0;
      for k := i to j + 1
        invariant Scattered(rank, sorted, out[..], k)
      {
        ScatterOne(rank, sorted, out[..], k);
        ghost var next := out[..][sorted[k].i := rank(sorted[k].v)];
        out[sorted[k].i] := avgRank / (n - 1) as real;
        assert out[..] == next;
      }
      i := j + 1;
    }
  }

  /** Each value's output is its normalised rank in the cohort. */
  method RankNormalize(vals: seq<Value>) returns (norms: seq<real>)
    ensures |norms| == |vals|
    ensures forall k :: 0 <= k < |vals| ==> norms[k] == Norm(vals, vals[k])
  {
    var n := |vals|;
    var out := new real[n](_ => 0.5);
    if n < 2 {
      return out[..];
    }
    var sorted := SortCohort(vals);
    var e := 1;
    while e < n && sorted[e].v == sorted[0].v
      invariant 1 <= e <= n
      invariant forall p :: 0 <= p < e ==> sorted[p].v == sorted[0].v
    {
      e := e + 1;
    }
    if e == n {
      forall k | 0 <= k < n ensures Norm(vals, vals[k]) == 0.5 {
        AllEqualNorm(vals, sorted, k);
      }
      return out[..];
    }
    NormRanksRuns(vals, sorted);
    ScatterRanks(NormIn(vals), sorted, out);
    ScatteredEverywhere(NormIn(vals), vals, sorted, out[..]);
    return out[..];
  }
}
