/** The weighted median of oracle readings: the value at the middle of cumulative weight. */
module WeightedMedian {
  import opened Arithmetic
  import opened Sequences

  datatype Reading = Reading(value: int, weight: nat)

  function WeightFn(): Reading -> int {
    (r: Reading) => r.weight
  }

  function BelowFn(v: int): Reading -> int {
    (r: Reading) => if r.value < v then r.weight else 0
  }

  function TotalWeight(rs: seq<Reading>): int {
    SumBy(rs, WeightFn())
  }

  /** The weight of the readings strictly below `v`. */
  function WeightBelow(rs: seq<Reading>, v: int): int {
    SumBy(rs, BelowFn(v))
  }

  /** The weight of the readings strictly above `v`. */
  function WeightAbove(rs: seq<Reading>, v: int): int {
    TotalWeight(rs) - WeightBelow(rs, v + 1)
  }

  ghost predicate Positive(rs: seq<Reading>) {
    forall i :: 0 <= i < |rs| ==> rs[i].weight >= 1
  }

  function ByValueThenWeight(): (Reading, Reading) -> bool {
    (a: Reading, b: Reading) => a.value < b.value || (a.value == b.value && a.weight <= b.weight)
  }

  // ----- Reference definition -----

  /** The leftmost point at which at least half of the weight lies at or below. */
  ghost predicate IsLowerMedian(rs: seq<Reading>, v: int) {
    2 * WeightBelow(rs, v) < TotalWeight(rs) <= 2 * WeightBelow(rs, v + 1)
  }

  /** The leftmost point at which more than half of the weight lies at or below. */
  ghost predicate IsUpperMedian(rs: seq<Reading>, v: int) {
    2 * WeightBelow(rs, v) <= TotalWeight(rs) < 2 * WeightBelow(rs, v + 1)
  }

  /** The midpoint of the two, truncated; they differ only when the weight splits exactly in half. */
  ghost predicate IsWeightedMedian(rs: seq<Reading>, r: int) {
    exists lo, hi :: IsLowerMedian(rs, lo) && IsUpperMedian(rs, hi) && r == TruncDiv(lo + hi, 2)
  }

  lemma WeightBelowMono(rs: seq<Reading>, u: int, v: int)
    requires u <= v
    ensures 0 <= WeightBelow(rs, u) <= WeightBelow(rs, v) <= TotalWeight(rs)
  {
    SumByMono(rs, BelowFn(u), BelowFn(v));
    SumByMono(rs, BelowFn(v), WeightFn());
    NonNegative(rs, u);
  }

  lemma {:induction false} NonNegative(rs: seq<Reading>, v: int)
    ensures WeightBelow(rs, v) >= 0
  {
    if rs != [] {
      NonNegative(rs[1..], v);
    }
  }

  /** The reference definition names at most one value. */
  lemma WeightedMedianUnique(rs: seq<Reading>, r: int, q: int)
    requires IsWeightedMedian(rs, r) && IsWeightedMedian(rs, q)
    ensures r == q
  {
    var lo, hi :| IsLowerMedian(rs, lo) && IsUpperMedian(rs, hi) && r == TruncDiv(lo + hi, 2);
    var lo', hi' :| IsLowerMedian(rs, lo') && IsUpperMedian(rs, hi') && q == TruncDiv(lo' + hi', 2);
    if lo < lo' { WeightBelowMono(rs, lo + 1, lo'); }
    if lo' < lo { WeightBelowMono(rs, lo' + 1, lo); }
    if hi < hi' { WeightBelowMono(rs, hi + 1, hi'); }
    if hi' < hi { WeightBelowMono(rs, hi' + 1, hi); }
  }

  // ----- The algorithm -----

  lemma NotBelowFrom(s: seq<Reading>, i: nat)
    requires i < |s| && SortedBy(s, ByValueThenWeight())
    ensures WeightBelow(s, s[i].value) <= TotalWeight(s[..i])
  {
    var v, a, b := s[i].value, s[..i], s[i..];
    assert s == a + b;
    SumByAppend(a, b, BelowFn(v));
    forall j | 0 <= j < |b| ensures b[j].value >= v {
      if j > 0 { assert ByValueThenWeight()(s[i], s[i + j]); }
    }
    NoneBelow(b, v);
    WeightBelowMono(a, v, v);
  }

  lemma NotAboveUpTo(s: seq<Reading>, i: nat)
    requires i < |s| && SortedBy(s, ByValueThenWeight())
    ensures WeightBelow(s, s[i].value + 1) >= TotalWeight(s[..i + 1])
  {
    var v, c, d := s[i].value, s[..i + 1], s[i + 1..];
    assert s == c + d;
    SumByAppend(c, d, BelowFn(v + 1));
    forall j | 0 <= j < |c| ensures c[j].value <= v {
      if j < i { assert ByValueThenWeight()(s[j], s[i]); }
    }
    AllBelow(c, v + 1);
    NonNegative(d, v + 1);
  }

  /** In a sorted slice the readings strictly below the i-th value all come before it, and the readings
      at or below it include the first i + 1. */
  lemma SortedCut(s: seq<Reading>, i: nat)
    requires i < |s| && SortedBy(s, ByValueThenWeight())
    ensures WeightBelow(s, s[i].value) <= TotalWeight(s[..i])
    ensures WeightBelow(s, s[i].value + 1) >= TotalWeight(s[..i + 1])
  {
    NotBelowFrom(s, i);
    NotAboveUpTo(s, i);
  }

  lemma {:induction false} NoneBelow(rs: seq<Reading>, v: int)
    requires forall i :: 0 <= i < |rs| ==> rs[i].value >= v
    ensures WeightBelow(rs, v) == 0
  {
    if rs != [] {
      NoneBelow(rs[1..], v);
    }
  }

  lemma {:induction false} AllBelow(rs: seq<Reading>, v: int)
    requires forall i :: 0 <= i < |rs| ==> rs[i].value < v
    ensures WeightBelow(rs, v) == TotalWeight(rs)
  {
    if rs != [] {
      AllBelow(rs[1..], v);
    }
  }

  lemma TotalWeightSnoc(s: seq<Reading>, i: nat)
    requires i < |s|
    ensures TotalWeight(s[..i + 1]) == TotalWeight(s[..i]) + s[i].weight
    ensures i + 1 == |s| ==> s[..i + 1] == s
  {
    assert s[..i + 1] == s[..i] + [s[i]];
    SumByAppend(s[..i], [s[i]], WeightFn());
  }

  lemma MedianAtCrossing(s: seq<Reading>, i: nat)
    requires i < |s| && SortedBy(s, ByValueThenWeight())
    requires 2 * TotalWeight(s[..i]) < TotalWeight(s) < 2 * TotalWeight(s[..i + 1])
    ensures IsWeightedMedian(s, s[i].value)
  {
    SortedCut(s, i);
    var v := s[i].value;
    assert IsLowerMedian(s, v) && IsUpperMedian(s, v) && v == TruncDiv(v + v, 2);
  }

  lemma MedianAtHalf(s: seq<Reading>, i: nat)
    requires i + 1 < |s| && SortedBy(s, ByValueThenWeight()) && Positive(s)
    requires 2 * TotalWeight(s[..i]) < TotalWeight(s) == 2 * TotalWeight(s[..i + 1])
    ensures IsWeightedMedian(s, TruncDiv(s[i].value + s[i + 1].value, 2))
  {
    SortedCut(s, i);
    SortedCut(s, i + 1);
    TotalWeightSnoc(s, i + 1);
    assert IsLowerMedian(s, s[i].value) && IsUpperMedian(s, s[i + 1].value);
  }

  lemma OrderIsTotal()
    ensures TotalOrder(ByValueThenWeight())
  {
  }

  lemma MedianOfPermutation(rs: seq<Reading>, s: seq<Reading>, r: int)
    requires multiset(rs) == multiset(s) && IsWeightedMedian(s, r)
    ensures IsWeightedMedian(rs, r)
  {
    var lo, hi :| IsLowerMedian(s, lo) && IsUpperMedian(s, hi) && r == TruncDiv(lo + hi, 2);
    SumByPermutation(rs, s, WeightFn());
    SumByPermutation(rs, s, BelowFn(lo));
    SumByPermutation(rs, s, BelowFn(lo + 1));
    SumByPermutation(rs, s, BelowFn(hi));
    SumByPermutation(rs, s, BelowFn(hi + 1));
    assert IsLowerMedian(rs, lo) && IsUpperMedian(rs, hi);
  }

  lemma SortedReadings(rs: seq<Reading>)
    requires Positive(rs) && rs != []
    ensures var s := Sort(rs, ByValueThenWeight());
      && SortedBy(s, ByValueThenWeight()) && multiset(s) == multiset(rs) && |s| == |rs|
      && TotalWeight(s) == TotalWeight(rs) && Positive(s) && TotalWeight(rs) > 0
  {
    var s := Sort(rs, ByValueThenWeight());
    OrderIsTotal();
    SortSorts(rs, ByValueThenWeight());
    SumByPermutation(rs, s, WeightFn());
    forall i | 0 <= i < |s| ensures s[i].weight >= 1 {
      assert s[i] in multiset(rs);
    }
    NonNegative(rs[1..], 0);
    WeightBelowMono(rs[1..], 0, 0);
  }

  /** Cumulative weight is exactly half after position i, and more readings follow. */
  predicate HalfAt(s: seq<Reading>, i: nat) {
    i + 1 < |s| && 2 * TotalWeight(s[..i + 1]) == TotalWeight(s)
  }

  /** The plain sum behind a midpoint stays within i128. */
  ghost predicate MidpointFits(s: seq<Reading>) {
    forall i: nat :: HalfAt(s, i) ==> FitsI128(s[i].value + s[i + 1].value)
  }

  ghost predicate MedianFits(rs: seq<Reading>) {
    MidpointFits(Sort(rs, ByValueThenWeight()))
  }

  lemma PrefixGrows(s: seq<Reading>, i: nat, j: nat)
    requires Positive(s) && i < j <= |s|
    ensures TotalWeight(s[..i]) < TotalWeight(s[..j])
    decreases j
  {
    TotalWeightSnoc(s, j - 1);
    if i < j - 1 {
      PrefixGrows(s, i, j - 1);
    }
  }

  /** There is at most one such position. */
  lemma HalfOnce(s: seq<Reading>, i: nat, j: nat)
    requires Positive(s) && HalfAt(s, i) && HalfAt(s, j)
    ensures i == j
  {
    if i < j { PrefixGrows(s, i + 1, j + 1); }
    if j < i { PrefixGrows(s, j + 1, i + 1); }
  }

  lemma NoHalf(s: seq<Reading>, i: nat)
    requires i < |s| && Positive(s)
    requires 2 * TotalWeight(s[..i]) < TotalWeight(s) < 2 * TotalWeight(s[..i + 1])
    ensures MidpointFits(s)
  {
    forall j: nat | HalfAt(s, j) ensures false {
      if j + 1 < i { PrefixGrows(s, j + 1, i); }
      if i + 1 < j + 1 { PrefixGrows(s, i + 1, j + 1); }
    }
  }

  lemma OneHalf(s: seq<Reading>, i: nat)
    requires Positive(s) && HalfAt(s, i)
    ensures MidpointFits(s) <==> FitsI128(s[i].value + s[i + 1].value)
  {
    forall j: nat | HalfAt(s, j) ensures j == i {
      HalfOnce(s, i, j);
    }
  }

  /** The scan over the sorted slice: the reading at which cumulative weight passes half, or the
      midpoint of the two readings that meet at exactly half; an overflowing sum of the two aborts. */
  method MiddleOfSorted(s: seq<Reading>, totalWeight: nat) returns (r: Option<int>)
    requires s != [] && Positive(s) && SortedBy(s, ByValueThenWeight())
    requires totalWeight == TotalWeight(s) && totalWeight > 0
    ensures r.Some? <==> MidpointFits(s)
    ensures r.Some? ==> IsWeightedMedian(s, r.value)
  {
    var half := totalWeight / 2;
    var cumulative := 0;
    for i := 0 to |s|
      invariant cumulative == TotalWeight(s[..i])
      invariant 2 * cumulative < totalWeight && (i == |s| ==> cumulative == totalWeight)
    {
      TotalWeightSnoc(s, i);
      cumulative := cumulative + s[i].weight;
      if cumulative > half {
        MedianAtCrossing(s, i);
        NoHalf(s, i);
        return Some(s[i].value);
      } else if cumulative == half && totalWeight % 2 == 0 {
        if i + 1 < |s| {
          MedianAtHalf(s, i);
          OneHalf(s, i);
          var sum := s[i].value + s[i + 1].value;
          if !FitsI128(sum) { return None; }
          return Some(TruncDiv(sum, 2));
        } else {
          assert false;
        }
      }
    }
    assert false;
  }

  method ComputeWeightedMedian(values: array<Reading>, n: nat, totalWeight: nat) returns (r: Option<int>)
    requires 0 < n <= values.Length
    requires totalWeight == TotalWeight(values[..n]) && Positive(values[..n])
    modifies values
    ensures values[n..] == old(values[n..])
    ensures |Sort(old(values[..n]), ByValueThenWeight())| == n
    ensures values[..n] == Sort(old(values[..n]), ByValueThenWeight())
    ensures r.Some? <==> MedianFits(old(values[..n]))
    ensures r.Some? ==> IsWeightedMedian(old(values[..n]), r.value)
  {
    ghost var rs := values[..n];
    SortedReadings(rs);
    SortPrefix(values, n, ByValueThenWeight());
    r := MiddleOfSorted(values[..n], totalWeight);
    if r.Some? {
      MedianOfPermutation(rs, values[..n], r.value);
    }
  }

  /** Whether the midpoint fits does not depend on the order of the readings. */
  lemma FitsOfPermutation(rs: seq<Reading>, qs: seq<Reading>)
    requires multiset(rs) == multiset(qs)
    ensures MedianFits(rs) == MedianFits(qs)
  {
    OrderIsTotal();
    SortSorts(rs, ByValueThenWeight());
    SortSorts(qs, ByValueThenWeight());
    SortedUnique(Sort(rs, ByValueThenWeight()), Sort(qs, ByValueThenWeight()), ByValueThenWeight());
  }

  /** It fits whenever the sum of any two values does. */
  lemma SmallValuesFit(rs: seq<Reading>, bound: nat)
    requires 2 * bound <= I128_MAX && forall i :: 0 <= i < |rs| ==> Abs(rs[i].value) <= bound
    ensures MedianFits(rs)
  {
    OrderIsTotal();
    SortSorts(rs, ByValueThenWeight());
    var s := Sort(rs, ByValueThenWeight());
    forall i | 0 <= i < |s| ensures Abs(s[i].value) <= bound {
      assert s[i] in multiset(rs);
    }
  }

  // ----- Resistance to a minority -----

  lemma LowerBelowUpper(rs: seq<Reading>, lo: int, hi: int)
    requires IsLowerMedian(rs, lo) && IsUpperMedian(rs, hi)
    ensures lo <= TruncDiv(lo + hi, 2) <= hi
  {
    if hi < lo { WeightBelowMono(rs, hi + 1, lo); }
    TruncDivHull(lo + hi, 2, lo, hi);
  }

  /** A true median: at most half of the weight lies strictly on either side of the result, the averaged
      exact-half case included. */
  lemma TrueMedian(rs: seq<Reading>, r: int)
    requires IsWeightedMedian(rs, r)
    ensures 2 * WeightBelow(rs, r) <= TotalWeight(rs)
    ensures 2 * WeightAbove(rs, r) <= TotalWeight(rs)
  {
    var lo, hi :| IsLowerMedian(rs, lo) && IsUpperMedian(rs, hi) && r == TruncDiv(lo + hi, 2);
    LowerBelowUpper(rs, lo, hi);
    WeightBelowMono(rs, r, hi);
    WeightBelowMono(rs, lo + 1, r + 1);
  }

  /** Whatever the rest report, readings in [lo, hi] holding more than half of the weight pin the result. */
  lemma MajorityPinsMedian(rs: seq<Reading>, r: int, lo: int, hi: int)
    requires IsWeightedMedian(rs, r)
    requires 2 * (WeightBelow(rs, hi + 1) - WeightBelow(rs, lo)) > TotalWeight(rs)
    ensures lo <= r <= hi
  {
    TrueMedian(rs, r);
    if r < lo {
      WeightBelowMono(rs, r + 1, lo);
      WeightBelowMono(rs, hi + 1, hi + 1);
    }
    if hi < r {
      WeightBelowMono(rs, hi + 1, r);
      WeightBelowMono(rs, lo, lo);
    }
  }

  ghost predicate SameWeights(a: seq<Reading>, b: seq<Reading>) {
    |a| == |b| && forall i :: 0 <= i < |a| ==> a[i].weight == b[i].weight
  }

  ghost predicate ValuesIn(rs: seq<Reading>, lo: int, hi: int) {
    forall i :: 0 <= i < |rs| ==> lo <= rs[i].value <= hi
  }

  /** Rogue oracles with these weights can report anything; the median stays in the honest range. */
  ghost predicate Withstands(honest: seq<Reading>, weights: seq<Reading>, lo: int, hi: int) {
    forall rogue, r :: SameWeights(weights, rogue) && IsWeightedMedian(honest + rogue, r) ==> lo <= r <= hi
  }

  /** The breakdown point is exactly one half: the honest range holds against every report of the rogue
      oracles if and only if they carry strictly less weight than the honest ones. */
  lemma BreakdownPoint(honest: seq<Reading>, weights: seq<Reading>, lo: int, hi: int)
    requires honest != [] && Positive(honest) && ValuesIn(honest, lo, hi)
    ensures Withstands(honest, weights, lo, hi) <==> TotalWeight(weights) < TotalWeight(honest)
  {
    if TotalWeight(weights) < TotalWeight(honest) {
      forall rogue, r | SameWeights(weights, rogue) && IsWeightedMedian(honest + rogue, r)
        ensures lo <= r <= hi
      {
        MinorityCannotMove(honest, weights, rogue, r, lo, hi);
      }
    } else {
      var rogue, r := MajorityMoves(honest, weights, lo, hi);
      assert SameWeights(weights, rogue) && IsWeightedMedian(honest + rogue, r);
    }
  }

  lemma {:induction false} SameTotal(a: seq<Reading>, b: seq<Reading>)
    requires SameWeights(a, b)
    ensures TotalWeight(a) == TotalWeight(b)
  {
    if a != [] {
      SameTotal(a[1..], b[1..]);
    }
  }

  lemma MinorityCannotMove(honest: seq<Reading>, weights: seq<Reading>, rogue: seq<Reading>, r: int, lo: int, hi: int)
    requires honest != [] && ValuesIn(honest, lo, hi) && SameWeights(weights, rogue)
    requires TotalWeight(weights) < TotalWeight(honest)
    requires IsWeightedMedian(honest + rogue, r)
    ensures lo <= r <= hi
  {
    SameTotal(weights, rogue);
    SumByAppend(honest, rogue, WeightFn());
    SumByAppend(honest, rogue, BelowFn(lo));
    SumByAppend(honest, rogue, BelowFn(hi + 1));
    NoneBelow(honest, lo);
    AllBelow(honest, hi + 1);
    assert lo <= honest[0].value <= hi;
    WeightBelowMono(rogue, lo, hi + 1);
    MajorityPinsMedian(honest + rogue, r, lo, hi);
  }

  lemma {:induction false} LowerMedianExists(rs: seq<Reading>, a: int, b: int) returns (v: int)
    requires a < b && 2 * WeightBelow(rs, a) < TotalWeight(rs) <= 2 * WeightBelow(rs, b)
    ensures a <= v < b && IsLowerMedian(rs, v)
    decreases b - a
  {
    if 2 * WeightBelow(rs, a + 1) < TotalWeight(rs) {
      v := LowerMedianExists(rs, a + 1, b);
    } else {
      v := a;
    }
  }

  function Far(value: int): Reading -> Reading {
    (w: Reading) => Reading(value, w.weight)
  }

  lemma WeightsJoin(honest: seq<Reading>, rogue: seq<Reading>, v: int)
    ensures WeightBelow(honest + rogue, v) == WeightBelow(honest, v) + WeightBelow(rogue, v)
    ensures TotalWeight(honest + rogue) == TotalWeight(honest) + TotalWeight(rogue)
  {
    SumByAppend(honest, rogue, BelowFn(v));
    SumByAppend(honest, rogue, WeightFn());
  }

  /** The attack: everyone reports one value far above the honest range. */
  lemma MajorityMoves(honest: seq<Reading>, weights: seq<Reading>, lo: int, hi: int)
    returns (rogue: seq<Reading>, r: int)
    requires honest != [] && Positive(honest) && ValuesIn(honest, lo, hi)
    requires TotalWeight(weights) >= TotalWeight(honest)
    ensures SameWeights(weights, rogue) && IsWeightedMedian(honest + rogue, r) && r > hi
  {
    var far := 2 * hi - lo + 2;
    assert lo <= honest[0].value <= hi;
    rogue := Map(weights, Far(far));
    SameTotal(weights, rogue);
    SortedReadings(honest);
    var low := FarMedians(honest, rogue, lo, hi, far);
    r := TruncDiv(low + far, 2);
    TruncDivMono(2 * (hi + 1), low + far, 2);
  }

  lemma FarMedians(honest: seq<Reading>, rogue: seq<Reading>, lo: int, hi: int, far: int) returns (low: int)
    requires ValuesIn(honest, lo, hi) && lo <= hi < far && forall i :: 0 <= i < |rogue| ==> rogue[i].value == far
    requires TotalWeight(rogue) >= TotalWeight(honest) > 0
    ensures lo <= low <= far && IsLowerMedian(honest + rogue, low) && IsUpperMedian(honest + rogue, far)
  {
    WeightsJoin(honest, rogue, far);
    WeightsJoin(honest, rogue, far + 1);
    WeightsJoin(honest, rogue, lo);
    AllBelow(honest, far);
    NoneBelow(rogue, far);
    AllBelow(honest, far + 1);
    AllBelow(rogue, far + 1);
    NoneBelow(honest, lo);
    NoneBelow(rogue, lo);
    low := LowerMedianExists(honest + rogue, lo, far + 1);
  }

  // ----- When the median was itself reported -----

  predicate IsReported(rs: seq<Reading>, v: int) {
    exists i :: 0 <= i < |rs| && rs[i].value == v
  }

  /** A reading counts as soon as its value is passed. */
  lemma {:induction false} ReadingCounts(rs: seq<Reading>, i: nat)
    requires i < |rs|
    ensures WeightBelow(rs, rs[i].value + 1) >= WeightBelow(rs, rs[i].value) + rs[i].weight
  {
    WeightBelowMono(rs[1..], rs[i].value, rs[i].value + 1);
    if i > 0 {
      ReadingCounts(rs[1..], i - 1);
    }
  }

  /** Weight only appears at reported values. */
  lemma {:induction false} WeightIsReported(rs: seq<Reading>, v: int)
    requires WeightBelow(rs, v) < WeightBelow(rs, v + 1)
    ensures IsReported(rs, v)
  {
    if rs[0].value == v {
    } else {
      WeightIsReported(rs[1..], v);
      var i :| 0 <= i < |rs[1..]| && rs[1..][i].value == v;
      assert rs[i + 1].value == v;
    }
  }

  /** Nothing is reported strictly between the two medians. */
  lemma NothingBetween(rs: seq<Reading>, lo: int, hi: int, v: int)
    requires Positive(rs) && IsLowerMedian(rs, lo) && IsUpperMedian(rs, hi) && lo < v < hi
    ensures !IsReported(rs, v)
  {
    if i :| 0 <= i < |rs| && rs[i].value == v {
      ReadingCounts(rs, i);
      WeightBelowMono(rs, lo + 1, v);
      WeightBelowMono(rs, v + 1, hi);
    }
  }

  /** The result is a reported value exactly when the lower and the upper median coincide or are neighbours:
      both are reported, and nothing between them is. */
  lemma ReportedExactly(rs: seq<Reading>, lo: int, hi: int)
    requires Positive(rs) && IsLowerMedian(rs, lo) && IsUpperMedian(rs, hi)
    ensures IsWeightedMedian(rs, TruncDiv(lo + hi, 2)) && IsReported(rs, lo) && IsReported(rs, hi)
    ensures IsReported(rs, TruncDiv(lo + hi, 2)) <==> hi - lo <= 1
  {
    WeightIsReported(rs, lo);
    WeightIsReported(rs, hi);
    LowerBelowUpper(rs, lo, hi);
    if hi - lo > 1 {
      TruncDivHull(lo + hi, 2, lo + 1, hi - 1);
      NothingBetween(rs, lo, hi, TruncDiv(lo + hi, 2));
    }
  }

  /** Two readings of equal weight: the median of 0 and 10 is 5, which nobody reported. */
  lemma MedianNotReported()
    ensures var rs := [Reading(0, 1), Reading(10, 1)]; IsWeightedMedian(rs, 5) && !IsReported(rs, 5)
  {
    var rs := [Reading(0, 1), Reading(10, 1)];
    assert rs[1..] == [Reading(10, 1)] && rs[1..][1..] == [];
    assert forall v :: WeightBelow(rs, v) == (if 0 < v then 1 else 0) + WeightBelow(rs[1..], v);
    assert forall v :: WeightBelow(rs[1..], v) == if 10 < v then 1 else 0;
    assert IsLowerMedian(rs, 0) && IsUpperMedian(rs, 10) && 5 == TruncDiv(0 + 10, 2);
  }
}
