/** The averaging methods: saturating accumulators, when they are exact, and what they promise. */
module Averages {
  import opened Arithmetic
  import opened Sequences
  import opened WeightedMedian

  const MAX_DATA_VALUE: int := 1_000_000_000_000_000_000_000_000_000
  const MAX_WEIGHT: nat := 100_000
  const MAX_DATA_POINTS: nat := 100

  // ----- A saturating accumulator -----

  function Identity(): int -> int {
    (t: int) => t
  }

  function PositivePart(): int -> int {
    (t: int) => if t > 0 then t else 0
  }

  function NegativePart(): int -> int {
    (t: int) => if t < 0 then t else 0
  }

  /** Adding the terms left to right with `saturating_add`, starting at `acc`. */
  function Accumulate(acc: int, terms: seq<int>): int
    decreases |terms|
  {
    if terms == [] then acc else Accumulate(SatAdd(acc, terms[0]), terms[1..])
  }

  lemma {:induction false} AccumulateAppend(acc: int, a: seq<int>, b: seq<int>)
    ensures Accumulate(acc, a + b) == Accumulate(Accumulate(acc, a), b)
    decreases |a|
  {
    if a == [] {
      assert a + b == b;
    } else {
      assert (a + b)[1..] == a[1..] + b;
      AccumulateAppend(SatAdd(acc, a[0]), a[1..], b);
    }
  }

  lemma {:induction false} SplitSigns(terms: seq<int>)
    ensures SumBy(terms, Identity()) == SumBy(terms, PositivePart()) + SumBy(terms, NegativePart())
    ensures SumBy(terms, PositivePart()) >= 0 >= SumBy(terms, NegativePart())
  {
    if terms != [] {
      SplitSigns(terms[1..]);
    }
  }

  /** With room for all positive and all negative terms nothing saturates. */
  lemma {:induction false} AccumulateExact(acc: int, terms: seq<int>)
    requires acc + SumBy(terms, PositivePart()) <= I128_MAX
    requires acc + SumBy(terms, NegativePart()) >= I128_MIN
    ensures Accumulate(acc, terms) == acc + SumBy(terms, Identity())
    decreases |terms|
  {
    SplitSigns(terms);
    if terms != [] {
      SplitSigns(terms[1..]);
      AccumulateExact(acc + terms[0], terms[1..]);
    }
  }

  /** Terms of one sign saturate at most once, at the bound they run toward. */
  lemma {:induction false} AccumulateOneSign(acc: int, terms: seq<int>)
    requires FitsI128(acc)
    requires SumBy(terms, NegativePart()) == 0 || SumBy(terms, PositivePart()) == 0
    ensures Accumulate(acc, terms) == Saturate(acc + SumBy(terms, Identity()))
    decreases |terms|
  {
    SplitSigns(terms);
    if terms != [] {
      SplitSigns(terms[1..]);
      AccumulateOneSign(SatAdd(acc, terms[0]), terms[1..]);
    }
  }

  /** Room for every partial sum, or terms of a single sign. */
  predicate OrderFree(terms: seq<int>) {
    || (SumBy(terms, PositivePart()) <= I128_MAX && SumBy(terms, NegativePart()) >= I128_MIN)
    || SumBy(terms, PositivePart()) == 0
    || SumBy(terms, NegativePart()) == 0
  }

  function PositivesFirst(terms: seq<int>): seq<int> {
    if terms == [] then [] else
    if terms[0] > 0 then [terms[0]] + PositivesFirst(terms[1..]) else PositivesFirst(terms[1..]) + [terms[0]]
  }

  lemma {:induction false} PositivesFirstPermutes(terms: seq<int>)
    ensures multiset(PositivesFirst(terms)) == multiset(terms)
  {
    if terms != [] {
      assert terms == [terms[0]] + terms[1..];
      PositivesFirstPermutes(terms[1..]);
    }
  }

  lemma {:induction false} PositivesFirstSplits(terms: seq<int>) returns (k: nat)
    ensures k <= |PositivesFirst(terms)|
    ensures SumBy(PositivesFirst(terms)[..k], NegativePart()) == 0
    ensures SumBy(PositivesFirst(terms)[k..], PositivePart()) == 0
  {
    k := 0;
    if terms != [] {
      k := PositivesFirstSplits(terms[1..]);
      var q, p := PositivesFirst(terms[1..]), PositivesFirst(terms);
      if terms[0] > 0 {
        assert p[..k + 1] == [terms[0]] + q[..k] && p[k + 1..] == q[k..];
        k := k + 1;
      } else {
        assert p[..k] == q[..k] && p[k..] == q[k..] + [terms[0]];
        SumByAppend(q[k..], [terms[0]], PositivePart());
      }
    }
  }

  lemma {:induction false} AccumulateSigned(a: seq<int>, b: seq<int>)
    requires SumBy(a, NegativePart()) == 0 || SumBy(a, PositivePart()) == 0
    requires SumBy(b, NegativePart()) == 0 || SumBy(b, PositivePart()) == 0
    ensures Accumulate(0, a + b) == Saturate(Saturate(SumBy(a, Identity())) + SumBy(b, Identity()))
  {
    AccumulateAppend(0, a, b);
    AccumulateOneSign(0, a);
    AccumulateOneSign(Accumulate(0, a), b);
  }

  /** Terms of opposite signs that do not both fit: which sign comes first shows in the total. */
  lemma MixedSaturates(a: seq<int>, b: seq<int>)
    requires SumBy(a, NegativePart()) == 0 && SumBy(b, PositivePart()) == 0
    requires SumBy(a, PositivePart()) > 0 && SumBy(b, NegativePart()) < 0
    requires SumBy(a, PositivePart()) > I128_MAX || SumBy(b, NegativePart()) < I128_MIN
    ensures Accumulate(0, a + b) != Accumulate(0, b + a)
  {
    SplitSigns(a);
    SplitSigns(b);
    AccumulateSigned(a, b);
    AccumulateSigned(b, a);
  }

  /** The accumulator depends only on the set of terms exactly when it cannot saturate on a mixed-sign
      input: otherwise adding the positive terms first and adding them last give different totals. */
  lemma AccumulatorOrderIndependent(terms: seq<int>)
    ensures OrderFree(terms) <==>
            forall other :: multiset(other) == multiset(terms) ==> Accumulate(0, other) == Accumulate(0, terms)
  {
    if OrderFree(terms) {
      forall other | multiset(other) == multiset(terms)
        ensures Accumulate(0, other) == Accumulate(0, terms)
      {
        OrderFreeTotal(terms, other);
      }
    } else {
      var first, last := MixedOrders(terms);
      assert Accumulate(0, first) != Accumulate(0, last);
    }
  }

  lemma MixedOrders(terms: seq<int>) returns (first: seq<int>, last: seq<int>)
    requires !OrderFree(terms)
    ensures multiset(first) == multiset(last) == multiset(terms) && Accumulate(0, first) != Accumulate(0, last)
  {
    var p := PositivesFirst(terms);
    var k := PositivesFirstSplits(terms);
    PositivesFirstPermutes(terms);
    var a, b := p[..k], p[k..];
    first, last := a + b, b + a;
    assert first == p;
    assert multiset(last) == multiset(a) + multiset(b) == multiset(p);
    SumByPermutation(p, terms, PositivePart());
    SumByPermutation(p, terms, NegativePart());
    SumByAppend(a, b, PositivePart());
    SumByAppend(a, b, NegativePart());
    SplitSigns(terms);
    SplitSigns(a);
    SplitSigns(b);
    MixedSaturates(a, b);
  }

  lemma OrderFreeTotal(terms: seq<int>, other: seq<int>)
    requires OrderFree(terms) && multiset(other) == multiset(terms)
    ensures Accumulate(0, other) == Accumulate(0, terms) == Saturate(SumBy(terms, Identity()))
  {
    SumByPermutation(other, terms, PositivePart());
    SumByPermutation(other, terms, NegativePart());
    SumByPermutation(other, terms, Identity());
    SplitSigns(terms);
    if SumBy(terms, PositivePart()) <= I128_MAX && SumBy(terms, NegativePart()) >= I128_MIN {
      AccumulateExact(0, terms);
      AccumulateExact(0, other);
    } else {
      AccumulateOneSign(0, terms);
      AccumulateOneSign(0, other);
    }
  }

  // ----- How far the order can move a total -----

  function SumPositive(terms: seq<int>): int {
    SumBy(terms, PositivePart())
  }

  function SumNegative(terms: seq<int>): int {
    SumBy(terms, NegativePart())
  }

  /** The total when all positive terms come first. */
  function PositivesFirstTotal(terms: seq<int>): int {
    Saturate(Saturate(SumPositive(terms)) + SumNegative(terms))
  }

  /** The total when all negative terms come first. */
  function NegativesFirstTotal(terms: seq<int>): int {
    Saturate(Saturate(SumNegative(terms)) + SumPositive(terms))
  }

  lemma {:induction false} AccumulateBetween(acc: int, terms: seq<int>)
    requires FitsI128(acc)
    ensures Saturate(Saturate(acc + SumPositive(terms)) + SumNegative(terms)) <= Accumulate(acc, terms)
    ensures Accumulate(acc, terms) <= Saturate(Saturate(acc + SumNegative(terms)) + SumPositive(terms))
    decreases |terms|
  {
    SplitSigns(terms);
    if terms != [] {
      SplitSigns(terms[1..]);
      AccumulateBetween(SatAdd(acc, terms[0]), terms[1..]);
    }
  }

  /** Whatever the order, the total lies between positives first, which loses the most at the upper bound, and
      negatives first. */
  lemma TotalBetween(terms: seq<int>, other: seq<int>)
    requires multiset(other) == multiset(terms)
    ensures PositivesFirstTotal(terms) <= Accumulate(0, other) <= NegativesFirstTotal(terms)
  {
    SumByPermutation(other, terms, PositivePart());
    SumByPermutation(other, terms, NegativePart());
    AccumulateBetween(0, other);
  }

  function RisesFn(f: Reading -> int): Reading -> bool {
    (r: Reading) => f(r) > 0
  }

  function FallsFn(f: Reading -> int): Reading -> bool {
    (r: Reading) => f(r) <= 0
  }

  lemma {:induction false} NoneFalls(rs: seq<Reading>, f: Reading -> int)
    requires forall r :: r in rs ==> f(r) > 0
    ensures SumNegative(Map(rs, f)) == 0
  {
    if rs != [] {
      assert Map(rs, f)[1..] == Map(rs[1..], f);
      NoneFalls(rs[1..], f);
    }
  }

  lemma {:induction false} NoneRises(rs: seq<Reading>, f: Reading -> int)
    requires forall r :: r in rs ==> f(r) <= 0
    ensures SumPositive(Map(rs, f)) == 0
  {
    if rs != [] {
      assert Map(rs, f)[1..] == Map(rs[1..], f);
      NoneRises(rs[1..], f);
    }
  }

  lemma SplitReadings(rs: seq<Reading>, f: Reading -> int)
    ensures multiset(Filter(rs, RisesFn(f))) + multiset(Filter(rs, FallsFn(f))) == multiset(rs)
  {
    var a, b := Filter(rs, RisesFn(f)), Filter(rs, FallsFn(f));
    forall r ensures (multiset(a) + multiset(b))[r] == multiset(rs)[r] {
      FilterCount(rs, RisesFn(f), r);
      FilterCount(rs, FallsFn(f), r);
    }
  }

  /** Both extremes are reached by some order of the same readings. */
  lemma ExtremeOrders(rs: seq<Reading>, f: Reading -> int) returns (low: seq<Reading>, high: seq<Reading>)
    ensures multiset(low) == multiset(rs) && Accumulate(0, Map(low, f)) == PositivesFirstTotal(Map(rs, f))
    ensures multiset(high) == multiset(rs) && Accumulate(0, Map(high, f)) == NegativesFirstTotal(Map(rs, f))
  {
    var a, b := Filter(rs, RisesFn(f)), Filter(rs, FallsFn(f));
    SplitReadings(rs, f);
    NoneFalls(a, f);
    NoneRises(b, f);
    low, high := a + b, b + a;
    SignedTotals(a, b, rs, f);
  }

  lemma SignedTotals(a: seq<Reading>, b: seq<Reading>, rs: seq<Reading>, f: Reading -> int)
    requires multiset(a + b) == multiset(rs) && SumNegative(Map(a, f)) == 0 && SumPositive(Map(b, f)) == 0
    ensures Accumulate(0, Map(a + b, f)) == PositivesFirstTotal(Map(rs, f))
    ensures Accumulate(0, Map(b + a, f)) == NegativesFirstTotal(Map(rs, f))
  {
    var x, y := Map(a, f), Map(b, f);
    assert Map(a + b, f) == x + y && Map(b + a, f) == y + x;
    MapPermutation(a + b, rs, f);
    SplitSums(x, y, Map(rs, f));
    AccumulateSigned(x, y);
    AccumulateSigned(y, x);
  }

  lemma SplitSums(x: seq<int>, y: seq<int>, terms: seq<int>)
    requires multiset(x + y) == multiset(terms) && SumNegative(x) == 0 && SumPositive(y) == 0
    ensures SumBy(x, Identity()) == SumPositive(terms) && SumBy(y, Identity()) == SumNegative(terms)
  {
    SumByPermutation(x + y, terms, PositivePart());
    SumByPermutation(x + y, terms, NegativePart());
    SumByAppend(x, y, PositivePart());
    SumByAppend(x, y, NegativePart());
    SplitSigns(x);
    SplitSigns(y);
  }

  /** The two extreme totals have the same quotient. */
  predicate SteadyQuotient(terms: seq<int>, divisor: int)
    requires divisor > 0
  {
    TruncDiv(PositivesFirstTotal(terms), divisor) == TruncDiv(NegativesFirstTotal(terms), divisor)
  }

  /** Then every order has it. */
  lemma SteadyTotal(terms: seq<int>, other: seq<int>, divisor: int)
    requires divisor > 0 && SteadyQuotient(terms, divisor) && multiset(other) == multiset(terms)
    ensures TruncDiv(Accumulate(0, other), divisor) == TruncDiv(PositivesFirstTotal(terms), divisor)
  {
    TotalBetween(terms, other);
    TruncDivMono(PositivesFirstTotal(terms), Accumulate(0, other), divisor);
    TruncDivMono(Accumulate(0, other), NegativesFirstTotal(terms), divisor);
  }

  /** A sum that cannot saturate on mixed signs has steady quotients. */
  lemma OrderFreeIsSteady(terms: seq<int>, divisor: int)
    requires divisor > 0 && OrderFree(terms)
    ensures SteadyQuotient(terms, divisor)
  {
    SplitSigns(terms);
  }

  // ----- Mean and weighted average -----

  function ValueFn(): Reading -> int {
    (r: Reading) => r.value
  }

  function ProductFn(): Reading -> int {
    (r: Reading) => r.value * r.weight
  }

  function SatProductFn(): Reading -> int {
    (r: Reading) => SatMul(r.value, r.weight)
  }

  method ComputeMean(rs: seq<Reading>) returns (r: int)
    requires rs != []
    ensures r == MeanOf(rs)
  {
    var sum := 0;
    ghost var terms := Map(rs, ValueFn());
    for i := 0 to |rs|
      invariant Accumulate(sum, terms[i..]) == Accumulate(0, terms)
    {
      sum := SatAdd(sum, rs[i].value);
    }
    r := TruncDiv(sum, |rs|);
  }

  function MeanOf(rs: seq<Reading>): int
    requires rs != []
  {
    TruncDiv(Accumulate(0, Map(rs, ValueFn())), |rs|)
  }

  method ComputeWeightedAverage(rs: seq<Reading>, totalWeight: nat) returns (r: int)
    requires totalWeight == TotalWeight(rs) && totalWeight > 0
    ensures r == WeightedAverageOf(rs)
  {
    var weightedSum := 0;
    ghost var terms := Map(rs, SatProductFn());
    for i := 0 to |rs|
      invariant Accumulate(weightedSum, terms[i..]) == Accumulate(0, terms)
    {
      weightedSum := SatAdd(weightedSum, SatMul(rs[i].value, rs[i].weight));
    }
    r := TruncDiv(weightedSum, totalWeight);
  }

  function WeightedAverageOf(rs: seq<Reading>): int
    requires TotalWeight(rs) > 0
  {
    TruncDiv(Accumulate(0, Map(rs, SatProductFn())), TotalWeight(rs))
  }

  /** What the submission and registration guards allow. */
  ghost predicate Bounded(rs: seq<Reading>) {
    && |rs| <= MAX_DATA_POINTS
    && forall i :: 0 <= i < |rs| ==> Abs(rs[i].value) <= MAX_DATA_VALUE && 1 <= rs[i].weight <= MAX_WEIGHT
  }

  lemma {:induction false} TermsBounded(terms: seq<int>, bound: nat)
    requires forall i :: 0 <= i < |terms| ==> Abs(terms[i]) <= bound
    ensures SumBy(terms, PositivePart()) <= |terms| * bound
    ensures SumBy(terms, NegativePart()) >= -(|terms| * bound)
  {
    if terms != [] {
      TermsBounded(terms[1..], bound);
      assert |terms| * bound == (|terms| - 1) * bound + bound;
    }
  }

  lemma {:induction false} SumOfMap<T>(s: seq<T>, f: T -> int)
    ensures SumBy(Map(s, f), Identity()) == SumBy(s, f)
  {
    if s != [] {
      assert Map(s, f)[1..] == Map(s[1..], f);
      SumOfMap(s[1..], f);
    }
  }

  /** A weighted sum lies between its extremes times the total weight. */
  lemma {:induction false} WeightedSumHull(rs: seq<Reading>, lo: int, hi: int)
    requires ValuesIn(rs, lo, hi)
    ensures lo * TotalWeight(rs) <= SumBy(rs, ProductFn()) <= hi * TotalWeight(rs)
  {
    if rs != [] {
      var r := rs[0];
      WeightedSumHull(rs[1..], lo, hi);
      MulMono(lo, r.value, r.weight);
      MulMono(r.value, hi, r.weight);
      assert lo * TotalWeight(rs) == lo * r.weight + lo * TotalWeight(rs[1..]);
      assert hi * TotalWeight(rs) == hi * r.weight + hi * TotalWeight(rs[1..]);
    }
  }

  lemma {:induction false} ValueSumHull(rs: seq<Reading>, lo: int, hi: int)
    requires ValuesIn(rs, lo, hi)
    ensures lo * |rs| <= SumBy(rs, ValueFn()) <= hi * |rs|
  {
    if rs != [] {
      ValueSumHull(rs[1..], lo, hi);
      assert lo * |rs| == lo * |rs[1..]| + lo && hi * |rs| == hi * |rs[1..]| + hi;
    }
  }

  lemma BoundedTerms(rs: seq<Reading>)
    requires Bounded(rs)
    ensures OrderFree(Map(rs, ValueFn())) && OrderFree(Map(rs, SatProductFn()))
    ensures Accumulate(0, Map(rs, ValueFn())) == SumBy(rs, ValueFn())
    ensures Accumulate(0, Map(rs, SatProductFn())) == SumBy(rs, ProductFn())
  {
    var values, products := Map(rs, ValueFn()), Map(rs, SatProductFn());
    forall i | 0 <= i < |rs| ensures products[i] == ProductFn()(rs[i]) && Abs(products[i]) <= MAX_DATA_VALUE * MAX_WEIGHT {
      ProductBounded(rs[i].value, rs[i].weight);
    }
    TermsBounded(values, MAX_DATA_VALUE);
    TermsBounded(products, MAX_DATA_VALUE * MAX_WEIGHT);
    MulMono(|rs|, MAX_DATA_POINTS, MAX_DATA_VALUE);
    MulMono(|rs|, MAX_DATA_POINTS, MAX_DATA_VALUE * MAX_WEIGHT);
    AccumulateExact(0, values);
    AccumulateExact(0, products);
    assert products == Map(rs, ProductFn());
    SumOfMap(rs, ValueFn());
    SumOfMap(rs, ProductFn());
  }

  lemma ProductHull(v: int, w: nat, bound: int)
    requires Abs(v) <= bound
    ensures -(bound * w) <= v * w <= bound * w
  {
    MulMono(v, bound, w);
    MulMono(-bound, v, w);
    assert (-bound) * w == -(bound * w);
  }

  lemma ProductBounded(v: int, w: int)
    requires Abs(v) <= MAX_DATA_VALUE && 0 <= w <= MAX_WEIGHT
    ensures Abs(v * w) <= MAX_DATA_VALUE * MAX_WEIGHT
  {
    ProductHull(v, w, MAX_DATA_VALUE);
  }

  /** Within the guards nothing saturates: both averages are the exact truncated quotients and lie in the
      hull of the reported values. */
  lemma AveragesExact(rs: seq<Reading>, lo: int, hi: int)
    requires rs != [] && Bounded(rs) && ValuesIn(rs, lo, hi)
    ensures TotalWeight(rs) > 0
    ensures MeanOf(rs) == TruncDiv(SumBy(rs, ValueFn()), |rs|)
    ensures WeightedAverageOf(rs) == TruncDiv(SumBy(rs, ProductFn()), TotalWeight(rs))
    ensures lo <= MeanOf(rs) <= hi && lo <= WeightedAverageOf(rs) <= hi
  {
    BoundedTerms(rs);
    SortedReadings(rs);
    ValueSumHull(rs, lo, hi);
    WeightedSumHull(rs, lo, hi);
    TruncDivHull(SumBy(rs, ValueFn()), |rs|, lo, hi);
    TruncDivHull(SumBy(rs, ProductFn()), TotalWeight(rs), lo, hi);
  }

  /** The mean does not depend on the order of the readings. */
  ghost predicate MeanOrderFree(rs: seq<Reading>)
    requires rs != []
  {
    forall qs :: multiset(qs) == multiset(rs) && qs != [] ==> MeanOf(qs) == MeanOf(rs)
  }

  ghost predicate WeightedAverageOrderFree(rs: seq<Reading>)
    requires TotalWeight(rs) > 0
  {
    forall qs :: multiset(qs) == multiset(rs) && TotalWeight(qs) > 0 ==> WeightedAverageOf(qs) == WeightedAverageOf(rs)
  }

  lemma MeanOfPermutation(rs: seq<Reading>, qs: seq<Reading>)
    requires multiset(rs) == multiset(qs) && rs != [] && SteadyQuotient(Map(rs, ValueFn()), |rs|)
    ensures |rs| == |qs| && MeanOf(rs) == MeanOf(qs)
  {
    assert |rs| == |multiset(rs)| == |multiset(qs)| == |qs|;
    MapPermutation(rs, qs, ValueFn());
    SteadyTotal(Map(rs, ValueFn()), Map(rs, ValueFn()), |rs|);
    SteadyTotal(Map(rs, ValueFn()), Map(qs, ValueFn()), |rs|);
  }

  lemma WeightedAverageOfPermutation(rs: seq<Reading>, qs: seq<Reading>)
    requires multiset(rs) == multiset(qs) && TotalWeight(rs) > 0 && SteadyQuotient(Map(rs, SatProductFn()), TotalWeight(rs))
    ensures TotalWeight(rs) == TotalWeight(qs) && WeightedAverageOf(rs) == WeightedAverageOf(qs)
  {
    SumByPermutation(rs, qs, WeightFn());
    MapPermutation(rs, qs, SatProductFn());
    SteadyTotal(Map(rs, SatProductFn()), Map(rs, SatProductFn()), TotalWeight(rs));
    SteadyTotal(Map(rs, SatProductFn()), Map(qs, SatProductFn()), TotalWeight(rs));
  }

  /** The mean is a function of the set of readings if and only if adding the positive values first and adding
      them last give the same quotient; saturation alone does not decide it. */
  lemma MeanOrderFreeExactly(rs: seq<Reading>)
    requires rs != []
    ensures MeanOrderFree(rs) <==> SteadyQuotient(Map(rs, ValueFn()), |rs|)
  {
    if SteadyQuotient(Map(rs, ValueFn()), |rs|) {
      forall qs | multiset(qs) == multiset(rs) && qs != [] ensures MeanOf(qs) == MeanOf(rs) {
        MeanOfPermutation(rs, qs);
      }
    } else {
      var low, high := ExtremeOrders(rs, ValueFn());
      assert |low| == |multiset(low)| == |multiset(rs)| == |rs| && |high| == |multiset(high)| == |rs|;
      assert MeanOf(low) != MeanOf(high);
    }
  }

  /** The same for the weighted average and its saturating products. */
  lemma WeightedAverageOrderFreeExactly(rs: seq<Reading>)
    requires TotalWeight(rs) > 0
    ensures WeightedAverageOrderFree(rs) <==> SteadyQuotient(Map(rs, SatProductFn()), TotalWeight(rs))
  {
    if SteadyQuotient(Map(rs, SatProductFn()), TotalWeight(rs)) {
      forall qs | multiset(qs) == multiset(rs) && TotalWeight(qs) > 0 ensures WeightedAverageOf(qs) == WeightedAverageOf(rs) {
        WeightedAverageOfPermutation(rs, qs);
      }
    } else {
      var low, high := ExtremeOrders(rs, SatProductFn());
      SumByPermutation(low, rs, WeightFn());
      SumByPermutation(high, rs, WeightFn());
      assert WeightedAverageOf(low) != WeightedAverageOf(high);
    }
  }

  /** A sum that does depend on the order under a mean that does not. */
  lemma SteadyThoughSaturating(a: Reading, b: Reading, c: Reading)
    requires a.value == I128_MAX && b.value == 1 && c.value == -1
    ensures !OrderFree(Map([a, b, c], ValueFn())) && MeanOrderFree([a, b, c])
  {
    var terms := Map([a, b, c], ValueFn());
    assert terms == [I128_MAX, 1, -1] && terms[1..] == [1, -1] && terms[1..][1..] == [-1] && terms[1..][1..][1..] == [];
    assert SumPositive([-1]) == 0 && SumNegative([-1]) == -1;
    assert SumPositive([1, -1]) == 1 && SumNegative([1, -1]) == -1;
    assert SumPositive(terms) == I128_MAX + 1 && SumNegative(terms) == -1;
    MeanOrderFreeExactly([a, b, c]);
  }

  lemma AccumulateThree(a: int, b: int, c: int)
    ensures Accumulate(0, [a, b, c]) == SatAdd(SatAdd(SatAdd(0, a), b), c)
  {
    assert [a, b, c] == [a] + ([b] + [c]);
    AccumulateAppend(0, [a], [b] + [c]);
    AccumulateAppend(SatAdd(0, a), [b], [c]);
  }

  /** Values the batch entry point accepts without a range check: the mean then depends on the order in
      which the same three readings are stored. */
  lemma MeanOrderMatters(up: Reading, down: Reading)
    requires up.value == I128_MAX && down.value == I128_MIN
    ensures MeanOf([up, up, down]) != MeanOf([up, down, up])
  {
    var a, b := Map([up, up, down], ValueFn()), Map([up, down, up], ValueFn());
    assert a == [I128_MAX, I128_MAX, I128_MIN] && b == [I128_MAX, I128_MIN, I128_MAX];
    AccumulateThree(I128_MAX, I128_MAX, I128_MIN);
    AccumulateThree(I128_MAX, I128_MIN, I128_MAX);
  }
}
