/** The time-weighted average: each reading counts for as long as it was the newest one. */
module TimeWeighting {
  import opened Arithmetic
  import opened Sequences
  import opened WeightedMedian
  import opened Averages

  /** The longest observation window, in seconds, for which the i128 accumulators provably have room. */
  const MAX_SPAN: nat := 1_700_000

  datatype Timed = Timed(value: int, weight: nat, time: nat)

  function ByTime(): (Timed, Timed) -> bool {
    (a: Timed, b: Timed) => a.time <= b.time
  }

  function ByTimeThenReading(): (Timed, Timed) -> bool {
    (a: Timed, b: Timed) =>
      a.time < b.time || (a.time == b.time && (a.value < b.value || (a.value == b.value && a.weight <= b.weight)))
  }

  function Pair(values: seq<Reading>, timestamps: seq<nat>): (r: seq<Timed>)
    requires |values| == |timestamps|
    ensures |r| == |values|
  {
    seq(|values|, i requires 0 <= i < |values| => Timed(values[i].value, values[i].weight, timestamps[i]))
  }

  /** How long the first reading held: until the next one, or until now for the newest; at least a second. */
  function Duration(active: seq<Timed>, now: nat): (d: nat)
    requires active != []
    ensures d >= 1
  {
    var start := active[0].time;
    var end := if |active| > 1 then active[1].time else Max(now, start);
    Max(SatSubU64(end, start), 1)
  }

  /** The readings, each weighted by oracle weight times duration. */
  function Holdings(active: seq<Timed>, now: nat): (r: seq<Reading>)
    ensures |r| == |active|
  {
    if active == [] then []
    else [Reading(active[0].value, HeldWeight(active, now))] + Holdings(active[1..], now)
  }

  function HeldWeight(active: seq<Timed>, now: nat): nat
    requires active != []
  {
    SatMul(Duration(active, now), active[0].weight)
  }

  lemma {:induction false} TotalNonNegative(acc: nat, held: seq<Reading>)
    ensures Accumulate(acc, Map(held, WeightFn())) >= 0
    decreases |held|
  {
    if held != [] {
      var terms := Map(held, WeightFn());
      assert terms[1..] == Map(held[1..], WeightFn());
      TotalNonNegative(SatAdd(acc, terms[0]), held[1..]);
    }
  }

  function TimeAverage(active: seq<Timed>, now: nat): int
    requires active != []
  {
    var held := Holdings(active, now);
    var total := Accumulate(0, Map(held, WeightFn()));
    TotalNonNegative(0, held);
    if total == 0 then active[|active| - 1].value
    else TruncDiv(Accumulate(0, Map(held, SatProductFn())), total)
  }

  function TimeWeightedOf(values: seq<Reading>, timestamps: seq<nat>, now: nat): int
    requires |values| == |timestamps| > 0
  {
    SortLength(Pair(values, timestamps), ByTime());
    if |values| == 1 then values[0].value else TimeAverage(Sort(Pair(values, timestamps), ByTime()), now)
  }

  method ComputeTimeWeighted(values: seq<Reading>, timestamps: seq<nat>, now: nat) returns (r: int)
    requires |values| == |timestamps| > 0
    ensures r == TimeWeightedOf(values, timestamps, now)
  {
    var n := |values|;
    if n == 1 {
      return values[0].value;
    }
    SortLength(Pair(values, timestamps), ByTime());
    var active := Sort(Pair(values, timestamps), ByTime());
    ghost var held := Holdings(active, now);
    ghost var products, weights := Map(held, SatProductFn()), Map(held, WeightFn());
    var weightedSum, totalWeightedDuration := 0, 0;
    for i := 0 to n
      invariant Holdings(active[i..], now) == held[i..]
      invariant Accumulate(weightedSum, products[i..]) == Accumulate(0, products)
      invariant Accumulate(totalWeightedDuration, weights[i..]) == Accumulate(0, weights)
    {
      var reading := active[i];
      var end := if i + 1 < n then active[i + 1].time else Max(now, reading.time);
      var duration := Max(SatSubU64(end, reading.time), 1);
      var weightedDuration := SatMul(duration, reading.weight);
      assert active[i..][1..] == active[i + 1..] && held[i..][1..] == held[i + 1..];
      assert held[i] == held[i..][0] == Reading(reading.value, weightedDuration);
      weightedSum := SatAdd(weightedSum, SatMul(reading.value, weightedDuration));
      totalWeightedDuration := SatAdd(totalWeightedDuration, weightedDuration);
    }
    TotalNonNegative(0, held);
    if totalWeightedDuration == 0 {
      return active[n - 1].value;
    }
    r := TruncDiv(weightedSum, totalWeightedDuration);
  }

  // ----- Hull and overflow bound -----

  /** Guarded readings in time order, all within MAX_SPAN seconds of `end`. */
  ghost predicate Window(active: seq<Timed>, now: nat, end: nat) {
    && SortedBy(active, ByTime()) && |active| <= MAX_DATA_POINTS
    && now <= end
    && forall i :: 0 <= i < |active| ==>
         && Abs(active[i].value) <= MAX_DATA_VALUE && 1 <= active[i].weight <= MAX_WEIGHT
         && active[i].time <= end <= active[i].time + MAX_SPAN
  }

  lemma {:induction false} HoldingsBounded(active: seq<Timed>, now: nat, end: nat)
    requires Window(active, now, end)
    ensures var held := Holdings(active, now);
      && (forall i :: 0 <= i < |held| ==> held[i].value == active[i].value && held[i].weight >= 1)
      && TotalWeight(held) <= MAX_WEIGHT * (|active| + (if active == [] then 0 else end - active[0].time))
      && TotalWeight(held) >= 0
  {
    if active != [] {
      var rest := active[1..];
      assert rest != [] ==> ByTime()(active[0], active[1]);
      HoldingsBounded(rest, now, end);
      var d, w := Duration(active, now), active[0].weight;
      assert d <= MAX_SPAN + 1;
      MulMono(w, MAX_WEIGHT, d);
      MulMono(1, d, w);
      var used := if rest == [] then 0 else end - rest[0].time;
      assert d + used <= 1 + end - active[0].time;
      assert MAX_WEIGHT * (d + (|rest| + used)) == MAX_WEIGHT * d + MAX_WEIGHT * (|rest| + used);
      MulMono(d + (|rest| + used), |active| + (end - active[0].time), MAX_WEIGHT);
      assert Holdings(active, now)[1..] == Holdings(rest, now);
    }
  }

  lemma {:induction false} ProductsBounded(held: seq<Reading>, bound: nat)
    requires forall i :: 0 <= i < |held| ==> Abs(held[i].value) <= bound
    requires bound * TotalWeight(held) <= I128_MAX
    ensures SumBy(Map(held, SatProductFn()), PositivePart()) <= bound * TotalWeight(held)
    ensures SumBy(Map(held, SatProductFn()), NegativePart()) >= -(bound * TotalWeight(held))
    ensures Map(held, SatProductFn()) == Map(held, ProductFn())
  {
    if held != [] {
      var v, w, rest := held[0].value, held[0].weight, held[1..];
      WeightBelowMono(rest, 0, 0);
      assert bound * TotalWeight(held) == bound * w + bound * TotalWeight(rest);
      MulMono(0, TotalWeight(rest), bound);
      ProductHull(v, w, bound);
      ProductsBounded(rest, bound);
      var products := Map(held, SatProductFn());
      assert products[0] == v * w && products[1..] == Map(rest, SatProductFn());
      assert Map(held, ProductFn()) == [v * w] + Map(rest, ProductFn());
    }
  }

  lemma {:induction false} WeightsAccumulate(held: seq<Reading>)
    ensures SumBy(Map(held, WeightFn()), NegativePart()) == 0
    ensures SumBy(Map(held, WeightFn()), PositivePart()) == TotalWeight(held)
  {
    if held != [] {
      assert Map(held, WeightFn())[1..] == Map(held[1..], WeightFn());
      WeightsAccumulate(held[1..]);
    }
  }

  lemma RoomForProducts(total: int, n: nat, used: nat)
    requires n <= MAX_DATA_POINTS && used <= MAX_SPAN && 0 <= total <= MAX_WEIGHT * (n + used)
    ensures MAX_DATA_VALUE * total <= I128_MAX && total <= I128_MAX
  {
    MulMono(n + used, MAX_DATA_POINTS + MAX_SPAN, MAX_WEIGHT);
    MulMono(total, MAX_WEIGHT * (MAX_DATA_POINTS + MAX_SPAN), MAX_DATA_VALUE);
  }

  /** Guarded readings inside the window hold for a positive total that leaves room for every product. */
  lemma WindowTotal(active: seq<Timed>, now: nat, end: nat)
    requires active != [] && Window(active, now, end)
    ensures var total := TotalWeight(Holdings(active, now));
      0 < total <= I128_MAX && MAX_DATA_VALUE * total <= I128_MAX
  {
    HoldingsBounded(active, now, end);
    SortedReadings(Holdings(active, now));
    RoomForProducts(TotalWeight(Holdings(active, now)), |active|, end - active[0].time);
  }

  /** Nothing saturates. */
  lemma HeldExact(held: seq<Reading>, bound: nat)
    requires forall i :: 0 <= i < |held| ==> Abs(held[i].value) <= bound
    requires 0 <= TotalWeight(held) <= I128_MAX && bound * TotalWeight(held) <= I128_MAX
    ensures Accumulate(0, Map(held, SatProductFn())) == SumBy(held, ProductFn())
    ensures Accumulate(0, Map(held, WeightFn())) == TotalWeight(held)
  {
    ProductsBounded(held, bound);
    WeightsAccumulate(held);
    AccumulateExact(0, Map(held, SatProductFn()));
    AccumulateExact(0, Map(held, WeightFn()));
    SumOfMap(held, ProductFn());
    SumOfMap(held, WeightFn());
  }

  ghost predicate ValuesWithin(active: seq<Timed>, lo: int, hi: int) {
    forall i :: 0 <= i < |active| ==> lo <= active[i].value <= hi
  }

  ghost predicate AllWeighted(active: seq<Timed>) {
    forall i :: 0 <= i < |active| ==> active[i].weight >= 1
  }

  lemma {:induction false} HoldingsPositive(active: seq<Timed>, now: nat)
    requires AllWeighted(active)
    ensures var held := Holdings(active, now);
      && (forall i :: 0 <= i < |held| ==> held[i].value == active[i].value && held[i].weight >= 1)
      && TotalWeight(held) >= |active|
  {
    if active != [] {
      HoldingsPositive(active[1..], now);
      MulMono(1, Duration(active, now), active[0].weight);
      assert Holdings(active, now)[1..] == Holdings(active[1..], now);
    }
  }

  /** As long as the largest value times the total weighted duration fits i128 nothing saturates, and the result lies
      in the hull of the values, in whichever order the readings stand. */
  lemma TimeAverageHull(active: seq<Timed>, now: nat, bound: int, lo: int, hi: int)
    requires bound >= 0 && active != [] && AllWeighted(active) && ValuesWithin(active, -bound, bound) && ValuesWithin(active, lo, hi)
    requires var total := TotalWeight(Holdings(active, now)); total <= I128_MAX && bound * total <= I128_MAX
    ensures var held := Holdings(active, now);
      && TotalWeight(held) > 0
      && TimeAverage(active, now) == TruncDiv(SumBy(held, ProductFn()), TotalWeight(held))
    ensures lo <= TimeAverage(active, now) <= hi
  {
    var held := Holdings(active, now);
    HoldingsPositive(active, now);
    HeldExact(held, bound);
    assert ValuesIn(held, lo, hi);
    WeightedSumHull(held, lo, hi);
    TruncDivHull(SumBy(held, ProductFn()), TotalWeight(held), lo, hi);
  }

  /** Guarded readings inside the window never saturate. */
  lemma WindowHull(active: seq<Timed>, now: nat, end: nat, lo: int, hi: int)
    requires active != [] && Window(active, now, end) && ValuesWithin(active, lo, hi)
    ensures lo <= TimeAverage(active, now) <= hi
  {
    WindowTotal(active, now, end);
    TimeAverageHull(active, now, MAX_DATA_VALUE, lo, hi);
  }

  // ----- The exact limit -----

  ghost predicate InHull(active: seq<Timed>, now: nat)
    requires active != []
  {
    forall lo, hi :: ValuesWithin(active, lo, hi) ==> lo <= TimeAverage(active, now) <= hi
  }

  /** The same oracles, weights and times with other values. */
  ghost predicate Revalued(active: seq<Timed>, other: seq<Timed>) {
    |other| == |active| && forall i :: 0 <= i < |active| ==> other[i] == active[i].(value := other[i].value)
  }

  ghost predicate AlwaysInHull(active: seq<Timed>, now: nat, bound: int)
    requires active != []
  {
    forall other :: Revalued(active, other) && ValuesWithin(other, -bound, bound) ==> InHull(other, now)
  }

  lemma {:induction false} SameHoldings(active: seq<Timed>, other: seq<Timed>, now: nat)
    requires Revalued(active, other)
    ensures TotalWeight(Holdings(other, now)) == TotalWeight(Holdings(active, now))
  {
    if active != [] {
      assert Revalued(active[1..], other[1..]);
      SameHoldings(active[1..], other[1..], now);
      assert Holdings(active, now)[1..] == Holdings(active[1..], now);
      assert Holdings(other, now)[1..] == Holdings(other[1..], now);
    }
  }

  lemma SaturatingSteps(acc: nat, first: nat, rest: nat)
    ensures Saturate(SatAdd(acc, Saturate(first)) + rest) == Saturate(acc + (first + rest))
  {
  }

  lemma SplitProduct(value: int, whole: int, first: int, rest: int)
    requires whole == first + rest
    ensures value * whole == value * first + value * rest
  {
  }

  /** Readings of one value: the saturating sum is the saturated sum. */
  lemma {:induction false} OneValueSum(held: seq<Reading>, value: nat, acc: nat)
    requires forall i :: 0 <= i < |held| ==> held[i].value == value
    requires acc <= I128_MAX
    ensures TotalWeight(held) >= 0
    ensures Accumulate(acc, Map(held, SatProductFn())) == Saturate(acc + value * TotalWeight(held))
    decreases |held|
  {
    if held != [] {
      var terms, first, rest := Map(held, SatProductFn()), value * held[0].weight, held[1..];
      MulMono(0, held[0].weight, value);
      assert terms[0] == Saturate(first) && terms[1..] == Map(rest, SatProductFn());
      OneValueSum(rest, value, SatAdd(acc, terms[0]));
      MulMono(0, TotalWeight(rest), value);
      SplitProduct(value, TotalWeight(held), held[0].weight, TotalWeight(rest));
      SaturatingSteps(acc, first, value * TotalWeight(rest));
    }
  }

  /** Beyond that limit even readings that all agree come out too small. */
  lemma SaturatedFallsShort(active: seq<Timed>, now: nat, bound: nat)
    requires active != [] && AllWeighted(active) && ValuesWithin(active, bound, bound)
    requires var total := TotalWeight(Holdings(active, now)); total <= I128_MAX < bound * total
    ensures TimeAverage(active, now) < bound
  {
    var held := Holdings(active, now);
    HoldingsPositive(active, now);
    OneValueSum(held, bound, 0);
    WeightsAccumulate(held);
    AccumulateExact(0, Map(held, WeightFn()));
    SumOfMap(held, WeightFn());
    QuotientAtLeast(I128_MAX, TotalWeight(held), bound);
  }

  /** The average lies in the hull whatever values up to `bound` are reported if and only if `bound` times the total
      weighted duration fits i128. */
  lemma HullExactly(active: seq<Timed>, now: nat, bound: int)
    requires bound >= 0 && active != [] && AllWeighted(active) && TotalWeight(Holdings(active, now)) <= I128_MAX
    ensures AlwaysInHull(active, now, bound) <==> bound * TotalWeight(Holdings(active, now)) <= I128_MAX
  {
    if bound * TotalWeight(Holdings(active, now)) <= I128_MAX {
      forall other | Revalued(active, other) && ValuesWithin(other, -bound, bound) ensures InHull(other, now) {
        RevaluedInHull(active, other, now, bound);
      }
    } else {
      var other := RevaluedOutside(active, now, bound);
    }
  }

  lemma RevaluedInHull(active: seq<Timed>, other: seq<Timed>, now: nat, bound: int)
    requires bound >= 0 && active != [] && AllWeighted(active) && bound * TotalWeight(Holdings(active, now)) <= I128_MAX
    requires TotalWeight(Holdings(active, now)) <= I128_MAX
    requires Revalued(active, other) && ValuesWithin(other, -bound, bound)
    ensures InHull(other, now)
  {
    SameHoldings(active, other, now);
    forall lo, hi | ValuesWithin(other, lo, hi) ensures lo <= TimeAverage(other, now) <= hi {
      TimeAverageHull(other, now, bound, lo, hi);
    }
  }

  lemma RevaluedOutside(active: seq<Timed>, now: nat, bound: int) returns (other: seq<Timed>)
    requires bound >= 0 && active != [] && AllWeighted(active)
    requires TotalWeight(Holdings(active, now)) <= I128_MAX < bound * TotalWeight(Holdings(active, now))
    ensures Revalued(active, other) && ValuesWithin(other, -bound, bound) && !InHull(other, now)
  {
    other := seq(|active|, i requires 0 <= i < |active| => active[i].(value := bound));
    SameHoldings(active, other, now);
    SaturatedFallsShort(other, now, bound);
    assert ValuesWithin(other, bound, bound);
  }

  // ----- In terms of the readings -----

  /** How long reading `i` was the newest one, in seconds: until the next one, the last until now; at least one. */
  function SecondsHeld(active: seq<Timed>, now: nat, i: nat): int
    requires i < |active|
  {
    var until := if i + 1 < |active| then active[i + 1].time else if now > active[i].time then now else active[i].time;
    if until > active[i].time then until - active[i].time else 1
  }

  /** The sum of value x weight x seconds held, and of weight x seconds held, over the readings from `i` on. */
  function ValueTime(active: seq<Timed>, now: nat, i: nat): int
    requires i <= |active|
    decreases |active| - i
  {
    if i == |active| then 0
    else active[i].value * (active[i].weight * SecondsHeld(active, now, i)) + ValueTime(active, now, i + 1)
  }

  function WeightTime(active: seq<Timed>, now: nat, i: nat): int
    requires i <= |active|
    decreases |active| - i
  {
    if i == |active| then 0
    else active[i].weight * SecondsHeld(active, now, i) + WeightTime(active, now, i + 1)
  }

  lemma HeldSeconds(active: seq<Timed>, now: nat, i: nat)
    requires i < |active| && 0 <= active[i].weight * SecondsHeld(active, now, i) <= I128_MAX
    ensures HeldWeight(active[i..], now) == active[i].weight * SecondsHeld(active, now, i)
  {
    var rest := active[i..];
    assert rest[0] == active[i] && (|rest| > 1 ==> rest[1] == active[i + 1]);
    assert Duration(rest, now) == SecondsHeld(active, now, i);
    assert Duration(rest, now) * rest[0].weight == active[i].weight * SecondsHeld(active, now, i);
  }

  lemma {:induction false} HoldingSums(active: seq<Timed>, now: nat, i: nat)
    requires i <= |active| && WeightTime(active, now, i) <= I128_MAX
    ensures WeightTime(active, now, i) >= 0
    ensures TotalWeight(Holdings(active[i..], now)) == WeightTime(active, now, i)
    ensures SumBy(Holdings(active[i..], now), ProductFn()) == ValueTime(active, now, i)
    decreases |active| - i
  {
    if i < |active| {
      MulMono(0, active[i].weight, SecondsHeld(active, now, i));
      WeightTimeNonNegative(active, now, i + 1);
      HoldingSums(active, now, i + 1);
      HeldSeconds(active, now, i);
      assert active[i..][0] == active[i] && active[i..][1..] == active[i + 1..];
      FirstHolding(active[i..], now);
    }
  }

  lemma FirstHolding(active: seq<Timed>, now: nat)
    requires active != []
    ensures var h := Holdings(active, now);
      h[0] == Reading(active[0].value, HeldWeight(active, now)) && h[1..] == Holdings(active[1..], now)
  {
  }

  lemma {:induction false} WeightTimeNonNegative(active: seq<Timed>, now: nat, i: nat)
    requires i <= |active|
    ensures WeightTime(active, now, i) >= 0
    decreases |active| - i
  {
    if i < |active| {
      MulMono(0, active[i].weight, SecondsHeld(active, now, i));
      WeightTimeNonNegative(active, now, i + 1);
    }
  }

  /** The average is the quotient of the two sums, truncated toward zero, as long as neither can leave i128: every
      value counts in proportion to its oracle's weight and to how long it was the newest one. */
  lemma TimeAverageFormula(active: seq<Timed>, now: nat, bound: int)
    requires bound >= 0 && active != [] && AllWeighted(active) && ValuesWithin(active, -bound, bound)
    requires WeightTime(active, now, 0) <= I128_MAX && bound * WeightTime(active, now, 0) <= I128_MAX
    ensures WeightTime(active, now, 0) > 0
    ensures TimeAverage(active, now) == TruncDiv(ValueTime(active, now, 0), WeightTime(active, now, 0))
  {
    assert active[0..] == active;
    HoldingSums(active, now, 0);
    TimeAverageHull(active, now, bound, -bound, bound);
  }

  lemma OneReadingAverage(a: Timed, now: nat)
    requires a.weight >= 1
    ensures WeightTime([a], now, 0) > 0 && TruncDiv(ValueTime([a], now, 0), WeightTime([a], now, 0)) == a.value
  {
    var w := a.weight * SecondsHeld([a], now, 0);
    assert WeightTime([a], now, 1) == 0 && ValueTime([a], now, 1) == 0;
    MulMono(1, SecondsHeld([a], now, 0), a.weight);
    TruncDivHull(a.value * w, w, a.value, a.value);
  }

  /** So for readings in storage order: there is an arrangement by time of which the result is that quotient. */
  lemma TimeWeightedExactly(values: seq<Reading>, timestamps: seq<nat>, now: nat, bound: int) returns (active: seq<Timed>)
    requires |values| == |timestamps| > 0 && Positive(values) && bound >= 0
    requires forall i :: 0 <= i < |values| ==> -bound <= values[i].value <= bound
    ensures |active| == |values| && SortedBy(active, ByTime())
    ensures multiset(active) == multiset(seq(|values|, i requires 0 <= i < |values| => Timed(values[i].value, values[i].weight, timestamps[i])))
    ensures WeightTime(active, now, 0) <= I128_MAX && bound * WeightTime(active, now, 0) <= I128_MAX ==>
              && WeightTime(active, now, 0) > 0
              && TimeWeightedOf(values, timestamps, now) == TruncDiv(ValueTime(active, now, 0), WeightTime(active, now, 0))
  {
    var pairs := Pair(values, timestamps);
    assert TotalPreorder(ByTime());
    SortSorts(pairs, ByTime());
    active := Sort(pairs, ByTime());
    forall i | 0 <= i < |active| ensures active[i].weight >= 1 && -bound <= active[i].value <= bound {
      assert active[i] in multiset(pairs);
      var j :| 0 <= j < |pairs| && pairs[j] == active[i];
    }
    if |values| == 1 {
      OneReadingAverage(active[0], now);
      assert active == [active[0]] && active[0] in multiset(pairs);
    } else if WeightTime(active, now, 0) <= I128_MAX && bound * WeightTime(active, now, 0) <= I128_MAX {
      TimeAverageFormula(active, now, bound);
    }
  }

  // ----- Dependence on the order of ties -----

  /** Readings that share a timestamp agree. */
  ghost predicate Unambiguous(ts: seq<Timed>) {
    forall i, j :: 0 <= i < |ts| && 0 <= j < |ts| && ts[i].time == ts[j].time ==> ts[i] == ts[j]
  }

  /** Without disagreeing ties, every time-ordered arrangement of the same readings is the same sequence. */
  lemma TimeOrderUnique(a: seq<Timed>, b: seq<Timed>)
    requires multiset(a) == multiset(b) && SortedBy(a, ByTime()) && SortedBy(b, ByTime())
    requires Unambiguous(a)
    ensures a == b
  {
    forall i, j | 0 <= i < |b| && 0 <= j < |b| && b[i].time == b[j].time ensures b[i] == b[j] {
      assert b[i] in multiset(a) && b[j] in multiset(a);
    }
    SortedLex(a);
    SortedLex(b);
    assert TotalOrder(ByTimeThenReading());
    SortedUnique(a, b, ByTimeThenReading());
  }

  lemma SortedLex(a: seq<Timed>)
    requires SortedBy(a, ByTime()) && Unambiguous(a)
    ensures SortedBy(a, ByTimeThenReading())
  {
    forall i, j | 0 <= i < j < |a| ensures ByTimeThenReading()(a[i], a[j]) {
      assert ByTime()(a[i], a[j]);
    }
  }

  /** Two entries of the same time exchanged: still in time order. */
  lemma ExchangeTied(a: seq<Timed>, i: nat, j: nat)
    requires SortedBy(a, ByTime()) && i < |a| && j < |a| && a[i].time == a[j].time
    ensures SortedBy(a[i := a[j]][j := a[i]], ByTime()) && multiset(a[i := a[j]][j := a[i]]) == multiset(a)
  {
    var b := a[i := a[j]][j := a[i]];
    forall k ensures 0 <= k < |a| ==> b[k].time == a[k].time {
    }
    forall k, l | 0 <= k < l < |b| ensures ByTime()(b[k], b[l]) {
      assert ByTime()(a[k], a[l]);
    }
  }

  /** The time order of a set of readings is a single sequence if and only if readings that share a timestamp
      agree: otherwise the sort may leave them either way. */
  lemma TimeOrderExactly(a: seq<Timed>)
    requires SortedBy(a, ByTime())
    ensures Unambiguous(a) <==>
            forall b :: multiset(b) == multiset(a) && SortedBy(b, ByTime()) ==> b == a
  {
    if Unambiguous(a) {
      forall b | multiset(b) == multiset(a) && SortedBy(b, ByTime()) ensures b == a {
        TimeOrderUnique(a, b);
      }
    } else {
      var i, j :| 0 <= i < |a| && 0 <= j < |a| && a[i].time == a[j].time && a[i] != a[j];
      ExchangeTied(a, i, j);
      assert a[i := a[j]][j := a[i]][j] == a[i] != a[j];
    }
  }

  lemma UnambiguousPermutation(a: seq<Timed>, b: seq<Timed>)
    requires multiset(a) == multiset(b)
    ensures Unambiguous(a) <==> Unambiguous(b)
  {
    forall i, j | Unambiguous(a) && 0 <= i < |b| && 0 <= j < |b| && b[i].time == b[j].time ensures b[i] == b[j] {
      assert b[i] in multiset(a) && b[j] in multiset(a);
    }
    forall i, j | Unambiguous(b) && 0 <= i < |a| && 0 <= j < |a| && a[i].time == a[j].time ensures a[i] == a[j] {
      assert a[i] in multiset(b) && a[j] in multiset(b);
    }
  }

  lemma TimeAverageOfPermutation(a: seq<Timed>, b: seq<Timed>)
    requires multiset(a) == multiset(b) && Unambiguous(a)
    ensures Sort(a, ByTime()) == Sort(b, ByTime())
  {
    assert TotalPreorder(ByTime());
    SortSorts(a, ByTime());
    SortSorts(b, ByTime());
    var s := Sort(a, ByTime());
    forall i, j | 0 <= i < |s| && 0 <= j < |s| && s[i].time == s[j].time ensures s[i] == s[j] {
      assert s[i] in multiset(a) && s[j] in multiset(a);
    }
    TimeOrderUnique(s, Sort(b, ByTime()));
  }

  /** Two readings of equal weight at the same instant: whichever is stored last is taken to hold until now. */
  lemma TieOrderMatters(start: nat)
    ensures var a, b := Timed(0, 1, start), Timed(100, 1, start);
      TimeAverage([a, b], start + 10) == 90 && TimeAverage([b, a], start + 10) == 9
  {
    TieAverage(0, 100, start);
    TieAverage(100, 0, start);
  }

  lemma TieAverage(x: int, y: int, start: nat)
    requires 0 <= x <= 100 && 0 <= y <= 100
    ensures TimeAverage([Timed(x, 1, start), Timed(y, 1, start)], start + 10) == TruncDiv(x + 10 * y, 11)
  {
    var a := [Timed(x, 1, start), Timed(y, 1, start)];
    assert a[1..] == [Timed(y, 1, start)] && a[1..][1..] == [];
    assert Holdings(a[1..], start + 10) == [Reading(y, 10)] + Holdings(a[1..][1..], start + 10);
    var held := Holdings(a, start + 10);
    assert held == [Reading(x, 1), Reading(y, 10)];
    assert Map(held, SatProductFn()) == [x] + [10 * y];
    AccumulateAppend(0, [x], [10 * y]);
    assert Map(held, WeightFn()) == [1] + [10];
    AccumulateAppend(0, [1], [10]);
  }
}
