/** Whether the value that is reported is the value that decides: the report weighs readings by registered weight,
    the decision by reputation as well. */
module Reporting {
  import opened Arithmetic
  import opened Sequences
  import opened Ledger
  import opened OracleRegistry
  import opened OracleState
  import opened OracleRuns
  import opened OutlierFilter
  import opened Averages
  import opened Consensus
  import opened ConsensusOrder
  import Vaults = OracleVault
  import Median = WeightedMedian

  /** With full reputation everywhere, what is reported is what decides, by every method. */
  lemma ReportEqualsDecision(s: Store, dt: Symbol, points: seq<DataPoint>, now: nat)
    requires Sound(s)
    requires forall p :: p in Eligible(s, dt, points, now) ==> ReputationOf(s, p.oracle, dt).score == FULL_SCORE
    ensures Report(s, dt, points, now) == Decide(s, dt, points, now)
  {
    var es := Eligible(s, dt, points, now);
    forall i | 0 <= i < |es| ensures DecidingFn(s, dt)(es[i]) == ReportingFn(s, dt)(es[i]) {
      assert es[i] in es;
      EffectiveWeightBounded(s, es[i].oracle, dt);
    }
    assert Map(es, DecidingFn(s, dt)) == Map(es, ReportingFn(s, dt));
  }

  /** For the unweighted mean they agree whatever the reputations, outlier rejection included, as long as the order
      of the surviving values cannot change their mean; for guarded values it cannot. */
  lemma MeanReportEqualsDecision(s: Store, dt: Symbol, points: seq<DataPoint>, now: nat)
    requires Sound(s) && MethodFor(s, dt) == Mean
    requires Guarded(points) || OrderSafe(s, dt, points, now)
    ensures Report(s, dt, points, now) == Decide(s, dt, points, now)
  {
    if Guarded(points) {
      GuardedIsOrderSafe(s, dt, points, now);
    }
    var es := Eligible(s, dt, points, now);
    var ds, rs, ts := Map(es, DecidingFn(s, dt)), Map(es, ReportingFn(s, dt)), Map(es, TimeFn());
    DecidingPositive(s, dt, points, now);
    ReportingPositive(s, dt, points, now);
    TimedParts(s, dt, points, now);
    KeptIsPositive(s, dt, points, now);
    assert Map(ds, ValueFn()) == Map(rs, ValueFn());
    SameMeans(s, dt, ds, rs, ts, now);
  }

  lemma SameMeans(s: Store, dt: Symbol, ds: seq<Reading>, rs: seq<Reading>, ts: seq<nat>, now: nat)
    requires Median.Positive(ds) && Median.Positive(rs) && |ds| == |rs| == |ts| && Map(ds, ValueFn()) == Map(rs, ValueFn())
    requires MethodFor(s, dt) == Mean
    requires var dk := Keep(ds, Outliers(OutliersFor(s, dt), ds)); dk != [] ==> SteadyQuotient(Map(dk, ValueFn()), |dk|)
    ensures Settle(s, dt, ds, ts, now) == Settle(s, dt, rs, ts, now)
  {
    var cfg := OutliersFor(s, dt);
    FitsByValues(cfg, ds, rs);
    SurvivingValues(cfg, ds, rs);
    var dk, rk := Keep(ds, Outliers(cfg, ds)), Keep(rs, Outliers(cfg, rs));
    assert |dk| == |multiset(Map(dk, ValueFn()))| == |multiset(Map(rk, ValueFn()))| == |rk|;
    KeptPositive(ds, Outliers(cfg, ds));
    KeptPositive(rs, Outliers(cfg, rs));
    KeepSameLength(ds, ts, Outliers(cfg, ds));
    KeepSameLength(rs, ts, Outliers(cfg, rs));
    if dk != [] {
      SteadyTotal(Map(dk, ValueFn()), Map(dk, ValueFn()), |dk|);
      SteadyTotal(Map(dk, ValueFn()), Map(rk, ValueFn()), |dk|);
    }
  }

  // ----- Two weightings of the same oracles -----

  type Mask = seq<bool>

  function Weigh(values: seq<int>, weights: seq<nat>): (rs: seq<Reading>)
    requires |values| == |weights|
    ensures |rs| == |values| && forall i :: 0 <= i < |rs| ==> rs[i] == Median.Reading(values[i], weights[i])
  {
    seq(|values|, i requires 0 <= i < |values| => Median.Reading(values[i], weights[i]))
  }

  /** The weight of a set of oracles. */
  function MaskWeight(weights: seq<nat>, mask: Mask): nat
    requires |weights| == |mask|
  {
    if weights == [] then 0 else (if mask[0] then weights[0] else 0) + MaskWeight(weights[1..], mask[1..])
  }

  function Everyone(weights: seq<nat>): nat {
    if weights == [] then 0 else weights[0] + Everyone(weights[1..])
  }

  function Sign(x: int): int {
    if x > 0 then 1 else if x < 0 then -1 else 0
  }

  /** Less than, exactly, or more than half of the weight. */
  function Majority(weights: seq<nat>, mask: Mask): int
    requires |weights| == |mask|
  {
    Sign(2 * MaskWeight(weights, mask) - Everyone(weights))
  }

  /** The same sets of oracles have a majority, and the same split in half. */
  ghost predicate SameMajorities(w: seq<nat>, e: seq<nat>)
    requires |w| == |e|
  {
    forall mask: Mask :: |mask| == |w| ==> Majority(w, mask) == Majority(e, mask)
  }

  ghost predicate AllPositive(weights: seq<nat>) {
    forall i :: 0 <= i < |weights| ==> weights[i] >= 1
  }

  /** Both weightings have the same median, whatever is reported. */
  ghost predicate SameMedians(w: seq<nat>, e: seq<nat>)
    requires |w| == |e| > 0 && AllPositive(w) && AllPositive(e)
  {
    forall values: seq<int> :: |values| == |w| ==> MedianOf(Weigh(values, w)) == MedianOf(Weigh(values, e))
  }

  function Below(values: seq<int>, v: int): Mask {
    seq(|values|, i requires 0 <= i < |values| => values[i] < v)
  }

  lemma {:induction false} BelowWeight(values: seq<int>, weights: seq<nat>, v: int)
    requires |values| == |weights|
    ensures Median.WeightBelow(Weigh(values, weights), v) == MaskWeight(weights, Below(values, v))
    ensures Median.TotalWeight(Weigh(values, weights)) == Everyone(weights)
  {
    if values != [] {
      BelowWeight(values[1..], weights[1..], v);
      assert Weigh(values, weights)[1..] == Weigh(values[1..], weights[1..]);
      assert Below(values, v)[1..] == Below(values[1..], v);
    }
  }

  /** The medians are determined by the majorities. */
  lemma MedianTransfers(values: seq<int>, w: seq<nat>, e: seq<nat>)
    requires |values| == |w| == |e| > 0 && AllPositive(w) && AllPositive(e) && SameMajorities(w, e)
    ensures MedianOf(Weigh(values, w)) == MedianOf(Weigh(values, e))
  {
    var rs, qs := Weigh(values, w), Weigh(values, e);
    var r := MedianOf(rs);
    assert Median.IsWeightedMedian(rs, r);
    var lo, hi :| Median.IsLowerMedian(rs, lo) && Median.IsUpperMedian(rs, hi) && r == TruncDiv(lo + hi, 2);
    SameSides(values, w, e, lo);
    SameSides(values, w, e, lo + 1);
    SameSides(values, w, e, hi);
    SameSides(values, w, e, hi + 1);
    assert Median.IsLowerMedian(qs, lo) && Median.IsUpperMedian(qs, hi);
    Median.WeightedMedianUnique(qs, MedianOf(qs), MedianOf(rs));
  }

  lemma SameSides(values: seq<int>, w: seq<nat>, e: seq<nat>, v: int)
    requires |values| == |w| == |e| && SameMajorities(w, e)
    ensures var rs, qs := Weigh(values, w), Weigh(values, e);
      && (2 * Median.WeightBelow(rs, v) < Median.TotalWeight(rs) <==> 2 * Median.WeightBelow(qs, v) < Median.TotalWeight(qs))
      && (2 * Median.WeightBelow(rs, v) <= Median.TotalWeight(rs) <==> 2 * Median.WeightBelow(qs, v) <= Median.TotalWeight(qs))
  {
    BelowWeight(values, w, v);
    BelowWeight(values, e, v);
    assert Majority(w, Below(values, v)) == Majority(e, Below(values, v));
  }

  /** Zero from a set of oracles, two from the others. */
  function Split(mask: Mask): seq<int> {
    seq(|mask|, i requires 0 <= i < |mask| => if mask[i] then 0 else 2)
  }

  /** Then the median says which side is heavier. */
  lemma SplitMedian(weights: seq<nat>, mask: Mask)
    requires |weights| == |mask| > 0 && AllPositive(weights)
    ensures MedianOf(Weigh(Split(mask), weights)) == 1 - Majority(weights, mask)
  {
    var values := Split(mask);
    var rs := Weigh(values, weights);
    assert Below(values, 1) == mask && Below(values, 2) == mask;
    BelowWeight(values, weights, 1);
    BelowWeight(values, weights, 2);
    Median.NoneBelow(rs, 0);
    Median.AllBelow(rs, 3);
    Median.SortedReadings(rs);
    var lo := if Majority(weights, mask) >= 0 then 0 else 2;
    var hi := if Majority(weights, mask) > 0 then 0 else 2;
    assert Median.IsLowerMedian(rs, lo) && Median.IsUpperMedian(rs, hi);
    assert Median.IsWeightedMedian(rs, TruncDiv(lo + hi, 2));
    Median.WeightedMedianUnique(rs, MedianOf(rs), TruncDiv(lo + hi, 2));
  }

  /** Two weightings have the same median for every set of reports if and only if they give the same sets of oracles
      a majority, and split in half for the same sets. */
  lemma SameMediansExactly(w: seq<nat>, e: seq<nat>)
    requires |w| == |e| > 0 && AllPositive(w) && AllPositive(e)
    ensures SameMedians(w, e) <==> SameMajorities(w, e)
  {
    if SameMajorities(w, e) {
      forall values: seq<int> | |values| == |w| ensures MedianOf(Weigh(values, w)) == MedianOf(Weigh(values, e)) {
        MedianTransfers(values, w, e);
      }
    } else {
      var mask: Mask :| |mask| == |w| && Majority(w, mask) != Majority(e, mask);
      SplitMedian(w, mask);
      SplitMedian(e, mask);
      assert MedianOf(Weigh(Split(mask), w)) != MedianOf(Weigh(Split(mask), e));
    }
  }

  // ----- The eligible oracles -----

  /** The same points but for the values. */
  ghost predicate SameOracles(es: seq<DataPoint>, ps: seq<DataPoint>) {
    |ps| == |es| && forall i :: 0 <= i < |es| ==> ps[i] == es[i].(value := ps[i].value)
  }

  function WithValues(es: seq<DataPoint>, values: seq<int>): (ps: seq<DataPoint>)
    requires |es| == |values|
    ensures |ps| == |es|
  {
    seq(|es|, i requires 0 <= i < |es| => es[i].(value := values[i]))
  }

  function ValuesOf(ps: seq<DataPoint>): (values: seq<int>)
    ensures |values| == |ps|
  {
    seq(|ps|, i requires 0 <= i < |ps| => ps[i].value)
  }

  function WeightsOf(rs: seq<Reading>): (weights: seq<nat>)
    ensures |weights| == |rs|
  {
    seq(|rs|, i requires 0 <= i < |rs| => rs[i].weight)
  }

  /** Registered weights, and what reputation leaves of them. */
  function Registered(s: Store, dt: Symbol, es: seq<DataPoint>): (weights: seq<nat>)
    ensures |weights| == |es|
  {
    WeightsOf(Map(es, ReportingFn(s, dt)))
  }

  function Effective(s: Store, dt: Symbol, es: seq<DataPoint>): (weights: seq<nat>)
    ensures |weights| == |es|
  {
    WeightsOf(Map(es, DecidingFn(s, dt)))
  }

  ghost predicate AllEligible(s: Store, dt: Symbol, es: seq<DataPoint>, now: nat) {
    |es| <= MAX_DATA_POINTS && forall i :: 0 <= i < |es| ==> IsEligible(s, dt, es[i], now)
  }

  /** Reported and decided value agree, whatever values these oracles report, in the range that single submissions
      are held to. */
  ghost predicate ReportAgrees(s: Store, dt: Symbol, es: seq<DataPoint>, now: nat)
    requires Consistent(s.registry)
  {
    forall ps :: SameOracles(es, ps) && Guarded(ps) ==> Report(s, dt, ps, now) == Decide(s, dt, ps, now)
  }

  lemma StillEligible(s: Store, dt: Symbol, es: seq<DataPoint>, ps: seq<DataPoint>, now: nat)
    requires AllEligible(s, dt, es, now) && SameOracles(es, ps)
    ensures Eligible(s, dt, ps, now) == ps
    ensures Map(ps, DecidingFn(s, dt)) == Weigh(ValuesOf(ps), Effective(s, dt, es))
    ensures Map(ps, ReportingFn(s, dt)) == Weigh(ValuesOf(ps), Registered(s, dt, es))
  {
    assert ps[..|ps|] == ps;
    FilterAll(ps, EligibleFn(s, dt, now));
  }

  lemma PositiveWeights(s: Store, dt: Symbol, es: seq<DataPoint>, now: nat)
    requires Consistent(s.registry) && AllEligible(s, dt, es, now)
    ensures AllPositive(Registered(s, dt, es)) && AllPositive(Effective(s, dt, es))
  {
    StillEligible(s, dt, es, es, now);
    DecidingPositive(s, dt, es, now);
    ReportingPositive(s, dt, es, now);
    var ds, rs := Map(es, DecidingFn(s, dt)), Map(es, ReportingFn(s, dt));
    assert forall i :: 0 <= i < |es| ==> Effective(s, dt, es)[i] == ds[i].weight && Registered(s, dt, es)[i] == rs[i].weight;
  }

  /** Without the filter and by the default method both paths are the median of the same values. */
  lemma BothMedians(s: Store, dt: Symbol, es: seq<DataPoint>, ps: seq<DataPoint>, now: nat)
    requires Consistent(s.registry) && MethodFor(s, dt) == WeightedMedian && !OutliersFor(s, dt).enabled
    requires es != [] && AllEligible(s, dt, es, now) && SameOracles(es, ps) && Guarded(ps)
    requires AllPositive(Registered(s, dt, es)) && AllPositive(Effective(s, dt, es))
    ensures |es| < s.settings.minOracleCount ==> Report(s, dt, ps, now) == Decide(s, dt, ps, now) == None
    ensures |es| >= s.settings.minOracleCount ==>
              && Report(s, dt, ps, now) == Some(MedianOf(Weigh(ValuesOf(ps), Registered(s, dt, es))))
              && Decide(s, dt, ps, now) == Some(MedianOf(Weigh(ValuesOf(ps), Effective(s, dt, es))))
  {
    StillEligible(s, dt, es, ps, now);
    NothingFiltered(OutliersFor(s, dt), Map(ps, DecidingFn(s, dt)));
    NothingFiltered(OutliersFor(s, dt), Map(ps, ReportingFn(s, dt)));
  }

  lemma NothingFiltered(cfg: OutlierConfig, rs: seq<Reading>)
    requires !Applies(cfg, |rs|) && forall i :: 0 <= i < |rs| ==> Abs(rs[i].value) <= MAX_DATA_VALUE
    ensures Keep(rs, Outliers(cfg, rs)) == rs && FilterFits(cfg, rs) && AggregateFits(WeightedMedian, rs)
  {
    KeepNone(rs, Outliers(cfg, rs));
    GuardedFits(cfg, WeightedMedian, rs, Outliers(cfg, rs));
  }

  lemma SameMajoritiesAgree(s: Store, dt: Symbol, es: seq<DataPoint>, now: nat)
    requires Consistent(s.registry) && MethodFor(s, dt) == WeightedMedian && !OutliersFor(s, dt).enabled
    requires es != [] && AllEligible(s, dt, es, now)
    requires AllPositive(Registered(s, dt, es)) && AllPositive(Effective(s, dt, es))
    requires |es| < s.settings.minOracleCount || SameMedians(Registered(s, dt, es), Effective(s, dt, es))
    ensures ReportAgrees(s, dt, es, now)
  {
    forall ps | SameOracles(es, ps) && Guarded(ps) ensures Report(s, dt, ps, now) == Decide(s, dt, ps, now) {
      BothMedians(s, dt, es, ps, now);
    }
  }

  lemma OtherMediansDisagree(s: Store, dt: Symbol, es: seq<DataPoint>, values: seq<int>, now: nat)
    requires Consistent(s.registry) && MethodFor(s, dt) == WeightedMedian && !OutliersFor(s, dt).enabled
    requires es != [] && AllEligible(s, dt, es, now) && |es| >= s.settings.minOracleCount && |values| == |es|
    requires forall i :: 0 <= i < |values| ==> Abs(values[i]) <= MAX_DATA_VALUE
    requires AllPositive(Registered(s, dt, es)) && AllPositive(Effective(s, dt, es))
    requires MedianOf(Weigh(values, Registered(s, dt, es))) != MedianOf(Weigh(values, Effective(s, dt, es)))
    ensures !ReportAgrees(s, dt, es, now)
  {
    var ps := WithValues(es, values);
    assert ValuesOf(ps) == values && SameOracles(es, ps);
    BothMedians(s, dt, es, ps, now);
  }

  lemma OtherMajorityDisagrees(s: Store, dt: Symbol, es: seq<DataPoint>, mask: Mask, now: nat)
    requires Consistent(s.registry) && MethodFor(s, dt) == WeightedMedian && !OutliersFor(s, dt).enabled
    requires es != [] && AllEligible(s, dt, es, now) && |es| >= s.settings.minOracleCount && |mask| == |es|
    requires AllPositive(Registered(s, dt, es)) && AllPositive(Effective(s, dt, es))
    requires Majority(Registered(s, dt, es), mask) != Majority(Effective(s, dt, es), mask)
    ensures !ReportAgrees(s, dt, es, now)
  {
    SplitMedian(Registered(s, dt, es), mask);
    SplitMedian(Effective(s, dt, es), mask);
    OtherMediansDisagree(s, dt, es, Split(mask), now);
  }

  /** By the default method, reported and decided value agree for all values that the eligible oracles may report if
      and only if registered and effective weights give the same sets of oracles a majority (or there are too few
      oracles for any value). */
  lemma ReportAgreesExactly(s: Store, dt: Symbol, es: seq<DataPoint>, now: nat)
    requires Consistent(s.registry) && MethodFor(s, dt) == WeightedMedian && !OutliersFor(s, dt).enabled
    requires es != [] && AllEligible(s, dt, es, now)
    ensures ReportAgrees(s, dt, es, now) <==>
            |es| < s.settings.minOracleCount || SameMajorities(Registered(s, dt, es), Effective(s, dt, es))
  {
    var w, e := Registered(s, dt, es), Effective(s, dt, es);
    PositiveWeights(s, dt, es, now);
    if |es| < s.settings.minOracleCount {
      SameMajoritiesAgree(s, dt, es, now);
    } else if SameMajorities(w, e) {
      SameMediansExactly(w, e);
      SameMajoritiesAgree(s, dt, es, now);
    } else {
      var mask: Mask :| |mask| == |w| && Majority(w, mask) != Majority(e, mask);
      OtherMajorityDisagrees(s, dt, es, mask, now);
    }
  }

  // ----- A run in which they disagree -----

  lemma TwoReadingMedian(light: int, heavy: int, a: nat, b: nat)
    requires 0 < a < b && light != heavy
    ensures var rs := [Median.Reading(light, a), Median.Reading(heavy, b)];
      Median.Positive(rs) && MedianOf(rs) == heavy
    ensures var rs := [Median.Reading(heavy, b), Median.Reading(light, a)];
      Median.Positive(rs) && MedianOf(rs) == heavy
  {
    var x, y := Median.Reading(light, a), Median.Reading(heavy, b);
    TwoHeavier([x, y], heavy);
    TwoHeavier([y, x], heavy);
  }

  lemma SumOfTwo(rs: seq<Reading>, f: Reading -> int)
    requires |rs| == 2
    ensures SumBy(rs, f) == f(rs[0]) + f(rs[1])
  {
    assert rs == [rs[0]] + [rs[1]];
    SumByAppend([rs[0]], [rs[1]], f);
  }

  lemma TwoHeavier(rs: seq<Reading>, v: int)
    requires |rs| == 2 && Median.Positive(rs) && rs[0].value != rs[1].value
    requires (rs[0].value == v && rs[0].weight > rs[1].weight) || (rs[1].value == v && rs[1].weight > rs[0].weight)
    ensures MedianOf(rs) == v
  {
    SumOfTwo(rs, Median.WeightFn());
    SumOfTwo(rs, Median.BelowFn(v));
    SumOfTwo(rs, Median.BelowFn(v + 1));
    Median.MajorityPinsMedian(rs, MedianOf(rs), v, v);
  }

  lemma TwoEligible(s: Store, dt: Symbol, p: DataPoint, q: DataPoint, now: nat)
    requires IsEligible(s, dt, p, now) && IsEligible(s, dt, q, now)
    ensures Eligible(s, dt, [p, q], now) == [p, q]
  {
    assert [p, q][..2] == [p, q] == [p] + [q];
    FilterSnoc([p], q, EligibleFn(s, dt, now));
  }

  lemma TwoWeights(s: Store, dt: Symbol, p: DataPoint, q: DataPoint)
    requires Sound(s) && (dt, p.oracle) in s.registry.oracles && (dt, q.oracle) in s.registry.oracles
    requires s.registry.oracles[(dt, p.oracle)].weight == 2 && ReputationOf(s, p.oracle, dt).score == FULL_SCORE
    requires s.registry.oracles[(dt, q.oracle)].weight == 3 && ReputationOf(s, q.oracle, dt).score == 0
    ensures Map([p, q], DecidingFn(s, dt)) == [Median.Reading(p.value, 2), Median.Reading(q.value, 1)]
    ensures Map([p, q], ReportingFn(s, dt)) == [Median.Reading(p.value, 2), Median.Reading(q.value, 3)]
  {
    EffectiveWeightBounded(s, p.oracle, dt);
  }

  /** For instance two fresh readings whose heavier oracle has lost its reputation are
      reported at the heavier oracle's value and decided at the other's. */
  lemma ReportCanDisagree(s: Store, dt: Symbol, p: DataPoint, q: DataPoint, now: nat)
    requires Sound(s) && MethodFor(s, dt) == WeightedMedian && s.settings.minOracleCount <= 2
    requires IsEligible(s, dt, p, now) && IsEligible(s, dt, q, now) && p.value != q.value && Guarded([p, q])
    requires s.registry.oracles[(dt, p.oracle)].weight == 2 && ReputationOf(s, p.oracle, dt).score == FULL_SCORE
    requires s.registry.oracles[(dt, q.oracle)].weight == 3 && ReputationOf(s, q.oracle, dt).score == 0
    ensures Decide(s, dt, [p, q], now) == Some(p.value)
    ensures Report(s, dt, [p, q], now) == Some(q.value)
  {
    TwoEligible(s, dt, p, q, now);
    DecidingPositive(s, dt, [p, q], now);
    ReportingPositive(s, dt, [p, q], now);
    TwoWeights(s, dt, p, q);
    NothingFiltered(OutliersFor(s, dt), Map([p, q], DecidingFn(s, dt)));
    NothingFiltered(OutliersFor(s, dt), Map([p, q], ReportingFn(s, dt)));
    TwoReadingMedian(q.value, p.value, 1, 2);
    TwoReadingMedian(p.value, q.value, 2, 3);
  }

  const OPEN_SETTINGS := Settings(1_000, map[], 0, 1, 0, map[], map[], 0, 0, 0, 0, 1_000, None, 0, 0, 0, map[])

  /** Oracle 1 has weight 2 and full reputation, oracle 2 weight 3 and none. */
  function Disagreement(): seq<Op> {
    [OpAddOracle(1, 0, 2), OpAddOracle(2, 0, 3), OpSetReputation(1, 0, FULL_SCORE), OpSetReputation(2, 0, 0),
     OpSubmit(0, 5, DataPoint(1, 10, 50, 100), 100, true), OpSubmit(0, 5, DataPoint(2, 20, 50, 100), 100, true)]
  }

  lemma RunSix(s: Store, a: Op, b: Op, c: Op, d: Op, e: Op, f: Op)
    ensures Run(s, [a, b, c, d, e, f]) == Step(Step(Step(Step(Step(Step(s, a), b), c), d), e), f)
  {
    assert [a] == [] + [a] && [a, b] == [a] + [b] && [a, b, c] == [a, b] + [c] && [a, b, c, d] == [a, b, c] + [d];
    assert [a, b, c, d, e] == [a, b, c, d] + [e] && [a, b, c, d, e, f] == [a, b, c, d, e] + [f];
    RunSnoc(s, [], a);
    RunSnoc(s, [a], b);
    RunSnoc(s, [a, b], c);
    RunSnoc(s, [a, b, c], d);
    RunSnoc(s, [a, b, c, d], e);
    RunSnoc(s, [a, b, c, d, e], f);
  }

  lemma TwoAdded(d: Store)
    requires d == Deployed(OPEN_SETTINGS, map[])
    ensures var s := Step(Step(d, OpAddOracle(1, 0, 2)), OpAddOracle(2, 0, 3));
      && s == d.(registry := s.registry)
      && s.registry.oracles == map[(0, 1) := OracleEntry(2, true), (0, 2) := OracleEntry(3, true)]
  {
    var a := Step(d, OpAddOracle(1, 0, 2));
    assert AddOracle(d, 1, 0, 2).Some?;
    assert a == d.(registry := a.registry) && a.registry.oracles == map[(0, 1) := OracleEntry(2, true)];
    assert a.registry.globalOracles == {1} && |ListOf(a.registry, 0)| == 1;
    assert AddOracle(a, 2, 0, 3).Some?;
  }

  lemma TwoScored(s: Store)
    requires s.reputation == map[]
    ensures var t := Step(Step(s, OpSetReputation(1, 0, FULL_SCORE)), OpSetReputation(2, 0, 0));
      && t == s.(reputation := t.reputation)
      && t.reputation == map[(0, 1) := Reputation(0, 0, FULL_SCORE), (0, 2) := Reputation(0, 0, 0)]
  {
    var a := Step(s, OpSetReputation(1, 0, FULL_SCORE));
    assert a == s.(reputation := map[(0, 1) := Reputation(0, 0, FULL_SCORE)]);
  }

  /** An accepted submission under open settings. */
  lemma OpenSubmit(s: Store, p: DataPoint)
    requires s.settings == OPEN_SETTINGS && IsActive(s.registry, 0, p.oracle) && (0, 5, p.oracle) !in s.lastReading
    requires 0 <= p.value <= 20 && p.confidence == 50 && p.timestamp == 100
    requires forall q :: q in PointsOf(s, 0, 5) ==> q.oracle != p.oracle && q.timestamp == 100 && IsActive(s.registry, 0, q.oracle)
    requires |PointsOf(s, 0, 5)| <= 1
    ensures var t := Step(s, OpSubmit(0, 5, p, 100, true));
      && t.settings == s.settings && t.registry == s.registry && t.reputation == s.reputation
      && PointsOf(t, 0, 5) == PointsOf(s, 0, 5) + [p] && t.lastReading == s.lastReading[(0, 5, p.oracle) := 100]
  {
    FilterAll(PointsOf(s, 0, 5), RetainFn(s, 0, p.oracle, 100));
    var limited := RateLimited(s, p.oracle, 0, 100).value;
    SameRetained(s, limited, 0, 5, p.oracle, 100);
    assert SubmitData(s, 0, 5, p, 100, true).Some?;
  }

  lemma DisagreementState(s: Store)
    requires s == Run(Deployed(OPEN_SETTINGS, map[]), Disagreement())
    ensures s.settings == OPEN_SETTINGS && PointsOf(s, 0, 5) == [DataPoint(1, 10, 50, 100), DataPoint(2, 20, 50, 100)]
    ensures s.registry.oracles == map[(0, 1) := OracleEntry(2, true), (0, 2) := OracleEntry(3, true)]
    ensures s.reputation == map[(0, 1) := Reputation(0, 0, FULL_SCORE), (0, 2) := Reputation(0, 0, 0)]
  {
    var d, p, q := Deployed(OPEN_SETTINGS, map[]), DataPoint(1, 10, 50, 100), DataPoint(2, 20, 50, 100);
    RunSix(d, OpAddOracle(1, 0, 2), OpAddOracle(2, 0, 3), OpSetReputation(1, 0, FULL_SCORE), OpSetReputation(2, 0, 0),
           OpSubmit(0, 5, p, 100, true), OpSubmit(0, 5, q, 100, true));
    TwoAdded(d);
    var added := Step(Step(d, OpAddOracle(1, 0, 2)), OpAddOracle(2, 0, 3));
    TwoScored(added);
    var scored := Step(Step(added, OpSetReputation(1, 0, FULL_SCORE)), OpSetReputation(2, 0, 0));
    OpenSubmit(scored, p);
    var first := Step(scored, OpSubmit(0, 5, p, 100, true));
    assert PointsOf(first, 0, 5) == [p];
    OpenSubmit(first, q);
  }

  /** Six calls from deployment: 20 is reported, 10 decides. */
  lemma DisagreementReached()
    ensures forall i :: 0 <= i < |Disagreement()| ==> FromOutside(Disagreement()[i])
    ensures var s := Run(Deployed(OPEN_SETTINGS, map[]), Disagreement());
      && Consistent(s.registry)
      && Decide(s, 0, PointsOf(s, 0, 5), 100) == Some(10) && Report(s, 0, PointsOf(s, 0, 5), 100) == Some(20)
  {
    var s := Run(Deployed(OPEN_SETTINGS, map[]), Disagreement());
    ReachableSound(OPEN_SETTINGS, map[], Disagreement());
    DisagreementState(s);
    ReportCanDisagree(s, 0, DataPoint(1, 10, 50, 100), DataPoint(2, 20, 50, 100), 100);
  }
}
