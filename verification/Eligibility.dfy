/** Which stored readings a decision or a report weighs, with what weight, and what it makes of them, in terms of the
    stored fields. */
module Eligibility {
  import opened Arithmetic
  import opened Sequences
  import opened Ledger
  import opened OracleRegistry
  import opened OracleState
  import opened OracleRuns
  import opened OutlierFilter
  import opened FilterReference
  import opened Averages
  import opened TimeWeighting
  import opened Consensus
  import opened ConsensusOrder
  import Median = WeightedMedian

  // ----- Readings that play no part -----

  /** Older than the maximum age of its data type, or the general one. */
  predicate TooOld(s: Store, dt: Symbol, p: DataPoint, now: nat) {
    now - p.timestamp > if dt in s.settings.typeMaxAge then s.settings.typeMaxAge[dt] else s.settings.maxAge
  }

  predicate TooUncertain(s: Store, p: DataPoint) {
    p.confidence < s.settings.minConfidence
  }

  /** Never registered for the data type, or removed. */
  predicate NotServing(s: Store, dt: Symbol, oracle: Address) {
    (dt, oracle) !in s.registry.oracles || !s.registry.oracles[(dt, oracle)].active
  }

  /** Its last submission for the data type is longer ago than the inactivity limit, where one is set. */
  predicate Silent(s: Store, dt: Symbol, oracle: Address, now: nat) {
    && s.settings.inactivityLimit > 0 && (dt, oracle) in s.lastSubmission
    && now - s.lastSubmission[(dt, oracle)] > s.settings.inactivityLimit
  }

  predicate Disregarded(s: Store, dt: Symbol, p: DataPoint, now: nat) {
    TooOld(s, dt, p, now) || TooUncertain(s, p) || NotServing(s, dt, p.oracle) || Silent(s, dt, p.oracle, now)
  }

  function RegardedFn(s: Store, dt: Symbol, now: nat): DataPoint -> bool {
    (p: DataPoint) => !Disregarded(s, dt, p, now)
  }

  /** The readings weighed are exactly the first hundred stored that are not disregarded, in order. */
  lemma EligibleExactly(s: Store, dt: Symbol, points: seq<DataPoint>, now: nat)
    ensures Eligible(s, dt, points, now) == Filter(points[..Min(|points|, 100)], RegardedFn(s, dt, now))
  {
    FilterAgree(points[..Min(|points|, 100)], EligibleFn(s, dt, now), RegardedFn(s, dt, now));
  }

  lemma FilterDrops<T>(a: seq<T>, x: T, b: seq<T>, keep: T -> bool)
    requires !keep(x)
    ensures Filter(a + [x] + b, keep) == Filter(a + b, keep)
  {
    FilterAppend(a + [x], b, keep);
    FilterAppend(a, [x], keep);
    FilterAppend(a, b, keep);
    assert [x][1..] == [];
    assert Filter([x], keep) == [];
  }

  /** A reading too old, too uncertain, of an oracle not serving or silent for too long plays no part: neither what is
      decided nor what is reported changes when it is added, removed or replaced by another such one. */
  lemma DisregardedPlayNoPart(s: Store, dt: Symbol, before: seq<DataPoint>, p: DataPoint, q: DataPoint, after: seq<DataPoint>, now: nat)
    requires Disregarded(s, dt, p, now) && Disregarded(s, dt, q, now) && |before| + 1 + |after| <= 100
    ensures Decide(s, dt, before + [p] + after, now) == Decide(s, dt, before + after, now) == Decide(s, dt, before + [q] + after, now)
    ensures Consistent(s.registry) ==>
              Report(s, dt, before + [p] + after, now) == Report(s, dt, before + after, now) == Report(s, dt, before + [q] + after, now)
  {
    WithoutDisregarded(s, dt, before, p, after, now);
    WithoutDisregarded(s, dt, before, q, after, now);
  }

  lemma WithoutDisregarded(s: Store, dt: Symbol, before: seq<DataPoint>, p: DataPoint, after: seq<DataPoint>, now: nat)
    requires Disregarded(s, dt, p, now) && |before| + 1 + |after| <= 100
    ensures Eligible(s, dt, before + [p] + after, now) == Eligible(s, dt, before + after, now)
  {
    var all, rest := before + [p] + after, before + after;
    assert all[..|all|] == all && rest[..|rest|] == rest;
    EligibleExactly(s, dt, all, now);
    EligibleExactly(s, dt, rest, now);
    FilterDrops(before, p, after, RegardedFn(s, dt, now));
  }

  /** Every other reading among the first hundred is weighed. */
  lemma OthersAreWeighed(s: Store, dt: Symbol, points: seq<DataPoint>, now: nat, i: nat)
    requires i < |points| && i < 100 && !Disregarded(s, dt, points[i], now)
    ensures points[i] in Eligible(s, dt, points, now)
  {
    EligibleExactly(s, dt, points, now);
    assert points[..Min(|points|, 100)][i] == points[i];
  }

  // ----- Weights -----

  /** The registered weight scaled by the score in thousandths, 500 for an oracle never scored, and at least one. */
  function ShareOf(s: Store, dt: Symbol, oracle: Address): int {
    if (dt, oracle) !in s.registry.oracles then 0
    else
      var score := if (dt, oracle) in s.reputation then s.reputation[(dt, oracle)].score else 500;
      var scaled := s.registry.oracles[(dt, oracle)].weight * score / 1_000;
      if scaled >= 1 then scaled else 1
  }

  lemma ShareExactly(s: Store, dt: Symbol, oracle: Address)
    requires (dt, oracle) in s.registry.oracles
    ensures EffectiveWeight(s, oracle, dt) == ShareOf(s, dt, oracle) >= 1
  {
  }

  function WeighedFn(s: Store, dt: Symbol): DataPoint -> Reading {
    (p: DataPoint) => Median.Reading(p.value, if ShareOf(s, dt, p.oracle) >= 0 then ShareOf(s, dt, p.oracle) else 0)
  }

  /** What a decision is taken on: the regarded readings with these weights, and their times. */
  function WeighedOf(s: Store, dt: Symbol, points: seq<DataPoint>, now: nat): seq<Reading> {
    Map(Filter(points[..Min(|points|, 100)], RegardedFn(s, dt, now)), WeighedFn(s, dt))
  }

  function TimesOf(s: Store, dt: Symbol, points: seq<DataPoint>, now: nat): (ts: seq<nat>)
    ensures |ts| == |WeighedOf(s, dt, points, now)|
  {
    Map(Filter(points[..Min(|points|, 100)], RegardedFn(s, dt, now)), TimeFn())
  }

  lemma DecidedOn(s: Store, dt: Symbol, points: seq<DataPoint>, now: nat)
    ensures Map(Eligible(s, dt, points, now), DecidingFn(s, dt)) == WeighedOf(s, dt, points, now)
    ensures Map(Eligible(s, dt, points, now), TimeFn()) == TimesOf(s, dt, points, now)
  {
    EligibleExactly(s, dt, points, now);
    var es := Eligible(s, dt, points, now);
    forall i | 0 <= i < |es| ensures DecidingFn(s, dt)(es[i]) == WeighedFn(s, dt)(es[i]) {
      assert es[i] in es;
      ShareExactly(s, dt, es[i].oracle);
    }
    assert Map(es, DecidingFn(s, dt)) == Map(es, WeighedFn(s, dt));
  }

  // ----- The decision -----

  /** The configured method, by default the weighted median. */
  function MethodOf(s: Store, dt: Symbol): Method {
    if dt in s.settings.methods then s.settings.methods[dt] else WeightedMedian
  }

  /** The configured filter, by default a disabled one. */
  function FilterOf(s: Store, dt: Symbol): OutlierConfig {
    if dt in s.settings.outliers then s.settings.outliers[dt] else OutlierConfig(false, 50_000, 4)
  }

  /** The mask rejects nothing where the filter does not apply, and otherwise the far readings, measured by a centre and
      a MAD that are middles of the values and of the distances. */
  ghost predicate IsRejection(cfg: OutlierConfig, rs: seq<Reading>, drop: seq<bool>)
    requires |rs| == |drop|
  {
    if !IsFiltered(cfg, |rs|) then forall i :: 0 <= i < |rs| ==> !drop[i]
    else exists c, m :: IsMiddle(ValuesOf(rs), c) && IsMiddle(DistancesFrom(rs, c), m) && RejectsFar(cfg, rs, DistancesFrom(rs, c), m, drop)
  }

  lemma RejectionFits(cfg: OutlierConfig, rs: seq<Reading>)
    ensures IsRejection(cfg, rs, Outliers(cfg, rs))
  {
    if rs != [] {
      var c, m := MiddlesExist(rs);
      FilterByCounting(cfg, rs, c, m);
    }
  }

  /** The arrangement by time of these readings. */
  ghost predicate IsArrangement(active: seq<Timed>, rs: seq<Reading>, times: seq<nat>)
    requires |rs| == |times|
  {
    && |active| == |rs| && SortedBy(active, ByTime())
    && multiset(active) == multiset(seq(|rs|, i requires 0 <= i < |rs| => Timed(rs[i].value, rs[i].weight, times[i])))
  }

  /** What each method makes of the readings left. */
  ghost predicate IsResult(how: Method, rs: seq<Reading>, times: seq<nat>, now: nat, value: int)
    requires |rs| == |times| > 0 && SumBy(rs, Median.WeightFn()) > 0
  {
    match how
    case WeightedMedian => Median.IsWeightedMedian(rs, value)
    case WeightedAverage => value == TruncDiv(SumBy(rs, ProductFn()), SumBy(rs, Median.WeightFn()))
    case Mean => value == TruncDiv(SumBy(rs, ValueFn()), |rs|)
    case TimeWeightedAverage =>
      exists active :: IsArrangement(active, rs, times) &&
        (WeightTime(active, now, 0) > 0 && MAX_DATA_VALUE * WeightTime(active, now, 0) <= I128_MAX ==>
           value == TruncDiv(ValueTime(active, now, 0), WeightTime(active, now, 0)))
  }

  lemma AggregateExactly(how: Method, rs: seq<Reading>, times: seq<nat>, now: nat)
    requires |rs| == |times| > 0 && Bounded(rs) && Median.Positive(rs)
    ensures SumBy(rs, Median.WeightFn()) > 0
    ensures IsResult(how, rs, times, now, Aggregate(how, rs, times, now))
  {
    Median.SortedReadings(rs);
    match how
    case WeightedMedian =>
    case TimeWeightedAverage =>
      var active := TimeWeightedExactly(rs, times, now, MAX_DATA_VALUE);
      assert IsArrangement(active, rs, times);
      assert MAX_DATA_VALUE * WeightTime(active, now, 0) <= I128_MAX ==> WeightTime(active, now, 0) <= I128_MAX;
    case _ => AveragesExact(rs, -MAX_DATA_VALUE, MAX_DATA_VALUE);
  }

  /** What comes of these readings: nothing when too few are left after rejection, and otherwise what the method makes
      of those left. */
  ghost predicate IsOutcome(s: Store, dt: Symbol, rs: seq<Reading>, times: seq<nat>, now: nat, drop: seq<bool>, outcome: Option<int>)
    requires |rs| == |times|
  {
    && |drop| == |rs| && IsRejection(FilterOf(s, dt), rs, drop)
    && |Keep(rs, drop)| == |Keep(times, drop)|
    && (outcome.None? <==> |Keep(rs, drop)| == 0 || |Keep(rs, drop)| < s.settings.minOracleCount)
    && (outcome.Some? ==>
          && SumBy(Keep(rs, drop), Median.WeightFn()) > 0
          && IsResult(MethodOf(s, dt), Keep(rs, drop), Keep(times, drop), now, outcome.value))
  }

  lemma SettleExactly(s: Store, dt: Symbol, rs: seq<Reading>, times: seq<nat>, now: nat) returns (drop: seq<bool>)
    requires |rs| == |times| && Bounded(rs) && Median.Positive(rs)
    ensures IsOutcome(s, dt, rs, times, now, drop, Settle(s, dt, rs, times, now))
  {
    drop := Outliers(FilterOf(s, dt), rs);
    RejectionFits(FilterOf(s, dt), rs);
    KeptPositive(rs, drop);
    KeptBounded(rs, drop);
    KeepSameLength(rs, times, drop);
    GuardedFits(FilterOf(s, dt), MethodOf(s, dt), rs, drop);
    if Keep(rs, drop) != [] {
      AggregateExactly(MethodOf(s, dt), Keep(rs, drop), Keep(times, drop), now);
    }
  }

  /** A decision over readings in the range of single submissions, in terms of what is stored. */
  lemma DecisionExactly(s: Store, dt: Symbol, points: seq<DataPoint>, now: nat) returns (drop: seq<bool>)
    requires Sound(s) && Guarded(points)
    ensures IsOutcome(s, dt, WeighedOf(s, dt, points, now), TimesOf(s, dt, points, now), now, drop, Decide(s, dt, points, now))
  {
    DecidedOn(s, dt, points, now);
    DecidingPositive(s, dt, points, now);
    DecidingBounded(s, dt, points, now);
    drop := SettleExactly(s, dt, WeighedOf(s, dt, points, now), TimesOf(s, dt, points, now), now);
  }

  // ----- The report -----

  function RegisteredFn(s: Store, dt: Symbol): DataPoint -> Reading {
    (p: DataPoint) => Median.Reading(p.value, if (dt, p.oracle) in s.registry.oracles then s.registry.oracles[(dt, p.oracle)].weight else 0)
  }

  function RegisteredOf(s: Store, dt: Symbol, points: seq<DataPoint>, now: nat): (rs: seq<Reading>)
    ensures |rs| == |TimesOf(s, dt, points, now)|
  {
    Map(Filter(points[..Min(|points|, 100)], RegardedFn(s, dt, now)), RegisteredFn(s, dt))
  }

  lemma ReportedOn(s: Store, dt: Symbol, points: seq<DataPoint>, now: nat)
    ensures Map(Eligible(s, dt, points, now), ReportingFn(s, dt)) == RegisteredOf(s, dt, points, now)
    ensures Map(Eligible(s, dt, points, now), TimeFn()) == TimesOf(s, dt, points, now)
  {
    EligibleExactly(s, dt, points, now);
    var es := Eligible(s, dt, points, now);
    assert Map(es, ReportingFn(s, dt)) == Map(es, RegisteredFn(s, dt));
  }

  lemma ReportingBounded(s: Store, dt: Symbol, points: seq<DataPoint>, now: nat)
    requires Sound(s) && Guarded(points)
    ensures Bounded(Map(Eligible(s, dt, points, now), ReportingFn(s, dt)))
  {
    var es := Eligible(s, dt, points, now);
    forall i | 0 <= i < |es|
      ensures Abs(es[i].value) <= MAX_DATA_VALUE && 1 <= ReportingFn(s, dt)(es[i]).weight <= MAX_WEIGHT
    {
      assert es[i] in es;
      assert es[i] in points;
    }
  }

  /** A report is the same of the registered weights, whatever the reputations. */
  lemma ReportExactly(s: Store, dt: Symbol, points: seq<DataPoint>, now: nat) returns (drop: seq<bool>)
    requires Sound(s) && Guarded(points)
    ensures IsOutcome(s, dt, RegisteredOf(s, dt, points, now), TimesOf(s, dt, points, now), now, drop, Report(s, dt, points, now))
  {
    ReportedOn(s, dt, points, now);
    ReportingPositive(s, dt, points, now);
    ReportingBounded(s, dt, points, now);
    drop := SettleExactly(s, dt, RegisteredOf(s, dt, points, now), TimesOf(s, dt, points, now), now);
  }
}
