/** From stored readings to the consensus value: the deciding path behind every payout and the reporting
    path behind `get_aggregated`. */
module Consensus {
  import opened Arithmetic
  import opened Sequences
  import opened Ledger
  import opened OracleRegistry
  import opened OracleState
  import opened OracleRuns
  import opened OutlierFilter
  import opened Averages
  import opened TimeWeighting
  import Median = WeightedMedian

  type Reading = Median.Reading

  const DEFAULT_OUTLIERS := OutlierConfig(false, 50_000, 4)

  function MethodFor(s: Store, dt: Symbol): Method {
    Get(s.settings.methods, dt, WeightedMedian)
  }

  function OutliersFor(s: Store, dt: Symbol): OutlierConfig {
    Get(s.settings.outliers, dt, DEFAULT_OUTLIERS)
  }

  predicate Offline(s: Store, dt: Symbol, oracle: Address, now: nat) {
    && s.settings.inactivityLimit != 0
    && (dt, oracle) in s.lastSubmission
    && SatSubU64(now, s.lastSubmission[(dt, oracle)]) > s.settings.inactivityLimit
  }

  predicate IsEligible(s: Store, dt: Symbol, p: DataPoint, now: nat) {
    && SatSubU64(now, p.timestamp) <= EffectiveMaxAge(s, dt)
    && p.confidence >= s.settings.minConfidence
    && IsActive(s.registry, dt, p.oracle)
    && !Offline(s, dt, p.oracle, now)
  }

  function EligibleFn(s: Store, dt: Symbol, now: nat): DataPoint -> bool {
    (p: DataPoint) => IsEligible(s, dt, p, now)
  }

  /** The eligible readings among the first MAX_DATA_POINTS stored. */
  function Eligible(s: Store, dt: Symbol, points: seq<DataPoint>, now: nat): seq<DataPoint> {
    Filter(points[..Min(|points|, MAX_DATA_POINTS)], EligibleFn(s, dt, now))
  }

  /** Deciding weighs a reading by its oracle's reputation-adjusted weight. */
  function DecidingFn(s: Store, dt: Symbol): DataPoint -> Reading {
    (p: DataPoint) =>
      Median.Reading(p.value, if (dt, p.oracle) in s.registry.oracles then EffectiveWeight(s, p.oracle, dt) else 0)
  }

  /** Reporting weighs it by the registered weight. */
  function ReportingFn(s: Store, dt: Symbol): DataPoint -> Reading {
    (p: DataPoint) =>
      Median.Reading(p.value, if (dt, p.oracle) in s.registry.oracles then s.registry.oracles[(dt, p.oracle)].weight else 0)
  }

  function WeighFn(s: Store, dt: Symbol, deciding: bool): DataPoint -> Reading {
    if deciding then DecidingFn(s, dt) else ReportingFn(s, dt)
  }

  function TimeFn(): DataPoint -> nat {
    (p: DataPoint) => p.timestamp
  }

  // ----- Aggregation of a set of weighted readings -----

  lemma {:induction false} UpperMedianExists(rs: seq<Reading>, a: int, b: int) returns (v: int)
    requires a < b && 2 * Median.WeightBelow(rs, a) <= Median.TotalWeight(rs) < 2 * Median.WeightBelow(rs, b)
    ensures a <= v < b && Median.IsUpperMedian(rs, v)
    decreases b - a
  {
    if 2 * Median.WeightBelow(rs, a + 1) <= Median.TotalWeight(rs) {
      v := UpperMedianExists(rs, a + 1, b);
    } else {
      v := a;
    }
  }

  lemma {:induction false} Hull(rs: seq<Reading>) returns (lo: int, hi: int)
    requires rs != []
    ensures lo <= hi && Median.ValuesIn(rs, lo, hi)
  {
    lo, hi := rs[0].value, rs[0].value;
    if |rs| > 1 {
      lo, hi := Hull(rs[1..]);
      lo, hi := Min(lo, rs[0].value), Max(hi, rs[0].value);
    }
  }

  /** Every non-empty set of positively weighted readings has a weighted median. */
  lemma MedianExists(rs: seq<Reading>)
    requires rs != [] && Median.Positive(rs)
    ensures exists r :: Median.IsWeightedMedian(rs, r)
  {
    var lo, hi := Hull(rs);
    Median.SortedReadings(rs);
    Median.NoneBelow(rs, lo);
    Median.AllBelow(rs, hi + 1);
    var l := Median.LowerMedianExists(rs, lo, hi + 1);
    var u := UpperMedianExists(rs, lo, hi + 1);
    assert Median.IsWeightedMedian(rs, TruncDiv(l + u, 2));
  }

  ghost function MedianOf(rs: seq<Reading>): (r: int)
    requires rs != [] && Median.Positive(rs)
    ensures Median.IsWeightedMedian(rs, r)
  {
    MedianExists(rs);
    var r :| Median.IsWeightedMedian(rs, r);
    r
  }

  ghost function Aggregate(how: Method, rs: seq<Reading>, ts: seq<nat>, now: nat): int
    requires rs != [] && Median.Positive(rs) && |rs| == |ts|
  {
    Median.SortedReadings(rs);
    match how
    case WeightedMedian => MedianOf(rs)
    case WeightedAverage => WeightedAverageOf(rs)
    case Mean => MeanOf(rs)
    case TimeWeightedAverage => TimeWeightedOf(rs, ts, now)
  }

  /** The one sum of an aggregation that is neither saturating nor bounded: the midpoint of the median. */
  ghost predicate AggregateFits(how: Method, kept: seq<Reading>) {
    how == WeightedMedian ==> Median.MedianFits(kept)
  }

  /** Filter, require enough survivors, aggregate. None is an abort: no data, or an overflow. */
  ghost function Settle(s: Store, dt: Symbol, rs: seq<Reading>, ts: seq<nat>, now: nat): Option<int>
    requires Median.Positive(rs) && |rs| == |ts|
  {
    var drop := Outliers(OutliersFor(s, dt), rs);
    var kept := Keep(rs, drop);
    KeptPositive(rs, drop);
    KeepSameLength(rs, ts, drop);
    if !FilterFits(OutliersFor(s, dt), rs) || |kept| < s.settings.minOracleCount || kept == [] then None
    else if !AggregateFits(MethodFor(s, dt), kept) then None
    else Some(Aggregate(MethodFor(s, dt), kept, Keep(ts, drop), now))
  }

  lemma KeptPositive(rs: seq<Reading>, drop: seq<bool>)
    requires |rs| == |drop| && Median.Positive(rs)
    ensures Median.Positive(Keep(rs, drop))
  {
    var kept := Keep(rs, drop);
    forall i | 0 <= i < |kept| ensures kept[i].weight >= 1 {
      assert kept[i] in rs;
    }
  }

  lemma DecidingPositive(s: Store, dt: Symbol, points: seq<DataPoint>, now: nat)
    ensures Median.Positive(Map(Eligible(s, dt, points, now), DecidingFn(s, dt)))
  {
    var es := Eligible(s, dt, points, now);
    forall i | 0 <= i < |es| ensures DecidingFn(s, dt)(es[i]).weight >= 1 {
      assert es[i] in es;
    }
  }

  lemma ReportingPositive(s: Store, dt: Symbol, points: seq<DataPoint>, now: nat)
    requires Consistent(s.registry)
    ensures Median.Positive(Map(Eligible(s, dt, points, now), ReportingFn(s, dt)))
  {
    var es := Eligible(s, dt, points, now);
    forall i | 0 <= i < |es| ensures ReportingFn(s, dt)(es[i]).weight >= 1 {
      assert es[i] in es;
    }
  }

  /** The value a claim is decided by, for a stored list of points. */
  ghost function Decide(s: Store, dt: Symbol, points: seq<DataPoint>, now: nat): Option<int> {
    var es := Eligible(s, dt, points, now);
    DecidingPositive(s, dt, points, now);
    Settle(s, dt, Map(es, DecidingFn(s, dt)), Map(es, TimeFn()), now)
  }

  /** The value `get_aggregated` reports. */
  ghost function Report(s: Store, dt: Symbol, points: seq<DataPoint>, now: nat): Option<int>
    requires Consistent(s.registry)
  {
    var es := Eligible(s, dt, points, now);
    ReportingPositive(s, dt, points, now);
    Settle(s, dt, Map(es, ReportingFn(s, dt)), Map(es, TimeFn()), now)
  }

  // ----- Guarded readings -----

  lemma KeptBounded(rs: seq<Reading>, drop: seq<bool>)
    requires |rs| == |drop| && Bounded(rs)
    ensures Bounded(Keep(rs, drop))
  {
    var kept := Keep(rs, drop);
    forall i | 0 <= i < |kept|
      ensures Abs(kept[i].value) <= MAX_DATA_VALUE && 1 <= kept[i].weight <= MAX_WEIGHT
    {
      assert kept[i] in rs;
    }
  }

  /** Every stored value is within the range `submit_data` enforces. */
  ghost predicate Guarded(points: seq<DataPoint>) {
    forall i :: 0 <= i < |points| ==> Abs(points[i].value) <= MAX_DATA_VALUE
  }

  /** Then nothing overflows. */
  lemma GuardedFits(cfg: OutlierConfig, how: Method, rs: seq<Reading>, drop: seq<bool>)
    requires |drop| == |rs| && forall i :: 0 <= i < |rs| ==> Abs(rs[i].value) <= MAX_DATA_VALUE
    ensures FilterFits(cfg, rs) && AggregateFits(how, Keep(rs, drop))
  {
    SmallValuesPass(cfg, rs, MAX_DATA_VALUE);
    var kept := Keep(rs, drop);
    forall i | 0 <= i < |kept| ensures Abs(kept[i].value) <= MAX_DATA_VALUE {
      assert kept[i] in rs;
    }
    Median.SmallValuesFit(kept, MAX_DATA_VALUE);
  }

  lemma DecidingBounded(s: Store, dt: Symbol, points: seq<DataPoint>, now: nat)
    requires Sound(s) && Guarded(points)
    ensures Bounded(Map(Eligible(s, dt, points, now), DecidingFn(s, dt)))
  {
    var es := Eligible(s, dt, points, now);
    forall i | 0 <= i < |es|
      ensures Abs(es[i].value) <= MAX_DATA_VALUE && 1 <= DecidingFn(s, dt)(es[i]).weight <= MAX_WEIGHT
    {
      assert es[i] in es;
      assert es[i] in points;
      EffectiveWeightBounded(s, es[i].oracle, dt);
    }
  }

  // ----- Hull -----

  lemma MedianHull(rs: seq<Reading>, lo: int, hi: int)
    requires rs != [] && Median.Positive(rs) && Median.ValuesIn(rs, lo, hi)
    ensures lo <= MedianOf(rs) <= hi
  {
    Median.SortedReadings(rs);
    Median.NoneBelow(rs, lo);
    Median.AllBelow(rs, hi + 1);
    Median.MajorityPinsMedian(rs, MedianOf(rs), lo, hi);
  }

  lemma TimeWeightedHull(rs: seq<Reading>, ts: seq<nat>, now: nat, end: nat, lo: int, hi: int)
    requires rs != [] && |rs| == |ts| && Bounded(rs) && Median.ValuesIn(rs, lo, hi)
    requires now <= end && forall i :: 0 <= i < |ts| ==> ts[i] <= end <= ts[i] + MAX_SPAN
    ensures lo <= TimeWeightedOf(rs, ts, now) <= hi
  {
    var pairs := Pair(rs, ts);
    var active := Sort(pairs, ByTime());
    assert TotalPreorder(ByTime());
    SortSorts(pairs, ByTime());
    forall i | 0 <= i < |active|
      ensures Abs(active[i].value) <= MAX_DATA_VALUE && 1 <= active[i].weight <= MAX_WEIGHT
      ensures active[i].time <= end <= active[i].time + MAX_SPAN && lo <= active[i].value <= hi
    {
      assert active[i] in multiset(pairs);
      var j :| 0 <= j < |pairs| && pairs[j] == active[i];
    }
    if |rs| > 1 {
      WindowHull(active, now, end, lo, hi);
    }
  }

  /** In every reachable state a decision over guarded readings lies between the least and the greatest
      eligible value, by every method; the time-weighted average needs the readings and now to span at
      most MAX_SPAN seconds. */
  lemma DecisionWithinHull(s: Store, dt: Symbol, points: seq<DataPoint>, now: nat, end: nat, lo: int, hi: int)
    requires Sound(s) && Guarded(points)
    requires forall p :: p in Eligible(s, dt, points, now) ==> lo <= p.value <= hi
    requires MethodFor(s, dt) == TimeWeightedAverage ==>
               now <= end && forall p :: p in Eligible(s, dt, points, now) ==> p.timestamp <= end <= p.timestamp + MAX_SPAN
    ensures Decide(s, dt, points, now).Some? ==> lo <= Decide(s, dt, points, now).value <= hi
  {
    var es := Eligible(s, dt, points, now);
    var rs, ts := Map(es, DecidingFn(s, dt)), Map(es, TimeFn());
    DecidingPositive(s, dt, points, now);
    DecidingBounded(s, dt, points, now);
    assert Median.ValuesIn(rs, lo, hi) by {
      forall i | 0 <= i < |rs| ensures lo <= rs[i].value <= hi { assert es[i] in es; }
    }
    var drop := Outliers(OutliersFor(s, dt), rs);
    var kept, times := Keep(rs, drop), Keep(ts, drop);
    KeptPositive(rs, drop);
    KeptBounded(rs, drop);
    KeepSameLength(rs, ts, drop);
    assert Median.ValuesIn(kept, lo, hi) by {
      forall i | 0 <= i < |kept| ensures lo <= kept[i].value <= hi { assert kept[i] in rs; }
    }
    if kept != [] {
      match MethodFor(s, dt)
      case WeightedMedian => MedianHull(kept, lo, hi);
      case WeightedAverage => AveragesExact(kept, lo, hi);
      case Mean => AveragesExact(kept, lo, hi);
      case TimeWeightedAverage =>
        forall i | 0 <= i < |times| ensures times[i] <= end <= times[i] + MAX_SPAN {
          assert times[i] in ts;
          var j :| 0 <= j < |ts| && ts[j] == times[i];
          assert es[j] in es;
        }
        TimeWeightedHull(kept, times, now, end, lo, hi);
    }
  }
}
