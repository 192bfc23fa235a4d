/** When the consensus value is a function of the set of stored readings, whatever order oracles happened to
    submit in. */
module ConsensusOrder {
  import opened Arithmetic
  import opened Sequences
  import opened Ledger
  import opened OracleRegistry
  import opened OracleState
  import opened OracleRuns
  import opened OutlierFilter
  import opened Averages
  import opened TimeWeighting
  import opened TimedSurvivors
  import opened Consensus
  import Median = WeightedMedian

  function TimedFn(s: Store, dt: Symbol): DataPoint -> Timed {
    (p: DataPoint) => Timed(p.value, DecidingFn(s, dt)(p).weight, p.timestamp)
  }

  /** The eligible readings with their times. */
  function TimedOf(s: Store, dt: Symbol, points: seq<DataPoint>, now: nat): seq<Timed> {
    Map(Eligible(s, dt, points, now), TimedFn(s, dt))
  }

  /** The readings the filter leaves to be averaged. */
  function KeptOf(s: Store, dt: Symbol, points: seq<DataPoint>, now: nat): seq<Reading> {
    Map(Survivors(OutliersFor(s, dt), TimedOf(s, dt, points, now)), ReadingFn())
  }

  /** No order of these readings changes what the method makes of them. */
  ghost predicate Orderless(how: Method, kept: seq<Reading>)
    requires Median.Positive(kept)
  {
    kept != [] ==>
      match how
      case WeightedMedian => true
      case WeightedAverage =>
        Median.SortedReadings(kept);
        SteadyQuotient(Map(kept, SatProductFn()), Median.TotalWeight(kept))
      case Mean => SteadyQuotient(Map(kept, ValueFn()), |kept|)
      case TimeWeightedAverage => true
  }

  /** Averages must not saturate their way to different quotients; the time-weighted average needs survivors that
      do not depend on storage order and agree where they share a time. */
  ghost predicate OrderSafe(s: Store, dt: Symbol, points: seq<DataPoint>, now: nat) {
    KeptIsPositive(s, dt, points, now);
    && Orderless(MethodFor(s, dt), KeptOf(s, dt, points, now))
    && (MethodFor(s, dt) == TimeWeightedAverage ==>
          var ts := TimedOf(s, dt, points, now);
          CutClean(OutliersFor(s, dt), ts) && Unambiguous(Survivors(OutliersFor(s, dt), ts)))
  }

  lemma KeptIsPositive(s: Store, dt: Symbol, points: seq<DataPoint>, now: nat)
    ensures Median.Positive(KeptOf(s, dt, points, now))
  {
    TimedParts(s, dt, points, now);
    DecidingPositive(s, dt, points, now);
    KeptPositive(Map(Eligible(s, dt, points, now), DecidingFn(s, dt)), DropsOf(OutliersFor(s, dt), TimedOf(s, dt, points, now)));
  }

  /** The pairs carry the deciding readings and their times through the filter. */
  lemma TimedParts(s: Store, dt: Symbol, points: seq<DataPoint>, now: nat)
    ensures var es, ts := Eligible(s, dt, points, now), TimedOf(s, dt, points, now);
      var rs, drop := Map(es, DecidingFn(s, dt)), DropsOf(OutliersFor(s, dt), ts);
      && Map(ts, ReadingFn()) == rs && Map(ts, TimestampFn()) == Map(es, TimeFn())
      && drop == Outliers(OutliersFor(s, dt), rs)
      && KeptOf(s, dt, points, now) == Keep(rs, drop)
      && Map(Survivors(OutliersFor(s, dt), ts), TimestampFn()) == Keep(Map(es, TimeFn()), drop)
  {
    var es, ts := Eligible(s, dt, points, now), TimedOf(s, dt, points, now);
    assert Map(ts, ReadingFn()) == Map(es, DecidingFn(s, dt));
    assert Map(ts, TimestampFn()) == Map(es, TimeFn());
    KeepMap(ts, DropsOf(OutliersFor(s, dt), ts), ReadingFn());
    KeepMap(ts, DropsOf(OutliersFor(s, dt), ts), TimestampFn());
  }

  lemma PairOfParts(ts: seq<Timed>)
    ensures Pair(Map(ts, ReadingFn()), Map(ts, TimestampFn())) == ts
  {
  }

  // ----- One method at a time -----

  lemma AggregateOfPermutation(how: Method, rs: seq<Reading>, ts: seq<nat>, qs: seq<Reading>, us: seq<nat>, now: nat)
    requires rs != [] && Median.Positive(rs) && multiset(rs) == multiset(qs) && |rs| == |ts| && |qs| == |us|
    requires Orderless(how, rs) && how != TimeWeightedAverage
    ensures qs != [] && Median.Positive(qs) && Aggregate(how, rs, ts, now) == Aggregate(how, qs, us, now)
  {
    assert |rs| == |multiset(rs)| == |multiset(qs)| == |qs|;
    forall i | 0 <= i < |qs| ensures qs[i].weight >= 1 {
      assert qs[i] in multiset(rs);
    }
    Median.SortedReadings(rs);
    match how
    case WeightedMedian =>
      Median.MedianOfPermutation(qs, rs, MedianOf(rs));
      Median.WeightedMedianUnique(qs, MedianOf(qs), MedianOf(rs));
    case WeightedAverage => WeightedAverageOfPermutation(rs, qs);
    case Mean => MeanOfPermutation(rs, qs);
  }

  lemma TimeWeightedOfPermutation(a: seq<Timed>, b: seq<Timed>, now: nat)
    requires a != [] && multiset(a) == multiset(b) && |a| == |b| && Unambiguous(a)
    ensures TimeWeightedOf(Map(a, ReadingFn()), Map(a, TimestampFn()), now)
            == TimeWeightedOf(Map(b, ReadingFn()), Map(b, TimestampFn()), now)
  {
    PairOfParts(a);
    PairOfParts(b);
    TimeAverageOfPermutation(a, b);
    if |a| == 1 {
      assert a[0] in multiset(b);
    }
  }

  // ----- The decision -----

  /** The call gets past the filter and the aggregation. */
  ghost predicate Survives(s: Store, dt: Symbol, ts: seq<Timed>) {
    var cfg := OutliersFor(s, dt);
    var kept := Survivors(cfg, ts);
    && FilterFits(cfg, Map(ts, ReadingFn()))
    && kept != [] && |kept| >= s.settings.minOracleCount
    && AggregateFits(MethodFor(s, dt), Map(kept, ReadingFn()))
  }

  lemma SettleOfSurvivors(s: Store, dt: Symbol, points: seq<DataPoint>, now: nat)
    ensures var kept := Survivors(OutliersFor(s, dt), TimedOf(s, dt, points, now));
      && Median.Positive(Map(kept, ReadingFn()))
      && (!Survives(s, dt, TimedOf(s, dt, points, now)) ==> Decide(s, dt, points, now) == None)
      && (Survives(s, dt, TimedOf(s, dt, points, now)) ==>
            Decide(s, dt, points, now) == Some(Aggregate(MethodFor(s, dt), Map(kept, ReadingFn()), Map(kept, TimestampFn()), now)))
  {
    TimedParts(s, dt, points, now);
    KeptIsPositive(s, dt, points, now);
  }

  lemma SurvivesOfShuffle(s: Store, dt: Symbol, ts: seq<Timed>, us: seq<Timed>)
    requires multiset(ts) == multiset(us)
    ensures Survives(s, dt, ts) == Survives(s, dt, us)
  {
    var cfg := OutliersFor(s, dt);
    SurvivorsOfShuffle(cfg, ts, us);
    MapPermutation(ts, us, ReadingFn());
    MapPermutation(Map(ts, ReadingFn()), Map(us, ReadingFn()), ValueFn());
    FitsByValues(cfg, Map(ts, ReadingFn()), Map(us, ReadingFn()));
    Median.FitsOfPermutation(Map(Survivors(cfg, ts), ReadingFn()), Map(Survivors(cfg, us), ReadingFn()));
  }

  lemma EligibleOfPermutation(s: Store, dt: Symbol, points: seq<DataPoint>, shuffled: seq<DataPoint>, now: nat)
    requires multiset(points) == multiset(shuffled) && |points| <= MAX_DATA_POINTS
    ensures multiset(TimedOf(s, dt, points, now)) == multiset(TimedOf(s, dt, shuffled, now))
  {
    assert |points| == |multiset(points)| == |multiset(shuffled)| == |shuffled|;
    assert points[..|points|] == points && shuffled[..|shuffled|] == shuffled;
    FilterPermutation(points, shuffled, EligibleFn(s, dt, now));
    MapPermutation(Eligible(s, dt, points, now), Eligible(s, dt, shuffled, now), TimedFn(s, dt));
  }

  lemma SurvivorsOfShuffle(cfg: OutlierConfig, ts: seq<Timed>, us: seq<Timed>)
    requires multiset(ts) == multiset(us)
    ensures multiset(Map(Survivors(cfg, ts), ReadingFn())) == multiset(Map(Survivors(cfg, us), ReadingFn()))
    ensures |Survivors(cfg, ts)| == |Survivors(cfg, us)|
    ensures CutClean(cfg, ts) ==> multiset(Survivors(cfg, ts)) == multiset(Survivors(cfg, us))
  {
    MapPermutation(ts, us, ReadingFn());
    SurvivorsOfPermutation(cfg, Map(ts, ReadingFn()), Map(us, ReadingFn()));
    KeepMap(ts, DropsOf(cfg, ts), ReadingFn());
    KeepMap(us, DropsOf(cfg, us), ReadingFn());
    var a, b := Map(Survivors(cfg, ts), ReadingFn()), Map(Survivors(cfg, us), ReadingFn());
    assert |a| == |multiset(a)| == |multiset(b)| == |b|;
    if CutClean(cfg, ts) {
      CleanSurvivors(cfg, ts, us);
    }
  }

  lemma SameAggregate(how: Method, a: seq<Timed>, b: seq<Timed>, now: nat)
    requires a != [] && |a| == |b| && Median.Positive(Map(a, ReadingFn())) && Median.Positive(Map(b, ReadingFn()))
    requires multiset(Map(a, ReadingFn())) == multiset(Map(b, ReadingFn())) && Orderless(how, Map(a, ReadingFn()))
    requires how == TimeWeightedAverage ==> multiset(a) == multiset(b) && Unambiguous(a)
    ensures Aggregate(how, Map(a, ReadingFn()), Map(a, TimestampFn()), now)
            == Aggregate(how, Map(b, ReadingFn()), Map(b, TimestampFn()), now)
  {
    if how == TimeWeightedAverage {
      TimeWeightedOfPermutation(a, b, now);
    } else {
      AggregateOfPermutation(how, Map(a, ReadingFn()), Map(a, TimestampFn()), Map(b, ReadingFn()), Map(b, TimestampFn()), now);
    }
  }

  /** The consensus value is a function of the set of stored readings, by every method: the order in which oracles
      happened to submit cannot change it, or whether there is one. */
  lemma DecisionIgnoresOrder(s: Store, dt: Symbol, points: seq<DataPoint>, shuffled: seq<DataPoint>, now: nat)
    requires multiset(points) == multiset(shuffled) && |points| <= MAX_DATA_POINTS
    requires OrderSafe(s, dt, points, now)
    ensures Decide(s, dt, points, now) == Decide(s, dt, shuffled, now)
  {
    var cfg, how := OutliersFor(s, dt), MethodFor(s, dt);
    var ts, us := TimedOf(s, dt, points, now), TimedOf(s, dt, shuffled, now);
    EligibleOfPermutation(s, dt, points, shuffled, now);
    SurvivorsOfShuffle(cfg, ts, us);
    SurvivesOfShuffle(s, dt, ts, us);
    SettleOfSurvivors(s, dt, points, now);
    SettleOfSurvivors(s, dt, shuffled, now);
    if Survives(s, dt, ts) {
      SameAggregate(how, Survivors(cfg, ts), Survivors(cfg, us), now);
    }
  }

  // ----- When that is so -----

  lemma BoundedIsOrderless(how: Method, kept: seq<Reading>)
    requires Median.Positive(kept) && Bounded(kept)
    ensures Orderless(how, kept)
  {
    if kept != [] {
      Median.SortedReadings(kept);
      BoundedTerms(kept);
      OrderFreeIsSteady(Map(kept, SatProductFn()), Median.TotalWeight(kept));
      OrderFreeIsSteady(Map(kept, ValueFn()), |kept|);
    }
  }

  /** The median is always order-safe; the averages are for values in the range that single submissions are held
      to; the time-weighted average is when equal times mean equal readings, and equal readings mean equal times
      or the filter does not apply. */
  lemma GuardedIsOrderSafe(s: Store, dt: Symbol, points: seq<DataPoint>, now: nat)
    requires Sound(s) && (MethodFor(s, dt) == WeightedAverage || MethodFor(s, dt) == Mean ==> Guarded(points))
    requires MethodFor(s, dt) == TimeWeightedAverage ==>
               var ts := TimedOf(s, dt, points, now);
               && Unambiguous(ts)
               && (!Applies(OutliersFor(s, dt), |ts|)
                   || EqualReadingsShareTimes(ts))
    ensures OrderSafe(s, dt, points, now)
  {
    KeptIsPositive(s, dt, points, now);
    if MethodFor(s, dt) == TimeWeightedAverage {
      UntiedIsSettled(OutliersFor(s, dt), TimedOf(s, dt, points, now));
    } else if MethodFor(s, dt) != WeightedMedian {
      TimedParts(s, dt, points, now);
      DecidingBounded(s, dt, points, now);
      KeptBounded(Map(Eligible(s, dt, points, now), DecidingFn(s, dt)), DropsOf(OutliersFor(s, dt), TimedOf(s, dt, points, now)));
      BoundedIsOrderless(MethodFor(s, dt), KeptOf(s, dt, points, now));
    }
  }
}
