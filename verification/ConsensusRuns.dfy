/** Runs from deployment whose decision depends on the order in which the same readings arrived. */
module ConsensusRuns {
  import opened Arithmetic
  import opened Sequences
  import opened Ledger
  import opened OracleRegistry
  import opened OracleState
  import opened OracleRuns
  import opened OutlierFilter
  import opened Averages
  import opened TimeWeighting
  import opened TimedSurvivors
  import opened Consensus
  import opened ConsensusOrder
  import Median = WeightedMedian

  /** When all readings arrive and when the decision is taken. */
  const NOW: nat := 140

  /** Data type 0 is aggregated by `how` behind an outlier filter that applies to four readings or more. */
  function Configured(how: Method): Settings {
    Settings(1_000, map[], 0, 1, 0, map[0 := how], map[0 := OutlierConfig(true, 10_000, 4)], 0, 0, 0, 0, 1_000, None, 0, 0, 0, map[])
  }

  function ReadingAt(oracle: Address, value: int, timestamp: nat): DataPoint {
    DataPoint(oracle, value, 50, timestamp)
  }

  /** Oracles 1 to `n`, all of weight 1. */
  function Registrations(n: nat): seq<Op> {
    seq(n, i requires 0 <= i < n => OpAddOracle(i + 1, 0, 1))
  }

  /** A value out of the range of `submit_data` goes through `submit_data_batch`. */
  function Arrival(p: DataPoint): Op {
    if Abs(p.value) <= MAX_DATA_VALUE then OpSubmit(0, 5, p, NOW, true)
    else OpSubmitBatch(SubmitDataBatch, p.oracle, 0, [(5, p)], NOW)
  }

  function Arrivals(points: seq<DataPoint>): seq<Op> {
    seq(|points|, i requires 0 <= i < |points| => Arrival(points[i]))
  }

  function Story(n: nat, points: seq<DataPoint>): seq<Op> {
    Registrations(n) + Arrivals(points)
  }

  function After(how: Method, n: nat, points: seq<DataPoint>): Store {
    Run(Deployed(Configured(how), map[]), Story(n, points))
  }

  /** Readings of different registered oracles, not older than the limit. */
  ghost predicate Readings(n: nat, points: seq<DataPoint>) {
    && (forall i :: 0 <= i < |points| ==>
          && points[i].confidence == 50 && 0 < points[i].timestamp <= NOW && 1 <= points[i].oracle <= n)
    && (forall i, j :: 0 <= i < j < |points| ==> points[i].oracle != points[j].oracle)
  }

  // ----- Registration -----

  ghost predicate Enrolled(s: Store, how: Method, n: nat) {
    && s.settings == Configured(how) && s.reputation == map[]
    && (forall k :: k in s.registry.oracles <==> k.0 == 0 && 1 <= k.1 <= n)
    && (forall k :: k in s.registry.oracles ==> s.registry.oracles[k] == OracleEntry(1, true))
  }

  ghost predicate Vacant(s: Store, n: nat) {
    && (forall o :: o in s.registry.globalOracles ==> o <= n) && |ListOf(s.registry, 0)| <= n
    && s.points == map[] && s.lastReading == map[]
  }

  ghost predicate Ready(s: Store, how: Method, n: nat) {
    Enrolled(s, how, n) && Vacant(s, n)
  }

  lemma OneMore(s: Store, how: Method, n: nat)
    requires Ready(s, how, n) && n < MAX_ORACLES_PER_KEY
    ensures Ready(Step(s, OpAddOracle(n + 1, 0, 1)), how, n + 1)
  {
    assert AddOracle(s, n + 1, 0, 1).Some?;
  }

  lemma {:induction false} AllEnrolled(d: Store, how: Method, ops: seq<Op>)
    requires |ops| <= MAX_ORACLES_PER_KEY && Ready(d, how, 0)
    requires forall i :: 0 <= i < |ops| ==> ops[i] == OpAddOracle(i + 1, 0, 1)
    ensures Ready(Run(d, ops), how, |ops|)
  {
    if ops != [] {
      AllEnrolled(d, how, ops[..|ops| - 1]);
      OneMore(Run(d, ops[..|ops| - 1]), how, |ops| - 1);
    }
  }

  lemma NoneEnrolled(how: Method)
    ensures Ready(Deployed(Configured(how), map[]), how, 0)
  {
  }

  // ----- Arrival -----

  /** The stream holds exactly `points`, in order. */
  ghost predicate Holds(s: Store, points: seq<DataPoint>) {
    && PointsOf(s, 0, 5) == points
    && forall k :: k in s.lastReading ==> exists i :: 0 <= i < |points| && points[i].oracle == k.2
  }

  lemma ArrivalStores(s: Store, p: DataPoint, limited: Store, stored: Store)
    requires RateLimited(s, p.oracle, 0, NOW) == Some(limited) && AcceptReading(limited, 0, 5, p, NOW) == Some(stored)
    requires IsActive(s.registry, 0, p.oracle) && 0 < p.timestamp <= NOW && EffectiveMaxAge(s, 0) >= NOW
    requires s.settings.typeMaxValue == map[]
    ensures Step(s, Arrival(p)) == ResetStale(stored, p.oracle, 0)
  {
    if Abs(p.value) > MAX_DATA_VALUE {
      assert [(5, p)][1..] == [];
      assert p.(oracle := p.oracle) == p;
      assert AcceptAll(stored, SubmitDataBatch, 0, [(5, p)][1..], p.oracle, NOW) == Some(stored);
    }
  }

  /** A new oracle's reading is kept after all others. */
  lemma ReadingStored(s: Store, how: Method, n: nat, before: seq<DataPoint>, p: DataPoint)
    requires Readings(n, before + [p]) && Enrolled(s, how, n) && Holds(s, before) && |before| < MAX_DATA_POINTS
    ensures PointsOf(StorePoint(s, 0, 5, p, NOW), 0, 5) == before + [p]
    ensures AcceptReading(s, 0, 5, p, NOW) == Some(StorePoint(s, 0, 5, p, NOW))
  {
    assert (before + [p])[|before|] == p;
    assert forall i :: 0 <= i < |before| ==> (before + [p])[i] == before[i];
    FilterAll(before, RetainFn(s, 0, p.oracle, NOW));
  }

  lemma OneArrives(s: Store, how: Method, n: nat, before: seq<DataPoint>, p: DataPoint)
    requires Readings(n, before + [p]) && Enrolled(s, how, n) && Holds(s, before) && |before| < MAX_DATA_POINTS
    ensures var t := Step(s, Arrival(p)); Enrolled(t, how, n) && Holds(t, before + [p])
  {
    var limited := s.(lastSubmission := s.lastSubmission[(0, p.oracle) := NOW]);
    assert RateLimited(s, p.oracle, 0, NOW) == Some(limited);
    ReadingStored(limited, how, n, before, p);
    assert (before + [p])[|before|] == p;
    ArrivalStores(s, p, limited, StorePoint(limited, 0, 5, p, NOW));
    StoredHolds(limited, before, p);
  }

  lemma StoredHolds(s: Store, before: seq<DataPoint>, p: DataPoint)
    requires Holds(s, before) && PointsOf(StorePoint(s, 0, 5, p, NOW), 0, 5) == before + [p]
    ensures Holds(StorePoint(s, 0, 5, p, NOW), before + [p])
  {
    var t := StorePoint(s, 0, 5, p, NOW);
    forall k | k in t.lastReading ensures exists i :: 0 <= i < |before + [p]| && (before + [p])[i].oracle == k.2 {
      if k in s.lastReading {
        var i :| 0 <= i < |before| && before[i].oracle == k.2;
        assert (before + [p])[i] == before[i];
      } else {
        assert (before + [p])[|before|] == p;
      }
    }
  }

  lemma {:induction false} AllArrive(s: Store, how: Method, n: nat, points: seq<DataPoint>)
    requires n <= MAX_ORACLES_PER_KEY && Readings(n, points) && |points| <= n && Enrolled(s, how, n) && Holds(s, [])
    ensures Enrolled(Run(s, Arrivals(points)), how, n) && Holds(Run(s, Arrivals(points)), points)
  {
    if points != [] {
      var before, p := points[..|points| - 1], points[|points| - 1];
      assert points == before + [p];
      AllArrive(s, how, n, before);
      OneArrives(Run(s, Arrivals(before)), how, n, before, p);
      assert Arrivals(points) == Arrivals(before) + [Arrival(p)];
      RunSnoc(s, Arrivals(before), Arrival(p));
    }
  }

  lemma {:induction false} RunJoin(s: Store, a: seq<Op>, b: seq<Op>)
    ensures Run(s, a + b) == Run(Run(s, a), b)
  {
    if b == [] {
      assert a + b == a;
    } else {
      RunJoin(s, a, b[..|b| - 1]);
      assert (a + b)[..|a + b| - 1] == a + b[..|b| - 1];
    }
  }

  lemma StoryTold(how: Method, n: nat, points: seq<DataPoint>)
    requires n <= MAX_ORACLES_PER_KEY && Readings(n, points) && |points| <= n
    ensures Enrolled(After(how, n, points), how, n) && Holds(After(how, n, points), points)
  {
    var d := Deployed(Configured(how), map[]);
    NoneEnrolled(how);
    AllEnrolled(d, how, Registrations(n));
    RunJoin(d, Registrations(n), Arrivals(points));
    AllArrive(Run(d, Registrations(n)), how, n, points);
  }

  // ----- Decision -----

  function AsTimed(): DataPoint -> Timed {
    (p: DataPoint) => Timed(p.value, 1, p.timestamp)
  }

  lemma AllEligible(s: Store, how: Method, n: nat, points: seq<DataPoint>)
    requires Enrolled(s, how, n) && Readings(n, points) && |points| <= MAX_DATA_POINTS
    ensures TimedOf(s, 0, points, NOW) == Map(points, AsTimed())
  {
    assert points[..|points|] == points;
    FilterAll(points, EligibleFn(s, 0, NOW));
    forall i | 0 <= i < |points| ensures TimedFn(s, 0)(points[i]) == AsTimed()(points[i]) {
      UnitWeight(s, how, n, points[i].oracle);
      assert DecidingFn(s, 0)(points[i]).weight == 1;
    }
    assert Map(points, TimedFn(s, 0)) == Map(points, AsTimed());
  }

  lemma UnitWeight(s: Store, how: Method, n: nat, oracle: Address)
    requires Enrolled(s, how, n) && 1 <= oracle <= n
    ensures (0, oracle) in s.registry.oracles && EffectiveWeight(s, oracle, 0) == 1
  {
    assert s.registry.oracles[(0, oracle)] == OracleEntry(1, true);
  }

  /** The contract's own account sends none of these operations. */
  ghost predicate Outside(ops: seq<Op>) {
    forall i :: 0 <= i < |ops| ==> FromOutside(ops[i])
  }

  lemma StoryOutside(n: nat, points: seq<DataPoint>)
    ensures Outside(Story(n, points))
  {
    forall i | 0 <= i < |Story(n, points)| ensures FromOutside(Story(n, points)[i]) {
      assert i < n ==> Story(n, points)[i] == OpAddOracle(i + 1, 0, 1);
      assert i >= n ==> Story(n, points)[i] == Arrival(points[i - n]);
    }
  }

  /** What is decided after the readings arrived in this order. */
  ghost function Decision(how: Method, n: nat, points: seq<DataPoint>): Option<int> {
    var s := After(how, n, points);
    Decide(s, 0, PointsOf(s, 0, 5), NOW)
  }

  lemma Decided(how: Method, n: nat, points: seq<DataPoint>)
    requires n <= MAX_ORACLES_PER_KEY && Readings(n, points) && |points| <= n
    ensures var s := After(how, n, points);
      && PointsOf(s, 0, 5) == points && TimedOf(s, 0, points, NOW) == Map(points, AsTimed())
      && MethodFor(s, 0) == how && s.settings.minOracleCount == 1 && OutliersFor(s, 0) == OutlierConfig(true, 10_000, 4)
  {
    StoryTold(how, n, points);
    AllEligible(After(how, n, points), how, n, points);
  }

  /** With fewer than four readings the filter does not apply. */
  lemma UnfilteredDecides(s: Store, points: seq<DataPoint>, timed: seq<Timed>)
    requires TimedOf(s, 0, points, NOW) == timed && timed != [] && |timed| < 4
    requires s.settings.minOracleCount == 1 && OutliersFor(s, 0) == OutlierConfig(true, 10_000, 4)
    requires MethodFor(s, 0) != WeightedMedian
    ensures Median.Positive(Map(timed, ReadingFn()))
    ensures Decide(s, 0, points, NOW) == Some(Aggregate(MethodFor(s, 0), Map(timed, ReadingFn()), Map(timed, TimestampFn()), NOW))
  {
    SettleOfSurvivors(s, 0, points, NOW);
    NoneDropped(timed);
  }

  lemma NoneDropped(timed: seq<Timed>)
    requires |timed| < 4
    ensures var cfg := OutlierConfig(true, 10_000, 4); Survivors(cfg, timed) == timed && FilterFits(cfg, Map(timed, ReadingFn()))
  {
    KeepNone(timed, DropsOf(OutlierConfig(true, 10_000, 4), timed));
  }

  // ----- A cut between equal readings -----

  function Zero(time: nat): Timed {
    Timed(0, 1, time)
  }

  function Ten(time: nat): Timed {
    Timed(10, 1, time)
  }

  /** Two readings of 0 and three of 10, all of weight 1 and all at different times. */
  function FiveTimed(first: nat, second: nat): seq<Timed> {
    [Zero(first), Zero(second), Ten(110), Ten(120), Ten(130)]
  }

  lemma MiddleOfFive(s: seq<int>, sorted: seq<int>)
    requires multiset(s) == multiset(sorted) && |sorted| == 5 && SortedBy(sorted, Ascending())
    ensures s != [] && MiddleOf(s) == sorted[2]
  {
    assert |s| == |multiset(s)| == |multiset(sorted)| == 5;
    SameSort(s, sorted);
    SortOfSorted(sorted, Ascending());
  }

  predicate AreFive(rs: seq<Reading>) {
    |rs| == 5 && rs[0] == rs[1] == Median.Reading(0, 1) && rs[2] == rs[3] == rs[4] == Median.Reading(10, 1)
  }

  /** Their centre is 10 and their MAD is 0. */
  lemma FiveCentre(rs: seq<Reading>)
    requires AreFive(rs)
    ensures Center(rs) == 10
  {
    assert Map(rs, ValueFn()) == [0, 0, 10, 10, 10];
    MiddleOfFive([0, 0, 10, 10, 10], [0, 0, 10, 10, 10]);
  }

  lemma FiveMad(rs: seq<Reading>)
    requires AreFive(rs)
    ensures Mad(rs) == 0
  {
    FiveCentre(rs);
    assert Map(rs, DeviationFn(10)) == [10, 10] + [0, 0, 0];
    MiddleOfFive([10, 10] + [0, 0, 0], [0, 0, 0] + [10, 10]);
  }

  lemma FirstIsWorst(rs: seq<Reading>, k: nat)
    requires AreFive(rs) && k < 5
    ensures RankOrder(rs, 10)(0, k)
  {
    assert k == 0 || k == 1 || k == 2 || k == 3 || k == 4;
    assert AtFn(rs)(0) == Median.Reading(0, 1) && AtFn(rs)(k) == rs[k];
    assert WorstFirst(10)(Median.Reading(0, 1), rs[k]);
  }

  /** The first stored of the two outliers ranks first. */
  lemma FirstRanksFirst(rs: seq<Reading>)
    requires AreFive(rs)
    ensures |Order(rs)| == 5 && Order(rs)[0] == 0 && Ranked(rs)[0] == rs[0]
  {
    FiveCentre(rs);
    OrderFacts(rs);
    var leq, rest := RankOrder(rs, 10), Sort(Indices(5)[1..], RankOrder(rs, 10));
    SortLength(Indices(5)[1..], leq);
    InRange(rs, rest);
    FirstIsWorst(rs, rest[0]);
    assert Order(rs) == Insert(0, rest, leq);
  }

  lemma InRange(rs: seq<Reading>, rest: seq<nat>)
    requires |rs| == 5 && rest == Sort(Indices(5)[1..], RankOrder(rs, 10)) && rest != []
    ensures rest[0] < 5
  {
    RankOrderIsPreorder(rs, 10);
    SortSorts(Indices(5)[1..], RankOrder(rs, 10));
    SameElements(rest, Indices(5)[1..], 0);
  }

  lemma SameElements(a: seq<nat>, b: seq<nat>, i: nat)
    requires multiset(a) == multiset(b) && i < |a|
    ensures a[i] in b
  {
    assert a[i] in multiset(b);
  }

  /** With room for one rejection, the filter drops whichever of the two was stored first. */
  lemma FirstIsDropped(cfg: OutlierConfig, first: nat, second: nat)
    requires cfg.enabled && cfg.minSampleSize == 4
    ensures Survivors(cfg, FiveTimed(first, second)) == [Zero(second), Ten(110), Ten(120), Ten(130)]
  {
    var ts := FiveTimed(first, second);
    var rs := Map(ts, ReadingFn());
    FiveCentre(rs);
    FiveMad(rs);
    FirstRanksFirst(rs);
    assert RankExceeds(cfg, rs, 0);
    OutliersAtCut(cfg, rs, 1);
    var drop := DropsOf(cfg, ts);
    assert Order(rs)[..1] == [0] && drop == [true, false, false, false, false];
    assert ts[1..] == [Zero(second), Ten(110), Ten(120), Ten(130)];
    KeepNone(ts[1..], drop[1..]);
  }

  lemma FourHeld(start: nat)
    requires start < 110
    ensures Holdings([Zero(start), Ten(110), Ten(120), Ten(130)], 140)
            == [Median.Reading(0, 110 - start), Median.Reading(10, 10), Median.Reading(10, 10), Median.Reading(10, 10)]
  {
    var a, b, c, d := [Ten(130)], [Ten(120), Ten(130)], [Ten(110), Ten(120), Ten(130)], [Zero(start), Ten(110), Ten(120), Ten(130)];
    assert a[1..] == [] && b[1..] == a && c[1..] == b && d[1..] == c;
    assert Duration(a, 140) == Duration(b, 140) == Duration(c, 140) == 10 && Duration(d, 140) == 110 - start;
    assert Holdings(a, 140) == [Median.Reading(10, 10)];
    assert Holdings(b, 140) == [Median.Reading(10, 10)] + Holdings(a, 140);
    assert Holdings(c, 140) == [Median.Reading(10, 10)] + Holdings(b, 140);
    assert Holdings(d, 140) == [Median.Reading(0, 110 - start)] + Holdings(c, 140);
  }

  lemma FourSum(a: int, b: int)
    requires 0 <= a <= 1_000 && 0 <= b <= 1_000
    ensures Accumulate(0, [a, b, b, b]) == a + 3 * b
  {
    assert [a, b, b, b][1..] == [b, b, b] && [b, b, b][1..] == [b, b] && [b, b][1..] == [b] && [b][1..] == [];
    assert Accumulate(a + 2 * b, [b]) == Accumulate(a + 3 * b, []) == a + 3 * b;
    assert Accumulate(a + b, [b, b]) == Accumulate(a + 2 * b, [b]);
    assert Accumulate(a, [b, b, b]) == Accumulate(a + b, [b, b]);
  }

  lemma FourAverage(start: nat)
    requires start < 110
    ensures TimeAverage([Zero(start), Ten(110), Ten(120), Ten(130)], 140) == TruncDiv(300, 140 - start)
  {
    var held := Holdings([Zero(start), Ten(110), Ten(120), Ten(130)], 140);
    FourHeld(start);
    assert Map(held, SatProductFn()) == [0, 100, 100, 100];
    assert Map(held, Median.WeightFn()) == [110 - start, 10, 10, 10];
    FourSum(0, 100);
    FourSum(110 - start, 10);
  }

  lemma FourAggregate(start: nat)
    requires start < 110
    ensures var kept := [Zero(start), Ten(110), Ten(120), Ten(130)];
      && Median.Positive(Map(kept, ReadingFn()))
      && Aggregate(TimeWeightedAverage, Map(kept, ReadingFn()), Map(kept, TimestampFn()), 140) == TruncDiv(300, 140 - start)
  {
    var kept := [Zero(start), Ten(110), Ten(120), Ten(130)];
    PairOfParts(kept);
    SortOfSorted(kept, ByTime());
    FourAverage(start);
  }

  lemma DecidedOnFour(s: Store, dt: Symbol, points: seq<DataPoint>, first: nat, second: nat, average: int)
    requires second < 110 && average == TruncDiv(300, 140 - second)
    requires MethodFor(s, dt) == TimeWeightedAverage && s.settings.minOracleCount <= 4
    requires OutliersFor(s, dt).enabled && OutliersFor(s, dt).minSampleSize == 4
    requires TimedOf(s, dt, points, 140) == FiveTimed(first, second)
    ensures Decide(s, dt, points, 140) == Some(average)
  {
    FirstIsDropped(OutliersFor(s, dt), first, second);
    SmallValuesPass(OutliersFor(s, dt), Map(FiveTimed(first, second), ReadingFn()), 10);
    SettleOfSurvivors(s, dt, points, 140);
    FourAggregate(second);
  }

  /** Two readings of 0, from `a` and `b`, and three of 10, no two of the same time. */
  function Split(a: DataPoint, b: DataPoint): seq<DataPoint> {
    [a, b] + [ReadingAt(3, 10, 110), ReadingAt(4, 10, 120), ReadingAt(5, 10, 130)]
  }

  lemma SplitIsReadings(a: Address, b: Address, first: nat, second: nat)
    requires {a, b} == {1, 2} && 0 < first < 110 && 0 < second < 110
    ensures Readings(5, Split(ReadingAt(a, 0, first), ReadingAt(b, 0, second)))
  {
    assert a in {1, 2} && b in {1, 2} && 1 in {a, b} && 2 in {a, b};
  }

  lemma SplitDecided(a: Address, b: Address, first: nat, second: nat, average: int)
    requires {a, b} == {1, 2} && 0 < first < 110 && 0 < second < 110 && average == TruncDiv(300, 140 - second)
    ensures var points := Split(ReadingAt(a, 0, first), ReadingAt(b, 0, second));
      Outside(Story(5, points)) && Decision(TimeWeightedAverage, 5, points) == Some(average)
  {
    var points := Split(ReadingAt(a, 0, first), ReadingAt(b, 0, second));
    SplitIsReadings(a, b, first, second);
    StoryOutside(5, points);
    Decided(TimeWeightedAverage, 5, points);
    assert Map(points, AsTimed()) == FiveTimed(first, second);
    DecidedOnFour(After(TimeWeightedAverage, 5, points), 0, points, first, second, average);
  }

  /** No two readings share a time, yet the time-weighted average depends on which of two equal readings arrived
      first: the filter may drop only one of them, and they held for different times. */
  lemma SplitReadingsDecide()
    ensures var a, b := ReadingAt(1, 0, 100), ReadingAt(2, 0, 105);
      && Outside(Story(5, Split(a, b))) && Outside(Story(5, Split(b, a)))
      && multiset(Split(a, b)) == multiset(Split(b, a))
      && Decision(TimeWeightedAverage, 5, Split(a, b)) == Some(8)
      && Decision(TimeWeightedAverage, 5, Split(b, a)) == Some(7)
  {
    SplitDecided(1, 2, 100, 105, 8);
    SplitDecided(2, 1, 105, 100, 7);
    SwapTwo(ReadingAt(1, 0, 100), ReadingAt(2, 0, 105));
  }

  lemma SwapTwo<T>(a: T, b: T)
    ensures multiset([a, b]) == multiset([b, a])
  {
  }

  // ----- Readings of the same second -----

  lemma PairIsReadings(a: DataPoint, b: DataPoint)
    requires {a.oracle, b.oracle} == {1, 2} && a.confidence == b.confidence == 50 && a.timestamp == b.timestamp == 130
    ensures Readings(2, [a, b])
  {
    assert a.oracle in {1, 2} && b.oracle in {1, 2} && 1 in {a.oracle, b.oracle} && 2 in {a.oracle, b.oracle};
  }

  lemma TwoDecided(a: DataPoint, b: DataPoint)
    requires {a.oracle, b.oracle} == {1, 2} && a.confidence == b.confidence == 50 && a.timestamp == b.timestamp == 130
    requires Abs(a.value) <= 100 && Abs(b.value) <= 100
    ensures Decision(TimeWeightedAverage, 2, [a, b]) == Some(TimeAverage([Timed(a.value, 1, 130), Timed(b.value, 1, 130)], NOW))
  {
    PairIsReadings(a, b);
    var points, timed := [a, b], [Timed(a.value, 1, 130), Timed(b.value, 1, 130)];
    Decided(TimeWeightedAverage, 2, points);
    assert Map(points, AsTimed()) == timed;
    UnfilteredDecides(After(TimeWeightedAverage, 2, points), points, timed);
    SortedPair(timed);
  }

  lemma SortedPair(timed: seq<Timed>)
    requires |timed| == 2 && timed[0].time == timed[1].time
    ensures TimeWeightedOf(Map(timed, ReadingFn()), Map(timed, TimestampFn()), NOW) == TimeAverage(timed, NOW)
  {
    SortOfSorted(timed, ByTime());
    PairOfParts(timed);
  }

  /** Two readings of the same second: whichever arrived last is taken to hold until now. */
  lemma SameSecondDecides()
    ensures var a, b := ReadingAt(1, 0, 130), ReadingAt(2, 100, 130);
      && Outside(Story(2, [a, b])) && Outside(Story(2, [b, a]))
      && Decision(TimeWeightedAverage, 2, [a, b]) == Some(90) && Decision(TimeWeightedAverage, 2, [b, a]) == Some(9)
  {
    StoryOutside(2, [ReadingAt(1, 0, 130), ReadingAt(2, 100, 130)]);
    StoryOutside(2, [ReadingAt(2, 100, 130), ReadingAt(1, 0, 130)]);
    TwoDecided(ReadingAt(1, 0, 130), ReadingAt(2, 100, 130));
    TwoDecided(ReadingAt(2, 100, 130), ReadingAt(1, 0, 130));
    TieOrderMatters(130);
  }

  // ----- Saturating values -----

  lemma ThreeDecided(a: DataPoint, b: DataPoint, c: DataPoint)
    requires Readings(3, [a, b, c])
    ensures Decision(Mean, 3, [a, b, c])
            == Some(MeanOf([Median.Reading(a.value, 1), Median.Reading(b.value, 1), Median.Reading(c.value, 1)]))
  {
    var points := [a, b, c];
    Decided(Mean, 3, points);
    var timed := Map(points, AsTimed());
    UnfilteredDecides(After(Mean, 3, points), points, timed);
    assert Map(timed, ReadingFn()) == [Median.Reading(a.value, 1), Median.Reading(b.value, 1), Median.Reading(c.value, 1)];
  }

  lemma Rotated(a: DataPoint, b: DataPoint, c: DataPoint)
    ensures multiset([a, b, c]) == multiset([a, c, b])
  {
    assert [a, b, c] == [a] + [b, c] && [a, c, b] == [a] + [c, b];
    SwapTwo(b, c);
  }

  lemma ReadingsOfThree(a: Address, b: Address, c: Address, x: int, y: int, z: int)
    requires {a, b, c} == {1, 2, 3} && a != b && a != c && b != c
    ensures Readings(3, [ReadingAt(a, x, 110), ReadingAt(b, y, 110), ReadingAt(c, z, 110)])
  {
    assert a in {1, 2, 3} && b in {1, 2, 3} && c in {1, 2, 3};
  }

  /** Three readings that only a batch admits: the mean depends on the order in which their sum saturates. */
  lemma SaturationDecides()
    ensures var a, b, c := ReadingAt(1, I128_MAX, 110), ReadingAt(2, I128_MAX, 110), ReadingAt(3, I128_MIN, 110);
      && Outside(Story(3, [a, b, c])) && Outside(Story(3, [a, c, b]))
      && multiset([a, b, c]) == multiset([a, c, b])
      && Decision(Mean, 3, [a, b, c]).Some? && Decision(Mean, 3, [a, c, b]).Some?
      && Decision(Mean, 3, [a, b, c]) != Decision(Mean, 3, [a, c, b])
  {
    var a, b, c := ReadingAt(1, I128_MAX, 110), ReadingAt(2, I128_MAX, 110), ReadingAt(3, I128_MIN, 110);
    StoryOutside(3, [a, b, c]);
    StoryOutside(3, [a, c, b]);
    Rotated(a, b, c);
    ReadingsOfThree(1, 2, 3, I128_MAX, I128_MAX, I128_MIN);
    ReadingsOfThree(1, 3, 2, I128_MAX, I128_MIN, I128_MAX);
    ThreeDecided(a, b, c);
    ThreeDecided(a, c, b);
    MeanOrderMatters(Median.Reading(I128_MAX, 1), Median.Reading(I128_MIN, 1));
  }
}
