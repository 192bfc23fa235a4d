/** The in-place filter over the stack buffers of the aggregation, proved against OutlierFilter. */
module OutlierRejection {
  import opened Arithmetic
  import opened Sequences
  import opened WeightedMedian
  import opened Averages
  import opened OutlierFilter
  import opened FilterReference

  /** Sorts a scratch buffer in place and picks its middle; an overflowing midpoint aborts. */
  method PickMiddle(buffer: array<int>, n: nat) returns (middle: Option<int>)
    requires 0 < n <= buffer.Length
    modifies buffer
    ensures middle == if MiddleFits(old(buffer[..n])) then Some(MiddleOf(old(buffer[..n]))) else None
    ensures middle.Some? <==> FilterReference.MidpointFits(old(buffer[..n]))
    ensures middle.Some? ==> IsMiddle(old(buffer[..n]), middle.value)
  {
    ghost var s := buffer[..n];
    MiddleExactly(s, MiddleOf(s));
    SortPrefix(buffer, n, Ascending());
    assert buffer[..n] == Sort(s, Ascending());
    if n % 2 == 1 {
      middle := Some(buffer[n / 2]);
    } else {
      var sum := buffer[n / 2 - 1] + buffer[n / 2];
      middle := if FitsI128(sum) then Some(TruncDiv(sum, 2)) else None;
    }
  }

  method ComputeCenter(values: array<Reading>, n: nat) returns (center: Option<int>)
    requires 0 < n <= values.Length && n <= MAX_DATA_POINTS
    ensures center == if MiddleFits(Map(values[..n], ValueFn())) then Some(Center(values[..n])) else None
    ensures center.Some? ==> IsMiddle(ValuesOf(values[..n]), center.value)
  {
    var sortedVals := new int[MAX_DATA_POINTS];
    for i := 0 to n
      modifies sortedVals
      invariant forall j :: 0 <= j < i ==> sortedVals[j] == values[j].value
    {
      sortedVals[i] := values[i].value;
    }
    assert sortedVals[..n] == Map(values[..n], ValueFn()) == ValuesOf(values[..n]);
    center := PickMiddle(sortedVals, n);
  }

  /** None when a deviation or the midpoint of the middle two overflows. */
  method ComputeMad(values: array<Reading>, n: nat, center: int) returns (mad: Option<int>)
    requires 0 < n <= values.Length && n <= MAX_DATA_POINTS && center == Center(values[..n])
    ensures mad.Some? <==>
            && (forall i :: 0 <= i < n ==> DeviationFits(values[i].value, center))
            && MiddleFits(Map(values[..n], DeviationFn(center)))
    ensures mad.Some? ==> mad.value == Mad(values[..n]) && IsMiddle(DistancesFrom(values[..n], center), mad.value)
  {
    var deviations := new int[MAX_DATA_POINTS];
    for i := 0 to n
      modifies deviations
      invariant forall j :: 0 <= j < i ==> DeviationFits(values[j].value, center)
      invariant forall j :: 0 <= j < i ==> deviations[j] == Abs(values[j].value - center)
    {
      var deviation := values[i].value - center;
      if !FitsI128(deviation) || !FitsI128(Abs(deviation)) { return None; }
      deviations[i] := Abs(deviation);
    }
    assert deviations[..n] == Map(values[..n], DeviationFn(center)) == DistancesFrom(values[..n], center);
    mad := PickMiddle(deviations, n);
  }

  method ComputeOrder(values: array<Reading>, n: nat, center: int) returns (order: array<nat>)
    requires 0 < n <= values.Length && n <= MAX_DATA_POINTS && center == Center(values[..n])
    ensures fresh(order) && order.Length >= n && order[..n] == Order(values[..n])
  {
    order := new nat[MAX_DATA_POINTS];
    for i := 0 to n
      modifies order
      invariant forall j :: 0 <= j < i ==> order[j] == j
    {
      order[i] := i;
    }
    assert order[..n] == Indices(n);
    SortPrefix(order, n, RankOrder(values[..n], center));
  }

  /** Flagging the next index of the ranking. */
  lemma FlagNext(rs: seq<Reading>, flagged: nat)
    requires rs != [] && |Order(rs)| == |rs| && flagged < |rs|
    ensures Order(rs)[flagged] < |rs| && Ranked(rs)[flagged] == rs[Order(rs)[flagged]]
    ensures Marked(rs, flagged + 1) == Marked(rs, flagged)[Order(rs)[flagged] := true]
  {
    OrderFacts(rs);
    MarkNext(|rs|, Order(rs), flagged);
  }

  /** Walks the ranking, flagging while the deviation exceeds the threshold and more than the minimum
      sample would remain. */
  method FlagOutliers(cfg: OutlierConfig, rs: seq<Reading>, order: seq<nat>, center: int, mad: int)
    returns (isOutlier: array<bool>, flagged: nat)
    requires Applies(cfg, |rs|) && |rs| <= MAX_DATA_POINTS
    requires center == Center(rs) && mad == Mad(rs) && order == Order(rs)
    ensures fresh(isOutlier) && isOutlier.Length >= |rs|
    ensures isOutlier[..|rs|] == Outliers(cfg, rs)
    ensures flagged <= |rs| && (flagged == 0 ==> forall i :: 0 <= i < |rs| ==> !isOutlier[i])
  {
    var n, minKeep := |rs|, MinKeep(cfg);
    OrderLength(rs);
    isOutlier := new bool[MAX_DATA_POINTS](_ => false);
    flagged := 0;
    while flagged < n
      modifies isOutlier
      invariant flagged <= n - minKeep
      invariant isOutlier[..n] == Marked(rs, flagged)
      invariant AllExceed(cfg, rs, flagged)
    {
      if n - flagged <= minKeep {
        break;
      }
      FlagNext(rs, flagged);
      var i := order[flagged];
      var deviation := Abs(rs[i].value - center);
      if SatMul(deviation, BPS) > SatMul(cfg.thresholdBps, mad) {
        OneMoreExceeds(cfg, rs, flagged);
        isOutlier[i] := true;
        flagged := flagged + 1;
      } else {
        break;
      }
    }
    OutliersAtCut(cfg, rs, flagged);
  }

  /** Moves one entry down, in both buffers. */
  method Retain(values: array<Reading>, timestamps: array<nat>, read: nat, write: nat)
    requires write <= read < values.Length && read < timestamps.Length
    modifies values, timestamps
    ensures values[..write + 1] == old(values[..write]) + [old(values[read])]
    ensures timestamps[..write + 1] == old(timestamps[..write]) + [old(timestamps[read])]
    ensures forall i :: read < i < values.Length ==> values[i] == old(values[i])
    ensures forall i :: read < i < timestamps.Length ==> timestamps[i] == old(timestamps[i])
  {
    values[write] := values[read];
    timestamps[write] := timestamps[read];
  }

  method Compact(values: array<Reading>, timestamps: array<nat>, n: nat, isOutlier: array<bool>) returns (write: nat)
    requires n <= values.Length && n <= timestamps.Length && n <= isOutlier.Length
    modifies values, timestamps
    ensures write == |Keep(old(values[..n]), isOutlier[..n])| == |Keep(old(timestamps[..n]), isOutlier[..n])| <= n
    ensures values[..write] == Keep(old(values[..n]), isOutlier[..n])
    ensures timestamps[..write] == Keep(old(timestamps[..n]), isOutlier[..n])
  {
    ghost var rs, ts, drop := values[..n], timestamps[..n], isOutlier[..n];
    write := 0;
    for read := 0 to n
      invariant write <= read
      invariant write == |Keep(rs[..read], drop[..read])| == |Keep(ts[..read], drop[..read])|
      invariant values[..write] == Keep(rs[..read], drop[..read])
      invariant timestamps[..write] == Keep(ts[..read], drop[..read])
      invariant forall i :: read <= i < n ==> values[i] == rs[i] && timestamps[i] == ts[i]
    {
      assert rs[..read + 1] == rs[..read] + [rs[read]];
      assert ts[..read + 1] == ts[..read] + [ts[read]];
      assert drop[..read + 1] == drop[..read] + [drop[read]];
      KeepAppend(rs[..read], drop[..read], rs[read], drop[read]);
      KeepAppend(ts[..read], drop[..read], ts[read], drop[read]);
      if !isOutlier[read] {
        Retain(values, timestamps, read, write);
        write := write + 1;
      }
    }
    assert rs[..n] == rs && ts[..n] == ts && drop[..n] == drop;
  }

  /** Centre and MAD; an overflow on the way aborts. */
  method Measure(values: array<Reading>, n: nat) returns (ok: bool, center: int, mad: int)
    requires 0 < n <= values.Length && n <= MAX_DATA_POINTS
    ensures ok <==>
            && MiddleFits(Map(values[..n], ValueFn()))
            && (forall i :: 0 <= i < n ==> DeviationFits(values[i].value, Center(values[..n])))
            && MiddleFits(Map(values[..n], DeviationFn(Center(values[..n]))))
    ensures ok ==> center == Center(values[..n]) && mad == Mad(values[..n])
  {
    ok, center, mad := false, 0, 0;
    var middle := ComputeCenter(values, n);
    if middle.Some? {
      center := middle.value;
      var spread := ComputeMad(values, n, center);
      if spread.Some? {
        ok, mad := true, spread.value;
      }
    }
  }

  /** Measures, ranks and flags. */
  method RankAndFlag(cfg: OutlierConfig, values: array<Reading>, n: nat)
    returns (ok: bool, isOutlier: array<bool>, flagged: nat)
    requires n <= values.Length && n <= MAX_DATA_POINTS && Applies(cfg, n)
    ensures fresh(isOutlier) && isOutlier.Length >= n && flagged <= n
    ensures ok <==> FilterFits(cfg, values[..n])
    ensures ok ==> isOutlier[..n] == Outliers(cfg, values[..n])
    ensures ok && flagged == 0 ==> forall i :: 0 <= i < n ==> !isOutlier[i]
  {
    isOutlier := new bool[n];
    flagged := 0;
    var center, mad;
    ok, center, mad := Measure(values, n);
    if ok {
      var order := ComputeOrder(values, n, center);
      isOutlier, flagged := FlagOutliers(cfg, values[..n], order[..n], center, mad);
    }
  }

  /** The survivors move to the front of both buffers, in order and with each value still beside its
      timestamp, unless an overflow aborts. */
  method FilterOutliers(cfg: OutlierConfig, values: array<Reading>, timestamps: array<nat>, n: nat) returns (ok: bool, kept: nat)
    requires n <= values.Length && n <= timestamps.Length && n <= MAX_DATA_POINTS
    modifies values, timestamps
    ensures ok <==> FilterFits(cfg, old(values[..n]))
    ensures kept <= n
    ensures ok ==> values[..kept] == Keep(old(values[..n]), Outliers(cfg, old(values[..n])))
    ensures ok ==> timestamps[..kept] == Keep(old(timestamps[..n]), Outliers(cfg, old(values[..n])))
  {
    ghost var rs, ts := values[..n], timestamps[..n];
    if !cfg.enabled || n < 3 || n < cfg.minSampleSize {
      KeepNone(rs, Outliers(cfg, rs));
      KeepNone(ts, Outliers(cfg, rs));
      return true, n;
    }
    var fits, isOutlier, flagged := RankAndFlag(cfg, values, n);
    if !fits { return false, 0; }
    if flagged == 0 {
      KeepNone(rs, Outliers(cfg, rs));
      KeepNone(ts, Outliers(cfg, rs));
      return true, n;
    }
    kept := Compact(values, timestamps, n, isOutlier);
    ok := true;
  }
}
