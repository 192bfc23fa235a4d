/** The outlier filter from outside: what its centre, its MAD and its cut are, by counting readings only. */
module FilterReference {
  import opened Arithmetic
  import opened Sequences
  import opened WeightedMedian
  import opened Averages
  import opened OutlierFilter

  // ----- The middle of a set of numbers -----

  function LessFn(v: int): int -> int {
    (x: int) => if x < v then 1 else 0
  }

  function GreaterFn(v: int): int -> int {
    (x: int) => if x > v then 1 else 0
  }

  /** How many lie strictly below and strictly above `v`. */
  function CountBelow(s: seq<int>, v: int): int {
    SumBy(s, LessFn(v))
  }

  function CountAbove(s: seq<int>, v: int): int {
    SumBy(s, GreaterFn(v))
  }

  /** At most (n - 1) / 2 lie below, at most n / 2 above. */
  ghost predicate IsLowerMiddle(s: seq<int>, v: int) {
    v in s && 2 * CountBelow(s, v) <= |s| - 1 && 2 * CountAbove(s, v) <= |s|
  }

  /** At most n / 2 lie below, at most (n - 1) / 2 above. */
  ghost predicate IsUpperMiddle(s: seq<int>, v: int) {
    v in s && 2 * CountBelow(s, v) <= |s| && 2 * CountAbove(s, v) <= |s| - 1
  }

  /** The midpoint of the two, truncated toward zero. */
  ghost predicate IsMiddle(s: seq<int>, m: int) {
    exists lo, hi :: IsLowerMiddle(s, lo) && IsUpperMiddle(s, hi) && m == TruncDiv(lo + hi, 2)
  }

  /** Their sum stays within i128; for an odd number of values none is formed. */
  ghost predicate MidpointFits(s: seq<int>) {
    forall lo, hi :: IsLowerMiddle(s, lo) && IsUpperMiddle(s, hi) && |s| % 2 == 0 ==> FitsI128(lo + hi)
  }

  lemma {:induction false} CountsCover(s: seq<int>, a: int, b: int)
    requires a < b
    ensures CountAbove(s, a) + CountBelow(s, b) >= |s|
  {
    if s != [] {
      CountsCover(s[1..], a, b);
    }
  }

  lemma LowerMiddleUnique(s: seq<int>, a: int, b: int)
    requires IsLowerMiddle(s, a) && IsLowerMiddle(s, b)
    ensures a == b
  {
    if a < b { CountsCover(s, a, b); }
    if b < a { CountsCover(s, b, a); }
  }

  lemma UpperMiddleUnique(s: seq<int>, a: int, b: int)
    requires IsUpperMiddle(s, a) && IsUpperMiddle(s, b)
    ensures a == b
  {
    if a < b { CountsCover(s, a, b); }
    if b < a { CountsCover(s, b, a); }
  }

  lemma {:induction false} CountsBounded(s: seq<int>, v: int)
    ensures 0 <= CountBelow(s, v) <= |s| && 0 <= CountAbove(s, v) <= |s|
  {
    if s != [] {
      CountsBounded(s[1..], v);
    }
  }

  lemma {:induction false} NoneBelow(s: seq<int>, v: int)
    requires forall i :: 0 <= i < |s| ==> s[i] >= v
    ensures CountBelow(s, v) == 0
  {
    if s != [] {
      NoneBelow(s[1..], v);
    }
  }

  lemma {:induction false} NoneAbove(s: seq<int>, v: int)
    requires forall i :: 0 <= i < |s| ==> s[i] <= v
    ensures CountAbove(s, v) == 0
  {
    if s != [] {
      NoneAbove(s[1..], v);
    }
  }

  /** In a sorted sequence the position bounds the counts. */
  lemma CountsAt(s: seq<int>, k: nat)
    requires k < |s| && SortedBy(s, Ascending())
    ensures CountBelow(s, s[k]) <= k && CountAbove(s, s[k]) <= |s| - 1 - k
  {
    assert s == s[..k] + s[k..] == s[..k + 1] + s[k + 1..];
    var tail := s[k..];
    forall i | 0 <= i < |tail| ensures tail[i] >= s[k] {
      assert i > 0 ==> Ascending()(s[k], s[k + i]);
    }
    var head := s[..k + 1];
    forall i | 0 <= i < |head| ensures head[i] <= s[k] {
      assert i < k ==> Ascending()(s[i], s[k]);
    }
    NoneBelow(tail, s[k]);
    NoneAbove(head, s[k]);
    SumByAppend(s[..k], s[k..], LessFn(s[k]));
    SumByAppend(s[..k + 1], s[k + 1..], GreaterFn(s[k]));
    CountsBounded(s[..k], s[k]);
    CountsBounded(s[k + 1..], s[k]);
  }

  /** The middle elements of the sorted values are the two middles of the values. */
  lemma SortedMiddles(s: seq<int>)
    requires s != []
    ensures |Sort(s, Ascending())| == |s|
    ensures IsLowerMiddle(s, Sort(s, Ascending())[(|s| - 1) / 2]) && IsUpperMiddle(s, Sort(s, Ascending())[|s| / 2])
  {
    SortSorts(s, Ascending());
    var t, k, l := Sort(s, Ascending()), (|s| - 1) / 2, |s| / 2;
    CountsAt(t, k);
    CountsAt(t, l);
    assert t[k] in multiset(s) && t[l] in multiset(s) by {
      assert t[k] in multiset(t) && t[l] in multiset(t);
    }
    SumByPermutation(s, t, LessFn(t[k]));
    SumByPermutation(s, t, GreaterFn(t[k]));
    SumByPermutation(s, t, LessFn(t[l]));
    SumByPermutation(s, t, GreaterFn(t[l]));
  }

  /** What the filter takes as the middle is the midpoint of the two middles, and nothing else is. */
  lemma MiddleExactly(s: seq<int>, m: int)
    requires s != []
    ensures IsMiddle(s, m) <==> m == MiddleOf(s)
    ensures MiddleFits(s) <==> MidpointFits(s)
  {
    SortedMiddles(s);
    var t := Sort(s, Ascending());
    var lo, hi := t[(|s| - 1) / 2], t[|s| / 2];
    forall a, b | IsLowerMiddle(s, a) && IsUpperMiddle(s, b) ensures a == lo && b == hi {
      LowerMiddleUnique(s, a, lo);
      UpperMiddleUnique(s, b, hi);
    }
    assert MiddleOf(s) == TruncDiv(lo + hi, 2) by {
      if |s| % 2 == 1 {
        assert lo == hi && TruncDiv(hi + hi, 2) == hi;
      }
    }
  }

  /** An odd number of values has one middle, which is among them. */
  lemma OddMiddle(s: seq<int>, m: int)
    requires |s| % 2 == 1
    ensures IsMiddle(s, m) <==> IsLowerMiddle(s, m) && IsUpperMiddle(s, m)
  {
    SortedMiddles(s);
    var v := Sort(s, Ascending())[|s| / 2];
    forall a | IsLowerMiddle(s, a) || IsUpperMiddle(s, a) ensures a == v {
      if IsLowerMiddle(s, a) {
        LowerMiddleUnique(s, a, v);
      } else {
        UpperMiddleUnique(s, a, v);
      }
    }
    assert TruncDiv(v + v, 2) == v;
  }

  // ----- Centre and MAD -----

  function ValuesOf(rs: seq<Reading>): (vs: seq<int>)
    ensures |vs| == |rs|
  {
    seq(|rs|, i requires 0 <= i < |rs| => rs[i].value)
  }

  /** The distances of the readings from `c`. */
  function DistancesFrom(rs: seq<Reading>, c: int): (ds: seq<int>)
    ensures |ds| == |rs|
  {
    seq(|rs|, i requires 0 <= i < |rs| => if rs[i].value >= c then rs[i].value - c else c - rs[i].value)
  }

  /** The centre is the middle of the values. */
  lemma CenterExactly(rs: seq<Reading>, c: int)
    requires rs != []
    ensures IsMiddle(ValuesOf(rs), c) <==> c == Center(rs)
  {
    assert ValuesOf(rs) == Map(rs, ValueFn());
    MiddleExactly(ValuesOf(rs), c);
  }

  /** The MAD is the middle of their distances from it. */
  lemma MadExactly(rs: seq<Reading>, c: int, m: int)
    requires rs != [] && IsMiddle(ValuesOf(rs), c)
    ensures IsMiddle(DistancesFrom(rs, c), m) <==> m == Mad(rs)
  {
    CenterExactly(rs, c);
    assert DistancesFrom(rs, c) == Map(rs, DeviationFn(c));
    MiddleExactly(DistancesFrom(rs, c), m);
  }

  // ----- The cut -----

  predicate IsFiltered(cfg: OutlierConfig, n: nat) {
    cfg.enabled && n >= 3 && n >= cfg.minSampleSize
  }

  /** Ten thousand times the distance exceeds the threshold times the MAD; a threshold beyond i128 is never exceeded. */
  predicate IsFar(cfg: OutlierConfig, distance: int, mad: int) {
    distance * 10_000 > cfg.thresholdBps * mad && cfg.thresholdBps * mad < I128_MAX
  }

  /** `a` is rejected before `b`: it is farther from the centre, or as far and smaller, or equal and no heavier. */
  predicate RejectedFirst(a: Reading, b: Reading, da: int, db: int) {
    da > db || (da == db && (a.value < b.value || (a.value == b.value && a.weight <= b.weight)))
  }

  /** What a mask of rejections has to satisfy: whatever is rejected is far and comes before all that stays, and either
      all that is far was rejected, or the minimum sample stays. */
  ghost predicate RejectsFar(cfg: OutlierConfig, rs: seq<Reading>, ds: seq<int>, mad: int, drop: seq<bool>)
    requires |rs| == |ds| == |drop|
  {
    var kept, least := |Keep(rs, drop)|, if cfg.minSampleSize > 1 then cfg.minSampleSize else 1;
    && kept >= least
    && (forall i :: 0 <= i < |rs| && drop[i] ==> IsFar(cfg, ds[i], mad))
    && (forall i, j :: 0 <= i < |rs| && 0 <= j < |rs| && drop[i] && !drop[j] ==> RejectedFirst(rs[i], rs[j], ds[i], ds[j]))
    && (forall j :: 0 <= j < |rs| && !drop[j] && IsFar(cfg, ds[j], mad) ==> kept == least)
  }

  lemma FarExactly(cfg: OutlierConfig, distance: int, mad: int)
    requires distance >= 0 && mad >= 0
    ensures Exceeds(cfg, distance, mad) <==> IsFar(cfg, distance, mad)
  {
    MulMono(0, distance, BPS);
    MulMono(0, cfg.thresholdBps, mad);
  }

  lemma MadNonNegative(rs: seq<Reading>)
    requires rs != []
    ensures Mad(rs) >= 0
  {
    var ds := Map(rs, DeviationFn(Center(rs)));
    SortSorts(ds, Ascending());
    var sorted, n := Sort(ds, Ascending()), |rs|;
    forall i | 0 <= i < n ensures sorted[i] >= 0 {
      assert sorted[i] in multiset(ds);
    }
  }

  lemma RejectedIsFar(cfg: OutlierConfig, rs: seq<Reading>, k: nat, i: nat)
    requires rs != [] && IsCut(cfg, rs, k) && i < |rs| && Marked(rs, k)[i]
    ensures IsFar(cfg, Abs(rs[i].value - Center(rs)), Mad(rs))
  {
    var p := Position(rs, i, k);
    assert RankExceeds(cfg, rs, p);
    MadNonNegative(rs);
    FarExactly(cfg, Abs(rs[i].value - Center(rs)), Mad(rs));
  }

  lemma RejectedBefore(cfg: OutlierConfig, rs: seq<Reading>, k: nat, i: nat, j: nat)
    requires rs != [] && IsCut(cfg, rs, k) && i < |rs| && j < |rs| && Marked(rs, k)[i] && !Marked(rs, k)[j]
    ensures RejectedFirst(rs[i], rs[j], Abs(rs[i].value - Center(rs)), Abs(rs[j].value - Center(rs)))
  {
    var p := Position(rs, i, k);
    var q := Position(rs, j, k);
    RankedFacts(rs);
    assert WorstFirst(Center(rs))(Ranked(rs)[p], Ranked(rs)[q]);
  }

  lemma KeptFar(cfg: OutlierConfig, rs: seq<Reading>, k: nat, j: nat)
    requires rs != [] && IsCut(cfg, rs, k) && j < |rs| && !Marked(rs, k)[j]
    requires IsFar(cfg, Abs(rs[j].value - Center(rs)), Mad(rs))
    ensures k == |rs| - MinKeep(cfg)
  {
    MadNonNegative(rs);
    FarExactly(cfg, Abs(rs[j].value - Center(rs)), Mad(rs));
    KeptOverThreshold(cfg, rs, k, j);
  }

  lemma CutRejectsFar(cfg: OutlierConfig, rs: seq<Reading>, k: nat)
    requires rs != [] && IsCut(cfg, rs, k)
    ensures RejectsFar(cfg, rs, DistancesFrom(rs, Center(rs)), Mad(rs), Marked(rs, k))
  {
    var drop, ds := Marked(rs, k), DistancesFrom(rs, Center(rs));
    MarkedCount(rs, k);
    forall i | 0 <= i < |rs| && drop[i] ensures IsFar(cfg, ds[i], Mad(rs)) {
      RejectedIsFar(cfg, rs, k, i);
    }
    forall i, j | 0 <= i < |rs| && 0 <= j < |rs| && drop[i] && !drop[j] ensures RejectedFirst(rs[i], rs[j], ds[i], ds[j]) {
      RejectedBefore(cfg, rs, k, i, j);
    }
    forall j | 0 <= j < |rs| && !drop[j] && IsFar(cfg, ds[j], Mad(rs)) ensures |Keep(rs, drop)| == MinKeep(cfg) {
      KeptFar(cfg, rs, k, j);
    }
  }

  /** The filter, for whatever centre and MAD the counts single out: disabled or with too few readings it rejects
      nothing; otherwise its mask rejects the far ones, farthest first, down to the minimum sample. */
  lemma FilterByCounting(cfg: OutlierConfig, rs: seq<Reading>, c: int, m: int)
    requires rs != [] && IsMiddle(ValuesOf(rs), c) && IsMiddle(DistancesFrom(rs, c), m)
    ensures !IsFiltered(cfg, |rs|) ==> forall i :: 0 <= i < |rs| ==> !Outliers(cfg, rs)[i]
    ensures IsFiltered(cfg, |rs|) ==> RejectsFar(cfg, rs, DistancesFrom(rs, c), m, Outliers(cfg, rs))
  {
    CenterExactly(rs, c);
    MadExactly(rs, c, m);
    if IsFiltered(cfg, |rs|) {
      OrderLength(rs);
      var k := FindCut(cfg, rs, 0);
      OutliersAtCut(cfg, rs, k);
      CutRejectsFar(cfg, rs, k);
    }
  }

  /** Such a centre and such a MAD always exist. */
  lemma MiddlesExist(rs: seq<Reading>) returns (c: int, m: int)
    requires rs != []
    ensures IsMiddle(ValuesOf(rs), c) && IsMiddle(DistancesFrom(rs, c), m)
  {
    c, m := Center(rs), Mad(rs);
    CenterExactly(rs, c);
    MadExactly(rs, c, m);
  }

  lemma DistanceFits(value: int, c: int)
    ensures DeviationFits(value, c) <==> FitsI128(value - c) && value - c != I128_MIN
  {
  }

  /** It aborts exactly when it applies and the midpoint of the values, a distance, or the midpoint of the distances
      leaves i128. */
  lemma FilterFitsExactly(cfg: OutlierConfig, rs: seq<Reading>, c: int)
    requires rs != [] && IsMiddle(ValuesOf(rs), c)
    ensures FilterFits(cfg, rs) <==>
            (IsFiltered(cfg, |rs|) ==>
               && MidpointFits(ValuesOf(rs)) && MidpointFits(DistancesFrom(rs, c))
               && forall i :: 0 <= i < |rs| ==> FitsI128(rs[i].value - c) && rs[i].value - c != I128_MIN)
  {
    CenterExactly(rs, c);
    assert ValuesOf(rs) == Map(rs, ValueFn()) && DistancesFrom(rs, c) == Map(rs, DeviationFn(c));
    MiddleExactly(ValuesOf(rs), c);
    MiddleExactly(DistancesFrom(rs, c), 0);
    forall i | 0 <= i < |rs|
      ensures DeviationFits(rs[i].value, c) <==> FitsI128(rs[i].value - c) && rs[i].value - c != I128_MIN
    {
      DistanceFits(rs[i].value, c);
    }
  }
}
