/** Rejection of statistical outliers by their distance from the median, measured in median absolute
    deviations (MAD), worst offenders first and never below the minimum sample. */
module OutlierFilter {
  import opened Arithmetic
  import opened Sequences
  import opened WeightedMedian
  import opened Averages

  datatype OutlierConfig = OutlierConfig(enabled: bool, thresholdBps: nat, minSampleSize: nat)

  function Ascending(): (int, int) -> bool {
    (a: int, b: int) => a <= b
  }

  /** The middle of a sorted slice: its middle element, or the truncated midpoint of the middle two. */
  function Middle(sorted: seq<int>): int
    requires sorted != []
  {
    var n := |sorted|;
    if n % 2 == 1 then sorted[n / 2] else TruncDiv(sorted[n / 2 - 1] + sorted[n / 2], 2)
  }

  function MiddleOf(s: seq<int>): int
    requires s != []
  {
    SortLength(s, Ascending());
    Middle(Sort(s, Ascending()))
  }

  function DeviationFn(center: int): Reading -> int {
    (r: Reading) => Abs(r.value - center)
  }

  function Center(rs: seq<Reading>): int
    requires rs != []
  {
    MiddleOf(Map(rs, ValueFn()))
  }

  function Mad(rs: seq<Reading>): int
    requires rs != []
  {
    MiddleOf(Map(rs, DeviationFn(Center(rs))))
  }

  predicate Exceeds(cfg: OutlierConfig, deviation: int, mad: int) {
    SatMul(deviation, BPS) > SatMul(cfg.thresholdBps, mad)
  }

  /** Largest deviation first; ties by value, then weight, so that ranking ignores submission order. */
  function WorstFirst(center: int): (Reading, Reading) -> bool {
    (a: Reading, b: Reading) =>
      var da, db := Abs(a.value - center), Abs(b.value - center);
      da > db || (da == db && (a.value < b.value || (a.value == b.value && a.weight <= b.weight)))
  }

  function AtFn(rs: seq<Reading>): nat -> Reading {
    (i: nat) => if i < |rs| then rs[i] else Reading(0, 0)
  }

  function RankOrder(rs: seq<Reading>, center: int): (nat, nat) -> bool {
    (a: nat, b: nat) => WorstFirst(center)(AtFn(rs)(a), AtFn(rs)(b))
  }

  function Indices(n: nat): (r: seq<nat>)
    ensures |r| == n && forall i :: 0 <= i < n ==> r[i] == i
  {
    seq(n, i => i)
  }

  /** The indices of the readings, most deviant first. */
  function Order(rs: seq<Reading>): seq<nat>
    requires rs != []
  {
    Sort(Indices(|rs|), RankOrder(rs, Center(rs)))
  }

  predicate Applies(cfg: OutlierConfig, n: nat) {
    cfg.enabled && n >= 3 && n >= cfg.minSampleSize
  }

  function MinKeep(cfg: OutlierConfig): nat {
    Max(cfg.minSampleSize, 1)
  }

  /** The reference definition: drop a reading when it exceeds the threshold and is among the
      n - MinKeep most deviant ones. */
  function Outliers(cfg: OutlierConfig, rs: seq<Reading>): (drop: seq<bool>)
    ensures |drop| == |rs|
  {
    if !Applies(cfg, |rs|) then seq(|rs|, i => false)
    else
      OrderLength(rs);
      var center, mad, worst := Center(rs), Mad(rs), Order(rs)[..|rs| - MinKeep(cfg)];
      seq(|rs|, i requires 0 <= i < |rs| => Exceeds(cfg, Abs(rs[i].value - center), mad) && i in worst)
  }

  lemma OrderLength(rs: seq<Reading>)
    requires rs != []
    ensures |Order(rs)| == |rs|
  {
    SortLength(Indices(|rs|), RankOrder(rs, Center(rs)));
  }

  // ----- Overflow -----

  /** The plain sum behind the midpoint of the middle two stays within i128. */
  predicate MiddleFits(s: seq<int>)
    requires s != []
  {
    SortLength(s, Ascending());
    var sorted, n := Sort(s, Ascending()), |s|;
    n % 2 == 0 ==> FitsI128(sorted[n / 2 - 1] + sorted[n / 2])
  }

  predicate DeviationFits(v: int, center: int) {
    FitsI128(v - center) && FitsI128(Abs(v - center))
  }

  /** Whether the filter gets through without an overflow, which would abort. */
  ghost predicate FilterFits(cfg: OutlierConfig, rs: seq<Reading>) {
    Applies(cfg, |rs|) ==>
      && MiddleFits(Map(rs, ValueFn()))
      && (forall i :: 0 <= i < |rs| ==> DeviationFits(rs[i].value, Center(rs)))
      && MiddleFits(Map(rs, DeviationFn(Center(rs))))
  }

  lemma BoundedMiddle(s: seq<int>, bound: nat)
    requires s != [] && 2 * bound <= I128_MAX && forall i :: 0 <= i < |s| ==> Abs(s[i]) <= bound
    ensures MiddleFits(s) && Abs(MiddleOf(s)) <= bound
  {
    SortSorts(s, Ascending());
    var sorted, n := Sort(s, Ascending()), |s|;
    forall i | 0 <= i < |sorted| ensures Abs(sorted[i]) <= bound {
      assert sorted[i] in multiset(s);
    }
    if n % 2 == 0 {
      TruncDivHull(sorted[n / 2 - 1] + sorted[n / 2], 2, -(bound as int), bound);
    }
  }

  /** Values within a quarter of the range never overflow. */
  lemma SmallValuesPass(cfg: OutlierConfig, rs: seq<Reading>, bound: nat)
    requires 4 * bound <= I128_MAX && forall i :: 0 <= i < |rs| ==> Abs(rs[i].value) <= bound
    ensures FilterFits(cfg, rs)
  {
    if Applies(cfg, |rs|) {
      BoundedMiddle(Map(rs, ValueFn()), bound);
      BoundedMiddle(Map(rs, DeviationFn(Center(rs))), 2 * bound);
    }
  }

  lemma SameMiddleFits(a: seq<int>, b: seq<int>)
    requires a != [] && b != [] && multiset(a) == multiset(b)
    ensures MiddleFits(a) == MiddleFits(b)
  {
    assert |a| == |multiset(a)| == |multiset(b)| == |b|;
    SameSort(a, b);
  }

  /** Whether it overflows depends on the values alone, not on weights or order. */
  lemma FitsByValues(cfg: OutlierConfig, rs: seq<Reading>, qs: seq<Reading>)
    requires multiset(Map(rs, ValueFn())) == multiset(Map(qs, ValueFn()))
    ensures FilterFits(cfg, rs) == FilterFits(cfg, qs)
  {
    assert |rs| == |multiset(Map(rs, ValueFn()))| == |multiset(Map(qs, ValueFn()))| == |qs|;
    if Applies(cfg, |rs|) {
      CenterOfPermutation(rs, qs);
      SameMiddleFits(Map(rs, ValueFn()), Map(qs, ValueFn()));
      SameDeviations(rs, qs, Center(rs));
      SameMiddleFits(Map(rs, DeviationFn(Center(rs))), Map(qs, DeviationFn(Center(rs))));
      DeviationsCarry(rs, qs, Center(rs));
      DeviationsCarry(qs, rs, Center(rs));
    }
  }

  lemma SameDeviations(rs: seq<Reading>, qs: seq<Reading>, center: int)
    requires multiset(Map(rs, ValueFn())) == multiset(Map(qs, ValueFn()))
    ensures multiset(Map(rs, DeviationFn(center))) == multiset(Map(qs, DeviationFn(center)))
  {
    var f := (v: int) => Abs(v - center);
    MapPermutation(Map(rs, ValueFn()), Map(qs, ValueFn()), f);
    assert Map(Map(rs, ValueFn()), f) == Map(rs, DeviationFn(center));
    assert Map(Map(qs, ValueFn()), f) == Map(qs, DeviationFn(center));
  }

  lemma DeviationsCarry(rs: seq<Reading>, qs: seq<Reading>, center: int)
    requires multiset(Map(rs, ValueFn())) == multiset(Map(qs, ValueFn()))
    ensures (forall i :: 0 <= i < |rs| ==> DeviationFits(rs[i].value, center))
            ==> forall i :: 0 <= i < |qs| ==> DeviationFits(qs[i].value, center)
  {
    var vs, us := Map(rs, ValueFn()), Map(qs, ValueFn());
    forall i | (forall k :: 0 <= k < |rs| ==> DeviationFits(rs[k].value, center)) && 0 <= i < |qs|
      ensures DeviationFits(qs[i].value, center)
    {
      assert us[i] in multiset(vs);
      var j :| 0 <= j < |vs| && vs[j] == us[i];
    }
  }

  // ----- Facts about the ranking -----

  lemma ExceedsMono(cfg: OutlierConfig, d: int, e: int, mad: int)
    requires d <= e && Exceeds(cfg, d, mad)
    ensures Exceeds(cfg, e, mad)
  {
    MulMono(d, e, BPS);
  }

  lemma {:induction false} IndicesMultiset(n: nat, i: nat)
    ensures multiset(Indices(n))[i] == if i < n then 1 else 0
  {
    if n > 0 {
      assert Indices(n) == Indices(n - 1) + [n - 1];
      IndicesMultiset(n - 1, i);
    }
  }

  lemma RankOrderIsPreorder(rs: seq<Reading>, center: int)
    ensures TotalPreorder(RankOrder(rs, center))
  {
    var worst, leq, at := WorstFirst(center), RankOrder(rs, center), AtFn(rs);
    forall a: nat, b: nat ensures leq(a, b) || leq(b, a) {
      assert worst(at(a), at(b)) || worst(at(b), at(a));
    }
    forall a: nat, b: nat, c: nat | leq(a, b) && leq(b, c) ensures leq(a, c) {
      assert worst(at(a), at(b)) && worst(at(b), at(c));
    }
  }

  /** Every index occurs in the ranking exactly once, and deviations only fall along it. */
  lemma OrderFacts(rs: seq<Reading>)
    requires rs != []
    ensures |Order(rs)| == |rs|
    ensures multiset(Order(rs)) == multiset(Indices(|rs|))
    ensures forall p :: 0 <= p < |rs| ==> Order(rs)[p] < |rs|
    ensures forall p, q :: 0 <= p < q < |rs| ==> Order(rs)[p] != Order(rs)[q]
    ensures forall i :: 0 <= i < |rs| ==> i in Order(rs)
    ensures SortedBy(Order(rs), RankOrder(rs, Center(rs)))
  {
    var n, order := |rs|, Order(rs);
    RankOrderIsPreorder(rs, Center(rs));
    SortSorts(Indices(n), RankOrder(rs, Center(rs)));
    forall p | 0 <= p < n ensures order[p] < n {
      assert order[p] in multiset(order);
      IndicesMultiset(n, order[p]);
    }
    forall p, q | 0 <= p < q < n ensures order[p] != order[q] {
      IndicesMultiset(n, order[p]);
      if order[p] == order[q] {
        OccursTwice(order, p, q);
      }
    }
    forall i | 0 <= i < n ensures i in order {
      IndicesMultiset(n, i);
      assert i in multiset(order);
    }
  }

  lemma OccursTwice(s: seq<nat>, p: nat, q: nat)
    requires p < q < |s| && s[p] == s[q]
    ensures multiset(s)[s[p]] >= 2
  {
    assert s == s[..p] + [s[p]] + s[p + 1..q] + [s[q]] + s[q + 1..];
  }

  function Ranked(rs: seq<Reading>): seq<Reading>
    requires rs != []
  {
    Map(Order(rs), AtFn(rs))
  }

  /** The ranking lists the readings themselves, sorted by a total order on readings. */
  lemma RankedFacts(rs: seq<Reading>)
    requires rs != []
    ensures |Ranked(rs)| == |rs| && multiset(Ranked(rs)) == multiset(rs)
    ensures SortedBy(Ranked(rs), WorstFirst(Center(rs)))
  {
    OrderFacts(rs);
    MapPermutation(Order(rs), Indices(|rs|), AtFn(rs));
    assert Map(Indices(|rs|), AtFn(rs)) == rs;
    forall p, q | 0 <= p < q < |rs| ensures WorstFirst(Center(rs))(Ranked(rs)[p], Ranked(rs)[q]) {
      assert RankOrder(rs, Center(rs))(Order(rs)[p], Order(rs)[q]);
    }
  }

  function Marks(n: nat, chosen: seq<nat>): (drop: seq<bool>)
    ensures |drop| == n
  {
    seq(n, i => i in chosen)
  }

  /** The first k of the ranking, as a mask. */
  function Marked(rs: seq<Reading>, k: nat): (drop: seq<bool>)
    requires rs != []
    requires k <= |Order(rs)|
    ensures |drop| == |rs|
  {
    Marks(|rs|, Order(rs)[..k])
  }

  lemma MarkNext(n: nat, order: seq<nat>, k: nat)
    requires k < |order| && order[k] < n
    requires forall p :: 0 <= p < k ==> order[p] != order[k]
    ensures Marks(n, order[..k + 1]) == Marks(n, order[..k])[order[k] := true]
    ensures !Marks(n, order[..k])[order[k]]
  {
    assert order[..k + 1] == order[..k] + [order[k]];
  }

  lemma DropHead<T>(m: seq<T>, after: seq<T>, x: T)
    requires m != [] && m[0] == x && multiset(m) == multiset(after) + multiset{x}
    ensures multiset(after) == multiset(m[1..])
  {
    assert m == [x] + m[1..];
    assert multiset(after) == multiset(m) - multiset{x};
  }

  lemma {:induction false} MarksRest(rs: seq<Reading>, order: seq<nat>, k: nat)
    requires k <= |order|
    requires forall p :: 0 <= p < |order| ==> order[p] < |rs|
    requires forall p, q :: 0 <= p < q < |order| ==> order[p] != order[q]
    requires multiset(Map(order, AtFn(rs))) == multiset(rs)
    ensures multiset(Keep(rs, Marks(|rs|, order[..k]))) == multiset(Map(order[k..], AtFn(rs)))
  {
    if k == 0 {
      KeepNone(rs, Marks(|rs|, order[..0]));
      assert order[0..] == order;
      assert Keep(rs, Marks(|rs|, order[..k])) == rs;
    } else {
      MarksRest(rs, order, k - 1);
      MarkNext(|rs|, order, k - 1);
      KeepMark(rs, Marks(|rs|, order[..k - 1]), order[k - 1]);
      var rest, x := order[k - 1..], rs[order[k - 1]];
      MapDrop(rest, 1, AtFn(rs));
      assert rest[1..] == order[k..];
      DropHead(Map(rest, AtFn(rs)), Keep(rs, Marks(|rs|, order[..k])), x);
    }
  }

  /** Marking the first k of the ranking leaves exactly the rest of the ranking. */
  lemma MarkedRest(rs: seq<Reading>, k: nat)
    requires rs != [] && |Order(rs)| == |rs| && k <= |rs|
    ensures multiset(Keep(rs, Marked(rs, k))) == multiset(Ranked(rs)[k..])
  {
    OrderFacts(rs);
    RankedFacts(rs);
    MarksRest(rs, Order(rs), k);
    MapDrop(Order(rs), k, AtFn(rs));
  }

  /** The reading at position p of the ranking exceeds the threshold. */
  predicate RankExceeds(cfg: OutlierConfig, rs: seq<Reading>, p: nat)
    requires rs != [] && p < |Order(rs)|
  {
    Exceeds(cfg, DeviationFn(Center(rs))(Ranked(rs)[p]), Mad(rs))
  }

  ghost predicate AllExceed(cfg: OutlierConfig, rs: seq<Reading>, k: nat)
    requires rs != [] && k <= |Order(rs)|
  {
    forall p :: 0 <= p < k ==> RankExceeds(cfg, rs, p)
  }

  /** Position k is where flagging stops: everything before exceeds the threshold, and either the cap is
      reached or nothing from k on exceeds it. */
  ghost predicate IsCut(cfg: OutlierConfig, rs: seq<Reading>, k: nat)
    requires rs != []
  {
    && |Order(rs)| == |rs| && MinKeep(cfg) <= |rs| && k <= |rs| - MinKeep(cfg)
    && AllExceed(cfg, rs, k)
    && (k < |rs| - MinKeep(cfg) ==> !RankExceeds(cfg, rs, k))
  }

  lemma OneMoreExceeds(cfg: OutlierConfig, rs: seq<Reading>, k: nat)
    requires rs != [] && k < |Order(rs)| && AllExceed(cfg, rs, k) && RankExceeds(cfg, rs, k)
    ensures AllExceed(cfg, rs, k + 1)
  {
  }

  lemma ExceedsAfterCut(cfg: OutlierConfig, rs: seq<Reading>, k: nat, p: nat)
    requires rs != [] && IsCut(cfg, rs, k) && k <= p < |rs| && k < |rs| - MinKeep(cfg)
    ensures !Exceeds(cfg, DeviationFn(Center(rs))(Ranked(rs)[p]), Mad(rs))
  {
    RankedFacts(rs);
    assert p == k || WorstFirst(Center(rs))(Ranked(rs)[k], Ranked(rs)[p]);
    if Exceeds(cfg, DeviationFn(Center(rs))(Ranked(rs)[p]), Mad(rs)) {
      ExceedsMono(cfg, DeviationFn(Center(rs))(Ranked(rs)[p]), DeviationFn(Center(rs))(Ranked(rs)[k]), Mad(rs));
    }
  }

  lemma InPrefix(order: seq<nat>, p: nat, k: nat)
    requires p < |order| && k <= |order|
    requires forall i, j :: 0 <= i < j < |order| ==> order[i] != order[j]
    ensures order[p] in order[..k] <==> p < k
  {
    if p < k { assert order[..k][p] == order[p]; }
  }

  /** The reference definition drops exactly the ranking up to the cut. */
  lemma OutliersAtCut(cfg: OutlierConfig, rs: seq<Reading>, k: nat)
    requires rs != [] && Applies(cfg, |rs|) && IsCut(cfg, rs, k)
    ensures Outliers(cfg, rs) == Marked(rs, k)
  {
    forall i | 0 <= i < |rs| ensures Outliers(cfg, rs)[i] == Marked(rs, k)[i] {
      OutlierAt(cfg, rs, k, i);
    }
  }

  lemma OutlierAt(cfg: OutlierConfig, rs: seq<Reading>, k: nat, i: nat)
    requires rs != [] && Applies(cfg, |rs|) && IsCut(cfg, rs, k) && i < |rs|
    ensures Outliers(cfg, rs)[i] == Marked(rs, k)[i]
  {
    var p := Position(rs, i, k);
    assert p < k ==> RankExceeds(cfg, rs, p);
    if k <= p < |rs| - MinKeep(cfg) {
      ExceedsAfterCut(cfg, rs, k, p);
    }
  }

  /** Where a reading stands in the ranking decides whether it is among the first k. */
  lemma Position(rs: seq<Reading>, i: nat, k: nat) returns (p: nat)
    requires i < |rs| && |Order(rs)| == |rs| && k <= |rs|
    ensures p < |rs| && Ranked(rs)[p] == rs[i]
    ensures Marked(rs, k)[i] <==> p < k
    ensures forall c :: 0 <= c <= |rs| ==> (i in Order(rs)[..c] <==> p < c)
  {
    OrderFacts(rs);
    assert i in Order(rs);
    p :| 0 <= p < |rs| && Order(rs)[p] == i;
    forall c | 0 <= c <= |rs| ensures i in Order(rs)[..c] <==> p < c {
      InPrefix(Order(rs), p, c);
    }
  }

  lemma {:induction false} FindCut(cfg: OutlierConfig, rs: seq<Reading>, from: nat) returns (k: nat)
    requires rs != [] && Applies(cfg, |rs|) && |Order(rs)| == |rs|
    requires from <= |rs| - MinKeep(cfg)
    requires AllExceed(cfg, rs, from)
    ensures IsCut(cfg, rs, k)
    decreases |rs| - from
  {
    if from < |rs| - MinKeep(cfg) && RankExceeds(cfg, rs, from) {
      OneMoreExceeds(cfg, rs, from);
      k := FindCut(cfg, rs, from + 1);
    } else {
      k := from;
    }
  }

  // ----- What the filter guarantees -----

  lemma KeptOverThreshold(cfg: OutlierConfig, rs: seq<Reading>, k: nat, j: nat)
    requires rs != [] && IsCut(cfg, rs, k) && j < |rs| && !Marked(rs, k)[j]
    requires Exceeds(cfg, Abs(rs[j].value - Center(rs)), Mad(rs))
    ensures k == |rs| - MinKeep(cfg)
  {
    var q := Position(rs, j, k);
    if k < |rs| - MinKeep(cfg) {
      ExceedsAfterCut(cfg, rs, k, q);
    }
  }

  lemma MarkedCount(rs: seq<Reading>, k: nat)
    requires rs != [] && |Order(rs)| == |rs| && k <= |rs|
    ensures |Keep(rs, Marked(rs, k))| == |rs| - k
  {
    MarkedRest(rs, k);
    assert |multiset(Keep(rs, Marked(rs, k)))| == |multiset(Ranked(rs)[k..])|;
  }

  function Reverse(s: seq<int>): (r: seq<int>)
    ensures |r| == |s| && forall i :: 0 <= i < |s| ==> r[i] == s[|s| - 1 - i]
    ensures multiset(r) == multiset(s)
  {
    if s == [] then []
    else
      assert s == [s[0]] + s[1..];
      Reverse(s[1..]) + [s[0]]
  }

  lemma FallingRising(falling: seq<int>, s: seq<int>)
    requires multiset(falling) == multiset(s)
    requires forall i, j :: 0 <= i < j < |falling| ==> falling[i] >= falling[j]
    ensures |falling| == |s| && Sort(s, Ascending()) == Reverse(falling)
    ensures SortedBy(Sort(s, Ascending()), Ascending())
  {
    assert |falling| == |multiset(falling)| == |multiset(s)| == |s|;
    SortSorts(s, Ascending());
    SortedUnique(Reverse(falling), Sort(s, Ascending()), Ascending());
  }

  /** The lower half of a sorted slice of distances does not exceed its middle. */
  lemma LowerHalf(rising: seq<int>, q: nat)
    requires SortedBy(rising, Ascending()) && q < |rising| && q <= |rising| - 1 - |rising| / 2
    requires forall i :: 0 <= i < |rising| ==> rising[i] >= 0
    ensures rising[q] <= Middle(rising)
  {
    var n, h := |rising|, |rising| / 2;
    assert q == n - 1 - h || Ascending()(rising[q], rising[n - 1 - h]);
    if n % 2 == 0 {
      assert Ascending()(rising[h - 1], rising[h]);
      TruncDivHull(rising[h - 1] + rising[h], 2, rising[h - 1], rising[h]);
    }
  }

  /** From the middle of the ranking on, no reading deviates more than the MAD. */
  lemma BackHalfWithinMad(rs: seq<Reading>, p: nat)
    requires rs != [] && |Ranked(rs)| == |rs| && |rs| / 2 <= p < |rs|
    ensures Abs(Ranked(rs)[p].value - Center(rs)) <= Mad(rs)
  {
    var center, dev := Center(rs), DeviationFn(Center(rs));
    RankedFacts(rs);
    var falling := Map(Ranked(rs), dev);
    MapPermutation(Ranked(rs), rs, dev);
    forall i, j | 0 <= i < j < |falling| ensures falling[i] >= falling[j] {
      assert WorstFirst(center)(Ranked(rs)[i], Ranked(rs)[j]);
    }
    FallingRising(falling, Map(rs, dev));
    LowerHalf(Reverse(falling), |rs| - 1 - p);
  }

  /** With a threshold of at least one MAD, at least half of the readings survive. */
  lemma HalfSurvive(cfg: OutlierConfig, rs: seq<Reading>)
    requires cfg.thresholdBps >= BPS
    ensures 2 * |Keep(rs, Outliers(cfg, rs))| >= |rs|
  {
    if Applies(cfg, |rs|) {
      OrderFacts(rs);
      var k := FindCut(cfg, rs, 0);
      OutliersAtCut(cfg, rs, k);
      MarkedCount(rs, k);
      var h := |rs| / 2;
      if k > h {
        BackHalfWithinMad(rs, h);
        assert RankExceeds(cfg, rs, h);
        var d, mad := Abs(Ranked(rs)[h].value - Center(rs)), Mad(rs);
        MulMono(d, mad, BPS);
        MulMono(BPS, cfg.thresholdBps, mad);
      }
    } else {
      KeepNone(rs, Outliers(cfg, rs));
    }
  }

  // ----- Independence from submission order -----

  lemma CenterOfPermutation(rs: seq<Reading>, qs: seq<Reading>)
    requires rs != [] && qs != [] && multiset(Map(rs, ValueFn())) == multiset(Map(qs, ValueFn()))
    ensures Center(rs) == Center(qs) && Mad(rs) == Mad(qs)
  {
    SameSort(Map(rs, ValueFn()), Map(qs, ValueFn()));
    SameDeviations(rs, qs, Center(rs));
    SameSort(Map(rs, DeviationFn(Center(rs))), Map(qs, DeviationFn(Center(rs))));
  }

  lemma SameSort(a: seq<int>, b: seq<int>)
    requires multiset(a) == multiset(b)
    ensures Sort(a, Ascending()) == Sort(b, Ascending())
  {
    SortSorts(a, Ascending());
    SortSorts(b, Ascending());
    SortedUnique(Sort(a, Ascending()), Sort(b, Ascending()), Ascending());
  }

  function WorstValueFirst(center: int): (int, int) -> bool {
    (a: int, b: int) => Abs(a - center) > Abs(b - center) || (Abs(a - center) == Abs(b - center) && a <= b)
  }

  lemma RankedValues(rs: seq<Reading>, qs: seq<Reading>)
    requires rs != [] && qs != [] && multiset(Map(rs, ValueFn())) == multiset(Map(qs, ValueFn()))
    ensures Map(Ranked(rs), ValueFn()) == Map(Ranked(qs), ValueFn())
  {
    CenterOfPermutation(rs, qs);
    ValuesSorted(rs);
    ValuesSorted(qs);
    assert TotalOrder(WorstValueFirst(Center(rs)));
    SortedUnique(Map(Ranked(rs), ValueFn()), Map(Ranked(qs), ValueFn()), WorstValueFirst(Center(rs)));
  }

  lemma ValuesSorted(rs: seq<Reading>)
    requires rs != []
    ensures multiset(Map(Ranked(rs), ValueFn())) == multiset(Map(rs, ValueFn()))
    ensures SortedBy(Map(Ranked(rs), ValueFn()), WorstValueFirst(Center(rs)))
  {
    RankedFacts(rs);
    MapPermutation(Ranked(rs), rs, ValueFn());
    var vs := Map(Ranked(rs), ValueFn());
    forall i, j | 0 <= i < j < |vs| ensures WorstValueFirst(Center(rs))(vs[i], vs[j]) {
      assert WorstFirst(Center(rs))(Ranked(rs)[i], Ranked(rs)[j]);
    }
  }

  /** The values that survive depend only on the values reported: neither submission order nor the weights
      the readings carry can change them. */
  lemma SurvivingValues(cfg: OutlierConfig, rs: seq<Reading>, qs: seq<Reading>)
    requires multiset(Map(rs, ValueFn())) == multiset(Map(qs, ValueFn()))
    ensures multiset(Map(Keep(rs, Outliers(cfg, rs)), ValueFn())) == multiset(Map(Keep(qs, Outliers(cfg, qs)), ValueFn()))
  {
    assert |rs| == |multiset(Map(rs, ValueFn()))| == |multiset(Map(qs, ValueFn()))| == |qs|;
    if Applies(cfg, |rs|) {
      CenterOfPermutation(rs, qs);
      RankedValues(rs, qs);
      OrderFacts(rs);
      OrderFacts(qs);
      var k := FindCut(cfg, rs, 0);
      SameCut(cfg, rs, qs, k);
      KeptValues(cfg, rs, k);
      KeptValues(cfg, qs, k);
    } else {
      KeepNone(rs, Outliers(cfg, rs));
      KeepNone(qs, Outliers(cfg, qs));
    }
  }

  lemma SameCut(cfg: OutlierConfig, rs: seq<Reading>, qs: seq<Reading>, k: nat)
    requires rs != [] && |rs| == |qs| == |Order(rs)| == |Order(qs)| && IsCut(cfg, rs, k)
    requires Center(rs) == Center(qs) && Mad(rs) == Mad(qs)
    requires Map(Ranked(rs), ValueFn()) == Map(Ranked(qs), ValueFn())
    ensures IsCut(cfg, qs, k)
  {
    var vr, vq := Map(Ranked(rs), ValueFn()), Map(Ranked(qs), ValueFn());
    forall p: nat | p < |rs| ensures RankExceeds(cfg, qs, p) == RankExceeds(cfg, rs, p) {
      assert Ranked(rs)[p].value == vr[p] == vq[p] == Ranked(qs)[p].value;
    }
  }

  lemma KeptValues(cfg: OutlierConfig, rs: seq<Reading>, k: nat)
    requires rs != [] && Applies(cfg, |rs|) && IsCut(cfg, rs, k)
    ensures multiset(Map(Keep(rs, Outliers(cfg, rs)), ValueFn())) == multiset(Map(Ranked(rs), ValueFn())[k..])
  {
    OutliersAtCut(cfg, rs, k);
    MarkedRest(rs, k);
    MapPermutation(Keep(rs, Outliers(cfg, rs)), Ranked(rs)[k..], ValueFn());
    MapDrop(Ranked(rs), k, ValueFn());
  }

  /** Two storage orders of the same readings leave the same set of survivors. */
  lemma SurvivorsOfPermutation(cfg: OutlierConfig, rs: seq<Reading>, qs: seq<Reading>)
    requires multiset(rs) == multiset(qs)
    ensures multiset(Keep(rs, Outliers(cfg, rs))) == multiset(Keep(qs, Outliers(cfg, qs)))
  {
    assert |rs| == |multiset(rs)| == |multiset(qs)| == |qs|;
    if Applies(cfg, |rs|) {
      MapPermutation(rs, qs, ValueFn());
      CenterOfPermutation(rs, qs);
      RankedFacts(rs);
      RankedFacts(qs);
      assert TotalOrder(WorstFirst(Center(rs)));
      SortedUnique(Ranked(rs), Ranked(qs), WorstFirst(Center(rs)));
      OrderFacts(rs);
      OrderFacts(qs);
      var k := FindCut(cfg, rs, 0);
      SameCut(cfg, rs, qs, k);
      OutliersAtCut(cfg, rs, k);
      OutliersAtCut(cfg, qs, k);
      MarkedRest(rs, k);
      MarkedRest(qs, k);
    } else {
      KeepNone(rs, Outliers(cfg, rs));
      KeepNone(qs, Outliers(cfg, qs));
    }
  }
}
