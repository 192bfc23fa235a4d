/** The median aborts when the two readings that meet at half overflow. Weightings with the same majorities overflow on
    the same values, so the reported and the deciding median agree without any bound on the values. */
module OverflowTogether {
  import opened Arithmetic
  import opened Sequences
  import opened Ledger
  import opened OracleRegistry
  import opened OracleState
  import opened OracleRuns
  import opened OutlierFilter
  import opened Consensus
  import opened Reporting
  import Median = WeightedMedian

  // ----- Picking readings by a mask -----

  function Complement(mask: Mask): (other: Mask)
    ensures |other| == |mask|
  {
    seq(|mask|, i requires 0 <= i < |mask| => !mask[i])
  }

  /** The readings of a set of oracles. */
  function Pick(rs: seq<Reading>, mask: Mask): seq<Reading>
    requires |rs| == |mask|
  {
    Keep(rs, Complement(mask))
  }

  lemma PickFirst(rs: seq<Reading>, mask: Mask)
    requires |rs| == |mask| > 0
    ensures Pick(rs, mask) == (if mask[0] then [rs[0]] else []) + Pick(rs[1..], mask[1..])
  {
    assert Complement(mask)[1..] == Complement(mask[1..]);
  }

  lemma {:induction false} PickIn(rs: seq<Reading>, mask: Mask, r: Reading)
    requires |rs| == |mask|
    ensures r in Pick(rs, mask) <==> exists i :: 0 <= i < |rs| && mask[i] && rs[i] == r
  {
    if rs != [] {
      PickFirst(rs, mask);
      PickIn(rs[1..], mask[1..], r);
      if i: nat :| i < |rs[1..]| && mask[1..][i] && rs[1..][i] == r {
        assert mask[i + 1] && rs[i + 1] == r;
      }
      if i: nat :| i < |rs| && mask[i] && rs[i] == r {
        assert i > 0 ==> mask[1..][i - 1] && rs[1..][i - 1] == r;
      }
    }
  }

  lemma FirstCounts(first: Reading, rest: seq<Reading>, r: Reading)
    ensures multiset([first] + rest)[r] == (if r == first then 1 else 0) + multiset(rest)[r]
  {
  }

  lemma PickFirstCounts(rs: seq<Reading>, mask: Mask, r: Reading)
    requires |rs| == |mask| > 0
    ensures multiset(Pick(rs, mask))[r] == (if mask[0] && r == rs[0] then 1 else 0) + multiset(Pick(rs[1..], mask[1..]))[r]
  {
    PickFirst(rs, mask);
    if mask[0] {
      FirstCounts(rs[0], Pick(rs[1..], mask[1..]), r);
    } else {
      assert [] + Pick(rs[1..], mask[1..]) == Pick(rs[1..], mask[1..]);
    }
  }

  lemma HeadCounts(rs: seq<Reading>, r: Reading)
    requires rs != []
    ensures multiset(rs)[r] == (if r == rs[0] then 1 else 0) + multiset(rs[1..])[r]
  {
    assert rs == [rs[0]] + rs[1..];
    FirstCounts(rs[0], rs[1..], r);
  }

  lemma ComplementRest(mask: Mask)
    requires mask != []
    ensures Complement(mask)[0] == !mask[0] && Complement(mask)[1..] == Complement(mask[1..])
  {
  }

  lemma {:induction false} PickCounts(rs: seq<Reading>, mask: Mask, r: Reading)
    requires |rs| == |mask|
    ensures multiset(Pick(rs, mask))[r] + multiset(Pick(rs, Complement(mask)))[r] == multiset(rs)[r]
  {
    if rs != [] {
      PickFirstCounts(rs, mask, r);
      PickFirstCounts(rs, Complement(mask), r);
      ComplementRest(mask);
      PickCounts(rs[1..], mask[1..], r);
      HeadCounts(rs, r);
    }
  }

  /** A mask and its complement split the readings. */
  lemma PickSplits(rs: seq<Reading>, mask: Mask)
    requires |rs| == |mask|
    ensures multiset(Pick(rs, mask)) + multiset(Pick(rs, Complement(mask))) == multiset(rs)
  {
    forall r ensures multiset(Pick(rs, mask))[r] + multiset(Pick(rs, Complement(mask)))[r] == multiset(rs)[r] {
      PickCounts(rs, mask, r);
    }
  }

  lemma {:induction false} PickWeight(values: seq<int>, weights: seq<nat>, mask: Mask)
    requires |values| == |weights| == |mask|
    ensures Median.TotalWeight(Pick(Weigh(values, weights), mask)) == MaskWeight(weights, mask)
  {
    if values != [] {
      var rest := Pick(Weigh(values[1..], weights[1..]), mask[1..]);
      PickFirst(Weigh(values, weights), mask);
      assert Weigh(values, weights)[1..] == Weigh(values[1..], weights[1..]);
      PickWeight(values[1..], weights[1..], mask[1..]);
      SumByAppend(if mask[0] then [Median.Reading(values[0], weights[0])] else [], rest, Median.WeightFn());
    }
  }

  /** Any part of the readings is picked by some mask. */
  lemma {:induction false} MaskFor(rs: seq<Reading>, part: multiset<Reading>) returns (mask: Mask)
    requires part <= multiset(rs)
    ensures |mask| == |rs| && multiset(Pick(rs, mask)) == part
  {
    if rs == [] {
      mask := [];
    } else {
      assert rs == [rs[0]] + rs[1..];
      var here := rs[0] in part;
      var rest := MaskFor(rs[1..], if here then part - multiset{rs[0]} else part);
      mask := [here] + rest;
      PickFirst(rs, mask);
    }
  }

  // ----- Cuts -----

  /** In the order of the median every picked reading comes before every other. */
  ghost predicate Cut(rs: seq<Reading>, mask: Mask)
    requires |rs| == |mask|
  {
    forall x, y :: 0 <= x < |rs| && 0 <= y < |rs| && mask[x] && !mask[y] ==> Median.ByValueThenWeight()(rs[x], rs[y])
  }

  lemma {:induction false} MaskWeightUpdate(weights: seq<nat>, mask: Mask, i: nat, b: bool)
    requires |weights| == |mask| && i < |mask|
    ensures MaskWeight(weights, mask[i := b])
            == MaskWeight(weights, mask) + (if b then weights[i] else 0) - (if mask[i] then weights[i] else 0)
  {
    if i == 0 {
      assert mask[0 := b][1..] == mask[1..];
    } else {
      assert mask[i := b][1..] == mask[1..][i - 1 := b];
      MaskWeightUpdate(weights[1..], mask[1..], i - 1, b);
    }
  }

  /** Exchanging two oracles across an exact half shows that both weightings rank them alike. */
  lemma LighterStaysLighter(w: seq<nat>, e: seq<nat>, mask: Mask, x: nat, y: nat)
    requires |w| == |e| == |mask| && SameMajorities(w, e) && Majority(w, mask) == 0
    requires x < |w| && y < |w| && mask[x] && !mask[y] && w[x] <= w[y]
    ensures e[x] <= e[y]
  {
    var exchanged := mask[x := false][y := true];
    MaskWeightUpdate(w, mask, x, false);
    MaskWeightUpdate(w, mask[x := false], y, true);
    MaskWeightUpdate(e, mask, x, false);
    MaskWeightUpdate(e, mask[x := false], y, true);
    assert Majority(e, mask) == Majority(w, mask) && Majority(e, exchanged) == Majority(w, exchanged);
  }

  lemma CutTransfers(values: seq<int>, w: seq<nat>, e: seq<nat>, mask: Mask)
    requires |values| == |w| == |e| == |mask| && SameMajorities(w, e) && Majority(w, mask) == 0
    requires Cut(Weigh(values, w), mask)
    ensures Cut(Weigh(values, e), mask) && Majority(e, mask) == 0
  {
    assert Majority(e, mask) == Majority(w, mask);
    var rs, qs := Weigh(values, w), Weigh(values, e);
    forall x, y | 0 <= x < |qs| && 0 <= y < |qs| && mask[x] && !mask[y]
      ensures Median.ByValueThenWeight()(qs[x], qs[y])
    {
      assert Median.ByValueThenWeight()(rs[x], rs[y]);
      if values[x] == values[y] {
        LighterStaysLighter(w, e, mask, x, y);
      }
    }
  }

  // ----- Where the halves meet -----

  /** `u` is the greatest value reported from the mask. */
  ghost predicate IsTop(values: seq<int>, mask: Mask, u: int)
    requires |values| == |mask|
  {
    && (exists x :: 0 <= x < |values| && mask[x] && values[x] == u)
    && (forall x :: 0 <= x < |values| && mask[x] ==> values[x] <= u)
  }

  /** `v` is the least value reported from outside. */
  ghost predicate IsBottom(values: seq<int>, mask: Mask, v: int)
    requires |values| == |mask|
  {
    && (exists y :: 0 <= y < |values| && !mask[y] && values[y] == v)
    && (forall y :: 0 <= y < |values| && !mask[y] ==> values[y] >= v)
  }

  function Sorted(rs: seq<Reading>): seq<Reading> {
    Sort(rs, Median.ByValueThenWeight())
  }

  lemma SortedApart(a: seq<Reading>, b: seq<Reading>, s: seq<Reading>)
    requires SortedBy(a, Median.ByValueThenWeight()) && SortedBy(b, Median.ByValueThenWeight())
    requires SortedBy(s, Median.ByValueThenWeight()) && multiset(a) + multiset(b) == multiset(s)
    requires forall i, j :: 0 <= i < |a| && 0 <= j < |b| ==> Median.ByValueThenWeight()(a[i], b[j])
    ensures a + b == s
  {
    Median.OrderIsTotal();
    SortedUnique(a + b, s, Median.ByValueThenWeight());
  }

  /** Across a cut the readings sort side by side. */
  lemma SortsApart(rs: seq<Reading>, mask: Mask)
    requires |rs| == |mask| && Cut(rs, mask)
    ensures Sorted(rs) == Sorted(Pick(rs, mask)) + Sorted(Pick(rs, Complement(mask)))
  {
    var ps, qs := Pick(rs, mask), Pick(rs, Complement(mask));
    Median.OrderIsTotal();
    SortSorts(ps, Median.ByValueThenWeight());
    SortSorts(qs, Median.ByValueThenWeight());
    SortSorts(rs, Median.ByValueThenWeight());
    PickSplits(rs, mask);
    var a, b := Sorted(ps), Sorted(qs);
    forall i, j | 0 <= i < |a| && 0 <= j < |b| ensures Median.ByValueThenWeight()(a[i], b[j]) {
      assert a[i] in multiset(a) && b[j] in multiset(b);
      AcrossCut(rs, mask, a[i], b[j]);
    }
    SortedApart(a, b, Sorted(rs));
  }

  lemma AcrossCut(rs: seq<Reading>, mask: Mask, p: Reading, q: Reading)
    requires |rs| == |mask| && Cut(rs, mask)
    requires p in multiset(Pick(rs, mask)) && q in multiset(Pick(rs, Complement(mask)))
    ensures Median.ByValueThenWeight()(p, q)
  {
    PickIn(rs, mask, p);
    PickIn(rs, Complement(mask), q);
  }

  lemma PickedAndSorted(rs: seq<Reading>, mask: Mask, r: Reading)
    requires |rs| == |mask|
    ensures r in Sorted(Pick(rs, mask)) <==> exists i :: 0 <= i < |rs| && mask[i] && rs[i] == r
  {
    Median.OrderIsTotal();
    SortSorts(Pick(rs, mask), Median.ByValueThenWeight());
    PickIn(rs, mask, r);
    assert r in multiset(Sorted(Pick(rs, mask))) <==> r in multiset(Pick(rs, mask));
  }

  lemma SortedEnds(s: seq<Reading>, r: Reading)
    requires SortedBy(s, Median.ByValueThenWeight()) && r in s
    ensures s[0].value <= r.value <= s[|s| - 1].value
  {
    var i :| 0 <= i < |s| && s[i] == r;
    assert i > 0 ==> Median.ByValueThenWeight()(s[0], s[i]);
    assert i < |s| - 1 ==> Median.ByValueThenWeight()(s[i], s[|s| - 1]);
  }

  lemma EndsOfPicked(rs: seq<Reading>, mask: Mask, x: nat)
    requires |rs| == |mask| && x < |mask| && mask[x]
    ensures var a := Sorted(Pick(rs, mask)); a != [] && a[0].value <= rs[x].value <= a[|a| - 1].value
  {
    Median.OrderIsTotal();
    SortSorts(Pick(rs, mask), Median.ByValueThenWeight());
    PickedAndSorted(rs, mask, rs[x]);
    SortedEnds(Sorted(Pick(rs, mask)), rs[x]);
  }

  lemma LastIsTop(values: seq<int>, weights: seq<nat>, mask: Mask)
    requires |values| == |weights| == |mask| && exists x :: 0 <= x < |mask| && mask[x]
    ensures var a := Sorted(Pick(Weigh(values, weights), mask)); a != [] && IsTop(values, mask, a[|a| - 1].value)
  {
    var rs := Weigh(values, weights);
    var a := Sorted(Pick(rs, mask));
    forall x | 0 <= x < |mask| && mask[x] ensures a != [] && values[x] <= a[|a| - 1].value {
      EndsOfPicked(rs, mask, x);
    }
    PickedAndSorted(rs, mask, a[|a| - 1]);
  }

  lemma FirstIsBottom(values: seq<int>, weights: seq<nat>, mask: Mask)
    requires |values| == |weights| == |mask| && exists y :: 0 <= y < |mask| && !mask[y]
    ensures var b := Sorted(Pick(Weigh(values, weights), Complement(mask))); b != [] && IsBottom(values, mask, b[0].value)
  {
    var rs, other := Weigh(values, weights), Complement(mask);
    var b := Sorted(Pick(rs, other));
    forall y | 0 <= y < |mask| && !mask[y] ensures b != [] && values[y] >= b[0].value {
      assert other[y];
      EndsOfPicked(rs, other, y);
    }
    PickedAndSorted(rs, other, b[0]);
  }

  /** An exact half that is a cut shows in the sorted readings, between its top and the bottom of the rest. */
  lemma HalfShows(values: seq<int>, weights: seq<nat>, mask: Mask) returns (i: nat)
    requires |values| == |weights| == |mask| && Cut(Weigh(values, weights), mask) && Majority(weights, mask) == 0
    requires (exists x :: 0 <= x < |mask| && mask[x]) && (exists y :: 0 <= y < |mask| && !mask[y])
    ensures var s := Sorted(Weigh(values, weights));
      && i + 1 == |Pick(Weigh(values, weights), mask)| && Median.HalfAt(s, i)
      && IsTop(values, mask, s[i].value) && IsBottom(values, mask, s[i + 1].value)
  {
    var rs := Weigh(values, weights);
    var a, b := Sorted(Pick(rs, mask)), Sorted(Pick(rs, Complement(mask)));
    SortsApart(rs, mask);
    LastIsTop(values, weights, mask);
    FirstIsBottom(values, weights, mask);
    SortLength(Pick(rs, mask), Median.ByValueThenWeight());
    i := |a| - 1;
    assert (a + b)[..i + 1] == a;
    HalfWeights(values, weights, mask);
  }

  lemma HalfWeights(values: seq<int>, weights: seq<nat>, mask: Mask)
    requires |values| == |weights| == |mask| && Majority(weights, mask) == 0
    ensures var rs := Weigh(values, weights);
      2 * Median.TotalWeight(Sorted(Pick(rs, mask))) == Median.TotalWeight(Sorted(rs))
  {
    var rs := Weigh(values, weights);
    Median.OrderIsTotal();
    SortSorts(rs, Median.ByValueThenWeight());
    SortSorts(Pick(rs, mask), Median.ByValueThenWeight());
    SumByPermutation(rs, Sorted(rs), Median.WeightFn());
    SumByPermutation(Pick(rs, mask), Sorted(Pick(rs, mask)), Median.WeightFn());
    PickWeight(values, weights, mask);
    BelowWeight(values, weights, 0);
  }

  lemma RestOfParts(part: multiset<Reading>, other: multiset<Reading>, rest: multiset<Reading>)
    requires part + other == part + rest
    ensures other == rest
  {
    forall r ensures other[r] == rest[r] {
      assert (part + other)[r] == (part + rest)[r];
    }
  }

  /** The first `n` of the sorted readings are picked by some mask. */
  lemma MaskOfPrefix(rs: seq<Reading>, n: nat) returns (mask: Mask)
    requires n <= |Sorted(rs)|
    ensures |mask| == |rs| && multiset(Pick(rs, mask)) == multiset(Sorted(rs)[..n])
    ensures multiset(Pick(rs, Complement(mask))) == multiset(Sorted(rs)[n..])
  {
    var s := Sorted(rs);
    Median.OrderIsTotal();
    SortSorts(rs, Median.ByValueThenWeight());
    assert s == s[..n] + s[n..];
    mask := MaskFor(rs, multiset(s[..n]));
    PickSplits(rs, mask);
    RestOfParts(multiset(s[..n]), multiset(Pick(rs, Complement(mask))), multiset(s[n..]));
  }

  lemma PrefixWeight(values: seq<int>, weights: seq<nat>, mask: Mask, i: nat)
    requires |values| == |weights| == |mask| && Median.HalfAt(Sorted(Weigh(values, weights)), i)
    requires multiset(Pick(Weigh(values, weights), mask)) == multiset(Sorted(Weigh(values, weights))[..i + 1])
    ensures Majority(weights, mask) == 0 && |Pick(Weigh(values, weights), mask)| == i + 1
  {
    var rs := Weigh(values, weights);
    var s := Sorted(rs);
    Median.OrderIsTotal();
    SortSorts(rs, Median.ByValueThenWeight());
    SumByPermutation(Pick(rs, mask), s[..i + 1], Median.WeightFn());
    SumByPermutation(rs, s, Median.WeightFn());
    PickWeight(values, weights, mask);
    BelowWeight(values, weights, 0);
    assert |Pick(rs, mask)| == |multiset(s[..i + 1])| == i + 1;
  }

  lemma Ends(s: seq<Reading>, i: nat)
    requires i + 1 < |s|
    ensures s[i] in multiset(s[..i + 1]) && s[i + 1] in multiset(s[i + 1..])
  {
    assert s[i] == s[..i + 1][i] && s[i + 1] == s[i + 1..][0];
  }

  /** Conversely the readings up to an exact half are picked by a mask that is a cut. */
  lemma MaskOfHalf(values: seq<int>, weights: seq<nat>, i: nat) returns (mask: Mask)
    requires |values| == |weights| && Median.HalfAt(Sorted(Weigh(values, weights)), i)
    ensures |mask| == |values| && Cut(Weigh(values, weights), mask) && Majority(weights, mask) == 0
    ensures |Pick(Weigh(values, weights), mask)| == i + 1
    ensures (exists x :: 0 <= x < |mask| && mask[x]) && (exists y :: 0 <= y < |mask| && !mask[y])
  {
    var rs := Weigh(values, weights);
    Median.OrderIsTotal();
    SortSorts(rs, Median.ByValueThenWeight());
    mask := MaskOfPrefix(rs, i + 1);
    PrefixIsCut(rs, mask, Sorted(rs), i);
    PrefixWeight(values, weights, mask, i);
    Ends(Sorted(rs), i);
    BothSides(rs, mask, Sorted(rs)[i], Sorted(rs)[i + 1]);
  }

  lemma PrefixIsCut(rs: seq<Reading>, mask: Mask, s: seq<Reading>, i: nat)
    requires |rs| == |mask| && i + 1 < |s| && SortedBy(s, Median.ByValueThenWeight())
    requires multiset(Pick(rs, mask)) == multiset(s[..i + 1])
    requires multiset(Pick(rs, Complement(mask))) == multiset(s[i + 1..])
    ensures Cut(rs, mask)
  {
    forall x, y | 0 <= x < |rs| && 0 <= y < |rs| && mask[x] && !mask[y]
      ensures Median.ByValueThenWeight()(rs[x], rs[y])
    {
      PickIn(rs, mask, rs[x]);
      assert Complement(mask)[y];
      PickIn(rs, Complement(mask), rs[y]);
      assert rs[x] in multiset(s[..i + 1]) && rs[y] in multiset(s[i + 1..]);
      var j :| 0 <= j < i + 1 && s[..i + 1][j] == rs[x];
      var k :| 0 <= k < |s| - i - 1 && s[i + 1..][k] == rs[y];
      assert Median.ByValueThenWeight()(s[j], s[i + 1 + k]);
    }
  }

  lemma BothSides(rs: seq<Reading>, mask: Mask, p: Reading, q: Reading)
    requires |rs| == |mask| && p in multiset(Pick(rs, mask)) && q in multiset(Pick(rs, Complement(mask)))
    ensures (exists x :: 0 <= x < |mask| && mask[x]) && (exists y :: 0 <= y < |mask| && !mask[y])
  {
    PickIn(rs, mask, p);
    PickIn(rs, Complement(mask), q);
  }

  // ----- Overflow -----

  /** The same two values meet at an exact half under both weightings. */
  lemma HalvesMeetAlike(values: seq<int>, w: seq<nat>, e: seq<nat>, i: nat) returns (k: nat)
    requires |values| == |w| == |e| && SameMajorities(w, e) && Median.HalfAt(Sorted(Weigh(values, w)), i)
    ensures var s, t := Sorted(Weigh(values, w)), Sorted(Weigh(values, e));
      Median.HalfAt(t, k) && t[k].value == s[i].value && t[k + 1].value == s[i + 1].value
  {
    var mask := MaskOfHalf(values, w, i);
    CutTransfers(values, w, e, mask);
    var j := HalfShows(values, w, mask);
    k := HalfShows(values, e, mask);
  }

  /** An overflow under one weighting is an overflow under the other. */
  lemma OverflowTransfers(values: seq<int>, w: seq<nat>, e: seq<nat>)
    requires |values| == |w| == |e| && SameMajorities(w, e) && !Median.MedianFits(Weigh(values, w))
    ensures !Median.MedianFits(Weigh(values, e))
  {
    var i := SomeOverflow(Sorted(Weigh(values, w)));
    var k := HalvesMeetAlike(values, w, e, i);
    OverflowAt(Sorted(Weigh(values, e)), k);
  }

  lemma SomeOverflow(s: seq<Reading>) returns (i: nat)
    requires !Median.MidpointFits(s)
    ensures Median.HalfAt(s, i) && !FitsI128(s[i].value + s[i + 1].value)
  {
    i :| Median.HalfAt(s, i) && !FitsI128(s[i].value + s[i + 1].value);
  }

  lemma OverflowAt(s: seq<Reading>, i: nat)
    requires Median.HalfAt(s, i) && !FitsI128(s[i].value + s[i + 1].value)
    ensures !Median.MidpointFits(s)
  {
  }

  lemma SameMajoritiesCommute(w: seq<nat>, e: seq<nat>)
    requires |w| == |e| && SameMajorities(w, e)
    ensures SameMajorities(e, w)
  {
    forall mask: Mask | |mask| == |e| ensures Majority(e, mask) == Majority(w, mask) {
      assert Majority(w, mask) == Majority(e, mask);
    }
  }

  /** Weightings with the same majorities overflow on the same values. */
  lemma OverflowAlike(values: seq<int>, w: seq<nat>, e: seq<nat>)
    requires |values| == |w| == |e| && SameMajorities(w, e)
    ensures Median.MedianFits(Weigh(values, w)) <==> Median.MedianFits(Weigh(values, e))
  {
    SameMajoritiesCommute(w, e);
    if !Median.MedianFits(Weigh(values, w)) {
      OverflowTransfers(values, w, e);
    }
    if !Median.MedianFits(Weigh(values, e)) {
      OverflowTransfers(values, e, w);
    }
  }

  // ----- Agreement without bounds -----

  /** Both paths give the same value or both abort, whatever values these oracles report. */
  ghost predicate AlwaysAgrees(s: Store, dt: Symbol, es: seq<DataPoint>, now: nat)
    requires Consistent(s.registry)
  {
    forall ps :: SameOracles(es, ps) ==> Report(s, dt, ps, now) == Decide(s, dt, ps, now)
  }

  lemma AgreesOn(s: Store, dt: Symbol, es: seq<DataPoint>, ps: seq<DataPoint>, now: nat)
    requires Consistent(s.registry) && MethodFor(s, dt) == WeightedMedian && !OutliersFor(s, dt).enabled
    requires es != [] && AllEligible(s, dt, es, now) && SameOracles(es, ps)
    requires |es| < s.settings.minOracleCount || SameMajorities(Registered(s, dt, es), Effective(s, dt, es))
    ensures Report(s, dt, ps, now) == Decide(s, dt, ps, now)
  {
    var cfg, values, w, e := OutliersFor(s, dt), ValuesOf(ps), Registered(s, dt, es), Effective(s, dt, es);
    PositiveWeights(s, dt, es, now);
    StillEligible(s, dt, es, ps, now);
    KeepNone(Weigh(values, w), Outliers(cfg, Weigh(values, w)));
    KeepNone(Weigh(values, e), Outliers(cfg, Weigh(values, e)));
    if |es| >= s.settings.minOracleCount {
      OverflowAlike(values, w, e);
      MedianTransfers(values, w, e);
    }
  }

  /** By the default method without filter, reported and decided value agree for all values that the eligible oracles
      may report, aborts included, if and only if registered and effective weights give the same sets of oracles a
      majority (or there are too few oracles for any value). */
  lemma MedianAgreesExactly(s: Store, dt: Symbol, es: seq<DataPoint>, now: nat)
    requires Consistent(s.registry) && MethodFor(s, dt) == WeightedMedian && !OutliersFor(s, dt).enabled
    requires es != [] && AllEligible(s, dt, es, now)
    ensures AlwaysAgrees(s, dt, es, now) <==>
            |es| < s.settings.minOracleCount || SameMajorities(Registered(s, dt, es), Effective(s, dt, es))
  {
    ReportAgreesExactly(s, dt, es, now);
    if |es| < s.settings.minOracleCount || SameMajorities(Registered(s, dt, es), Effective(s, dt, es)) {
      forall ps | SameOracles(es, ps) ensures Report(s, dt, ps, now) == Decide(s, dt, ps, now) {
        AgreesOn(s, dt, es, ps, now);
      }
    }
  }
}
