/** For the weighted average, the report is the decision exactly when reputation scales all weights alike. */
module AverageReporting {
  import opened Arithmetic
  import opened Sequences
  import opened Ledger
  import opened OracleRegistry
  import opened OracleState
  import opened OracleRuns
  import opened OutlierFilter
  import opened Averages
  import opened Consensus
  import opened Reporting
  import Median = WeightedMedian

  function Dot(values: seq<int>, weights: seq<nat>): int
    requires |values| == |weights|
  {
    if values == [] then 0 else values[0] * weights[0] + Dot(values[1..], weights[1..])
  }

  /** Every oracle has the same share of both totals. */
  ghost predicate Proportional(w: seq<nat>, e: seq<nat>)
    requires |w| == |e|
  {
    forall i :: 0 <= i < |w| ==> w[i] * Everyone(e) == e[i] * Everyone(w)
  }

  // ----- Quotients -----

  lemma FloorOfScaled(a: nat, b: nat, w: nat, e: nat)
    requires w > 0 && e > 0 && a * e == b * w
    ensures a / w <= b / e
  {
    var q := a / w;
    assert q * w <= a;
    MulMono(q * w, a, e);
    assert q * w * e == (q * e) * w;
    QuotientAtLeast(b, e, q);
    if b < q * e {
      MulMono(b + 1, q * e, w);
    }
  }

  /** Equal fractions have equal quotients. */
  lemma SameQuotient(a: int, b: int, w: nat, e: nat)
    requires w > 0 && e > 0 && a * e == b * w
    ensures TruncDiv(a, w) == TruncDiv(b, e)
  {
    SameSign(a, b, w, e);
    if a >= 0 {
      FloorOfScaled(a, b, w, e);
      FloorOfScaled(b, a, e, w);
    } else {
      assert (-a) * e == (-b) * w;
      FloorOfScaled(-a, -b, w, e);
      FloorOfScaled(-b, -a, e, w);
    }
  }

  lemma SameSign(a: int, b: int, w: nat, e: nat)
    requires w > 0 && e > 0 && a * e == b * w
    ensures a >= 0 <==> b >= 0
  {
    if a >= 0 && b < 0 {
      MulMono(b, -1, w);
      MulMono(0, a, e);
    }
    if a < 0 && b >= 0 {
      MulMono(a, -1, e);
      MulMono(0, b, w);
    }
  }

  /** The quotient of `a` by `w`, in units of a common denominator. */
  lemma CommonDenominator(a: nat, w: nat, e: nat, q: nat, d: nat)
    requires w > 0 && e > 0 && q == a / w && d == w * e
    ensures q * d <= a * e < q * d + d
  {
    var r := a % w;
    assert a == q * w + r;
    Expand(q, w, r, e);
    MulMono(0, r, e);
    MulMono(r + 1, w, e);
  }

  lemma Expand(q: int, w: int, r: int, e: int)
    ensures (q * w + r) * e == q * (w * e) + r * e
  {
    Regroup(q, w, e);
  }

  lemma Regroup(a: int, b: int, c: int)
    ensures a * b * c == a * (b * c)
  {
  }

  lemma FarApart(p: nat, q: nat, x: nat, y: nat, d: nat, scale: nat)
    requires scale * x < p * d + d && q * d <= scale * y && x > y && scale >= d
    ensures p > q
  {
    if p <= q {
      MulMono(p, q, d);
      MulMono(y + 1, x, scale);
    }
  }

  /** Fractions further apart than one over both denominators, scaled by their product or more, have different
      quotients. */
  lemma FarQuotients(x: nat, y: nat, w: nat, e: nat, scale: nat, p: nat, q: nat)
    requires w > 0 && e > 0 && x * e > y * w && scale >= w * e
    requires p == scale * x / w && q == scale * y / e
    ensures p > q
  {
    var d := w * e;
    CommonDenominator(scale * x, w, e, p, d);
    CommonDenominator(scale * y, e, w, q, d);
    Regroup(scale, x, e);
    Regroup(scale, y, w);
    FarApart(p, q, x * e, y * w, d, scale);
  }

  lemma FarShares(x: nat, y: nat, w: nat, e: nat, scale: nat)
    requires w > 0 && e > 0 && x * e > y * w && scale >= w * e
    ensures TruncDiv(scale * x, w) > TruncDiv(scale * y, e)
  {
    MulMono(0, x, scale);
    MulMono(0, y, scale);
    FarQuotients(x, y, w, e, scale, scale * x / w, scale * y / e);
  }

  // ----- Averages over two weightings -----

  lemma {:induction false} ProportionalDots(values: seq<int>, w: seq<nat>, e: seq<nat>, total: nat, other: nat)
    requires |values| == |w| == |e| && forall i :: 0 <= i < |w| ==> w[i] * other == e[i] * total
    ensures Dot(values, w) * other == Dot(values, e) * total
  {
    if values != [] {
      ProportionalDots(values[1..], w[1..], e[1..], total, other);
      Distribute(values[0], w[0], Dot(values[1..], w[1..]), other);
      Distribute(values[0], e[0], Dot(values[1..], e[1..]), total);
    }
  }

  lemma Distribute(v: int, x: nat, rest: int, k: nat)
    ensures (v * x + rest) * k == v * (x * k) + rest * k
  {
  }

  function OneHot(n: nat, i: nat, v: int): (values: seq<int>)
    ensures |values| == n
  {
    seq(n, j => if j == i then v else 0)
  }

  lemma {:induction false} OneHotDot(weights: seq<nat>, i: nat, v: int)
    ensures Dot(OneHot(|weights|, i, v), weights) == if i < |weights| then v * weights[i] else 0
  {
    if weights != [] {
      var values := OneHot(|weights|, i, v);
      if i == 0 {
        assert values[1..] == OneHot(|weights| - 1, |weights|, v);
        OneHotDot(weights[1..], |weights|, v);
      } else {
        assert values[1..] == OneHot(|weights| - 1, i - 1, v);
        OneHotDot(weights[1..], i - 1, v);
      }
    }
  }

  lemma {:induction false} EveryoneBounded(weights: seq<nat>)
    requires forall i :: 0 <= i < |weights| ==> 1 <= weights[i] <= MAX_WEIGHT
    ensures |weights| <= Everyone(weights) <= |weights| * MAX_WEIGHT
  {
    if weights != [] {
      EveryoneBounded(weights[1..]);
      Distribute(1, 1, |weights| - 1, MAX_WEIGHT);
    }
  }

  lemma {:induction false} WeighedSums(values: seq<int>, weights: seq<nat>)
    requires |values| == |weights|
    ensures SumBy(Weigh(values, weights), ProductFn()) == Dot(values, weights)
    ensures Median.TotalWeight(Weigh(values, weights)) == Everyone(weights)
  {
    if values != [] {
      WeighedSums(values[1..], weights[1..]);
      assert Weigh(values, weights)[1..] == Weigh(values[1..], weights[1..]);
    }
  }

  lemma AverageIsDot(values: seq<int>, weights: seq<nat>)
    requires values != [] && |values| == |weights| && Bounded(Weigh(values, weights))
    ensures Everyone(weights) > 0
    ensures Median.TotalWeight(Weigh(values, weights)) > 0
    ensures WeightedAverageOf(Weigh(values, weights)) == TruncDiv(Dot(values, weights), Everyone(weights))
  {
    WeighedSums(values, weights);
    ValuesWithin(Weigh(values, weights));
    AveragesExact(Weigh(values, weights), -MAX_DATA_VALUE, MAX_DATA_VALUE);
  }

  lemma ValuesWithin(rs: seq<Reading>)
    requires Bounded(rs)
    ensures Median.ValuesIn(rs, -MAX_DATA_VALUE, MAX_DATA_VALUE)
  {
  }

  lemma SameSharesAgree(values: seq<int>, w: seq<nat>, e: seq<nat>)
    requires |values| == |w| == |e| > 0 && Proportional(w, e)
    requires Bounded(Weigh(values, w)) && Bounded(Weigh(values, e))
    ensures Median.TotalWeight(Weigh(values, w)) > 0 && Median.TotalWeight(Weigh(values, e)) > 0
    ensures WeightedAverageOf(Weigh(values, w)) == WeightedAverageOf(Weigh(values, e))
  {
    AverageIsDot(values, w);
    AverageIsDot(values, e);
    ProportionalDots(values, w, e, Everyone(w), Everyone(e));
    SameQuotient(Dot(values, w), Dot(values, e), Everyone(w), Everyone(e));
  }

  /** If one oracle's share differs, let it alone report the largest value there is. */
  lemma OtherShareDiffers(w: seq<nat>, e: seq<nat>, i: nat)
    requires |w| == |e| && i < |w| && w[i] * Everyone(e) > e[i] * Everyone(w)
    requires var values := OneHot(|w|, i, MAX_DATA_VALUE); Bounded(Weigh(values, w)) && Bounded(Weigh(values, e))
    ensures var values := OneHot(|w|, i, MAX_DATA_VALUE);
      && Median.TotalWeight(Weigh(values, w)) > 0 && Median.TotalWeight(Weigh(values, e)) > 0
      && WeightedAverageOf(Weigh(values, w)) > WeightedAverageOf(Weigh(values, e))
  {
    var values := OneHot(|w|, i, MAX_DATA_VALUE);
    AverageIsDot(values, w);
    AverageIsDot(values, e);
    OneHotDot(w, i, MAX_DATA_VALUE);
    OneHotDot(e, i, MAX_DATA_VALUE);
    TotalsBounded(values, w);
    TotalsBounded(values, e);
    MulMono(Everyone(w), MAX_DATA_POINTS * MAX_WEIGHT, Everyone(e));
    MulMono(Everyone(e), MAX_DATA_POINTS * MAX_WEIGHT, MAX_DATA_POINTS * MAX_WEIGHT);
    FarShares(w[i], e[i], Everyone(w), Everyone(e), MAX_DATA_VALUE);
  }

  lemma WeightBounded(values: seq<int>, weights: seq<nat>, i: nat)
    requires |values| == |weights| && Bounded(Weigh(values, weights)) && i < |weights|
    ensures 1 <= weights[i] <= MAX_WEIGHT
  {
    assert Weigh(values, weights)[i].weight == weights[i];
  }

  lemma TotalsBounded(values: seq<int>, weights: seq<nat>)
    requires |values| == |weights| && Bounded(Weigh(values, weights))
    ensures Everyone(weights) <= MAX_DATA_POINTS * MAX_WEIGHT
  {
    assert |weights| <= MAX_DATA_POINTS;
    forall i | 0 <= i < |weights| ensures 1 <= weights[i] <= MAX_WEIGHT {
      WeightBounded(values, weights, i);
    }
    EveryoneBounded(weights);
  }

  // ----- The two paths -----

  lemma EligibleBounded(s: Store, dt: Symbol, es: seq<DataPoint>, ps: seq<DataPoint>, now: nat)
    requires Sound(s) && AllEligible(s, dt, es, now) && SameOracles(es, ps) && Guarded(ps)
    ensures Bounded(Weigh(ValuesOf(ps), Registered(s, dt, es))) && Bounded(Weigh(ValuesOf(ps), Effective(s, dt, es)))
  {
    forall i | 0 <= i < |es|
      ensures 1 <= Registered(s, dt, es)[i] <= MAX_WEIGHT && 1 <= Effective(s, dt, es)[i] <= MAX_WEIGHT
    {
      EffectiveWeightBounded(s, es[i].oracle, dt);
      assert Map(es, ReportingFn(s, dt))[i].weight == Registered(s, dt, es)[i];
      assert Map(es, DecidingFn(s, dt))[i].weight == Effective(s, dt, es)[i];
    }
  }

  /** Without the filter both paths are the weighted average of the same values. */
  lemma BothAverages(s: Store, dt: Symbol, es: seq<DataPoint>, ps: seq<DataPoint>, now: nat)
    requires Sound(s) && MethodFor(s, dt) == WeightedAverage && !OutliersFor(s, dt).enabled
    requires es != [] && AllEligible(s, dt, es, now) && SameOracles(es, ps) && Guarded(ps)
    ensures var w, e := Weigh(ValuesOf(ps), Registered(s, dt, es)), Weigh(ValuesOf(ps), Effective(s, dt, es));
      && Bounded(w) && Bounded(e) && Median.TotalWeight(w) > 0 && Median.TotalWeight(e) > 0
      && (|es| < s.settings.minOracleCount ==> Report(s, dt, ps, now) == Decide(s, dt, ps, now) == None)
      && (|es| >= s.settings.minOracleCount ==>
            && Report(s, dt, ps, now) == Some(WeightedAverageOf(w)) && Decide(s, dt, ps, now) == Some(WeightedAverageOf(e)))
  {
    EligibleBounded(s, dt, es, ps, now);
    AverageIsDot(ValuesOf(ps), Registered(s, dt, es));
    AverageIsDot(ValuesOf(ps), Effective(s, dt, es));
    StillEligible(s, dt, es, ps, now);
    NothingFiltered(OutliersFor(s, dt), Map(ps, DecidingFn(s, dt)));
    NothingFiltered(OutliersFor(s, dt), Map(ps, ReportingFn(s, dt)));
  }

  lemma OneHotDisagrees(s: Store, dt: Symbol, es: seq<DataPoint>, i: nat, now: nat)
    requires Sound(s) && MethodFor(s, dt) == WeightedAverage && !OutliersFor(s, dt).enabled
    requires es != [] && AllEligible(s, dt, es, now) && |es| >= s.settings.minOracleCount && i < |es|
    requires var w, e := Registered(s, dt, es), Effective(s, dt, es); w[i] * Everyone(e) != e[i] * Everyone(w)
    ensures !ReportAgrees(s, dt, es, now)
  {
    var w, e := Registered(s, dt, es), Effective(s, dt, es);
    var values := OneHot(|es|, i, MAX_DATA_VALUE);
    var ps := WithValues(es, values);
    assert ValuesOf(ps) == values && SameOracles(es, ps) && Guarded(ps);
    BothAverages(s, dt, es, ps, now);
    if w[i] * Everyone(e) > e[i] * Everyone(w) {
      OtherShareDiffers(w, e, i);
    } else {
      OtherShareDiffers(e, w, i);
    }
  }

  /** By the weighted average, reported and decided value agree for all values that the eligible oracles may report if
      and only if every oracle has the same share of the registered and of the effective weight (or there are too few
      oracles for any value). */
  lemma AverageAgreesExactly(s: Store, dt: Symbol, es: seq<DataPoint>, now: nat)
    requires Sound(s) && MethodFor(s, dt) == WeightedAverage && !OutliersFor(s, dt).enabled
    requires es != [] && AllEligible(s, dt, es, now)
    ensures ReportAgrees(s, dt, es, now) <==>
            |es| < s.settings.minOracleCount || Proportional(Registered(s, dt, es), Effective(s, dt, es))
  {
    var w, e := Registered(s, dt, es), Effective(s, dt, es);
    if |es| < s.settings.minOracleCount || Proportional(w, e) {
      forall ps | SameOracles(es, ps) && Guarded(ps) ensures Report(s, dt, ps, now) == Decide(s, dt, ps, now) {
        BothAverages(s, dt, es, ps, now);
        if |es| >= s.settings.minOracleCount {
          SameSharesAgree(ValuesOf(ps), w, e);
        }
      }
    } else {
      var i :| 0 <= i < |w| && w[i] * Everyone(e) != e[i] * Everyone(w);
      OneHotDisagrees(s, dt, es, i, now);
    }
  }
}
