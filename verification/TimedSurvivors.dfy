/** Which readings, with their times, survive the outlier filter: the filter ranks by value and weight only, so
    equal readings of different times can stand in for each other. */
module TimedSurvivors {
  import opened Arithmetic
  import opened Sequences
  import opened WeightedMedian
  import opened Averages
  import opened TimeWeighting
  import opened OutlierFilter

  function ReadingFn(): Timed -> Reading {
    (t: Timed) => Reading(t.value, t.weight)
  }

  function TimestampFn(): Timed -> nat {
    (t: Timed) => t.time
  }

  function DropsOf(cfg: OutlierConfig, ts: seq<Timed>): (drop: seq<bool>)
    ensures |drop| == |ts|
  {
    Outliers(cfg, Map(ts, ReadingFn()))
  }

  /** The readings the filter leaves, each still with its time. */
  function Survivors(cfg: OutlierConfig, ts: seq<Timed>): seq<Timed> {
    Keep(ts, DropsOf(cfg, ts))
  }

  /** The cut never separates equal readings of different times. */
  ghost predicate CutClean(cfg: OutlierConfig, ts: seq<Timed>) {
    forall i, j :: 0 <= i < |ts| && 0 <= j < |ts| && Splits(cfg, ts, i, j) ==> ts[i] == ts[j]
  }

  /** Equal readings, the one at i dropped and the one at j kept. */
  predicate Splits(cfg: OutlierConfig, ts: seq<Timed>, i: nat, j: nat)
    requires i < |ts| && j < |ts|
  {
    DropsOf(cfg, ts)[i] && !DropsOf(cfg, ts)[j] && ReadingFn()(ts[i]) == ReadingFn()(ts[j])
  }

  /** The same readings survive with the same times in every storage order. */
  ghost predicate SurvivorsSettled(cfg: OutlierConfig, ts: seq<Timed>) {
    forall us :: multiset(us) == multiset(ts) ==> multiset(Survivors(cfg, us)) == multiset(Survivors(cfg, ts))
  }

  // ----- A split class can be exchanged -----

  /** Replacing one element in front of the rest. */
  lemma KeepHead<T>(s: seq<T>, drop: seq<bool>)
    requires |s| == |drop| > 0
    ensures multiset(Keep(s, drop)) == (if drop[0] then multiset{} else multiset{s[0]}) + multiset(Keep(s[1..], drop[1..]))
  {
  }

  /** Replacing one kept element. */
  lemma {:induction false} KeepUpdate<T>(s: seq<T>, drop: seq<bool>, k: nat, x: T)
    requires |s| == |drop| && k < |s| && !drop[k]
    ensures multiset(Keep(s[k := x], drop)) + multiset{s[k]} == multiset(Keep(s, drop)) + multiset{x}
  {
    KeepHead(s, drop);
    KeepHead(s[k := x], drop);
    if k == 0 {
      assert s[0 := x][1..] == s[1..];
    } else {
      assert s[k := x][1..] == s[1..][k - 1 := x];
      KeepUpdate(s[1..], drop[1..], k - 1, x);
      JoinBoth(if drop[0] then multiset{} else multiset{s[0]}, multiset(Keep(s[k := x][1..], drop[1..])),
               multiset(Keep(s[1..], drop[1..])), s[k], x);
    }
  }

  /** Replacing a dropped one. */
  lemma {:induction false} KeepIgnores<T>(s: seq<T>, drop: seq<bool>, k: nat, x: T)
    requires |s| == |drop| && k < |s| && drop[k]
    ensures Keep(s[k := x], drop) == Keep(s, drop)
  {
    if k == 0 {
      assert s[0 := x][1..] == s[1..];
    } else {
      assert s[k := x][1..] == s[1..][k - 1 := x];
      KeepIgnores(s[1..], drop[1..], k - 1, x);
    }
  }

  lemma JoinBoth<T>(h: multiset<T>, a: multiset<T>, b: multiset<T>, x: T, y: T)
    requires a + multiset{x} == b + multiset{y}
    ensures (h + a) + multiset{x} == (h + b) + multiset{y}
  {
    assert (h + a) + multiset{x} == h + (a + multiset{x});
  }

  lemma SplitCutExchanges(cfg: OutlierConfig, ts: seq<Timed>, i: nat, j: nat)
    requires i < |ts| && j < |ts| && Splits(cfg, ts, i, j) && ts[i] != ts[j]
    ensures var us := ts[i := ts[j]][j := ts[i]];
      multiset(us) == multiset(ts) && multiset(Survivors(cfg, us)) != multiset(Survivors(cfg, ts))
  {
    var mid := ts[i := ts[j]];
    var us, drop := mid[j := ts[i]], DropsOf(cfg, ts);
    assert Map(us, ReadingFn()) == Map(ts, ReadingFn());
    KeepIgnores(ts, drop, i, ts[j]);
    KeepUpdate(mid, drop, j, ts[i]);
    var kept, moved := multiset(Survivors(cfg, ts)), multiset(Survivors(cfg, us));
    assert moved + multiset{ts[j]} == kept + multiset{ts[i]};
    assert (moved + multiset{ts[j]})[ts[i]] == (kept + multiset{ts[i]})[ts[i]];
  }

  // ----- A class that is not split survives as a whole -----

  function ClassFn(r: Reading): Timed -> bool {
    (t: Timed) => ReadingFn()(t) == r
  }

  lemma {:induction false} ClassCount(ts: seq<Timed>, r: Reading)
    ensures |Filter(ts, ClassFn(r))| == multiset(Map(ts, ReadingFn()))[r]
  {
    if ts != [] {
      assert Map(ts, ReadingFn()) == [ReadingFn()(ts[0])] + Map(ts[1..], ReadingFn());
      ClassCount(ts[1..], r);
    }
  }

  lemma {:induction false} KeepCounts<T>(s: seq<T>, drop: seq<bool>, x: T)
    requires |s| == |drop|
    ensures multiset(Keep(s, drop))[x] <= multiset(s)[x]
    ensures (forall i :: 0 <= i < |s| && s[i] == x ==> !drop[i]) ==> multiset(Keep(s, drop))[x] == multiset(s)[x]
    ensures (forall i :: 0 <= i < |s| && s[i] == x ==> drop[i]) ==> multiset(Keep(s, drop))[x] == 0
  {
    if s != [] {
      assert s == [s[0]] + s[1..];
      KeepCounts(s[1..], drop[1..], x);
    }
  }

  /** A reading is kept for every storage order as often as for this one. */
  lemma SameReadingsKept(cfg: OutlierConfig, ts: seq<Timed>, us: seq<Timed>, r: Reading)
    requires multiset(us) == multiset(ts)
    ensures |Filter(Survivors(cfg, us), ClassFn(r))| == |Filter(Survivors(cfg, ts), ClassFn(r))|
    ensures multiset(Filter(us, ClassFn(r))) == multiset(Filter(ts, ClassFn(r)))
  {
    var rs, qs := Map(ts, ReadingFn()), Map(us, ReadingFn());
    MapPermutation(us, ts, ReadingFn());
    SurvivorsOfPermutation(cfg, qs, rs);
    KeepMap(ts, DropsOf(cfg, ts), ReadingFn());
    KeepMap(us, DropsOf(cfg, us), ReadingFn());
    ClassCount(Survivors(cfg, ts), r);
    ClassCount(Survivors(cfg, us), r);
    FilterPermutation(us, ts, ClassFn(r));
  }

  lemma {:induction false} KeptOfClass(ts: seq<Timed>, drop: seq<bool>, r: Reading)
    requires |ts| == |drop|
    ensures multiset(Filter(Keep(ts, drop), ClassFn(r))) <= multiset(Filter(ts, ClassFn(r)))
  {
    forall x: Timed ensures multiset(Filter(Keep(ts, drop), ClassFn(r)))[x] <= multiset(Filter(ts, ClassFn(r)))[x] {
      FilterCount(Keep(ts, drop), ClassFn(r), x);
      FilterCount(ts, ClassFn(r), x);
      KeepCounts(ts, drop, x);
    }
  }

  lemma {:induction false} AllTheSame(a: seq<Timed>, b: seq<Timed>, e: Timed)
    requires |a| == |b| && (forall x :: x in a ==> x == e) && (forall x :: x in b ==> x == e)
    ensures a == b
  {
    forall i | 0 <= i < |a| ensures a[i] == b[i] {
      assert a[i] in a && b[i] in b;
    }
  }

  lemma WholeClass(part: multiset<Timed>, whole: multiset<Timed>)
    requires part <= whole && |part| == |whole|
    ensures part == whole
  {
    assert whole == part + (whole - part);
  }

  /** A class the cut splits consists of one and the same timed reading. */
  lemma SplitClassIsOne(cfg: OutlierConfig, ts: seq<Timed>, r: Reading, i: nat, j: nat, x: Timed)
    requires CutClean(cfg, ts) && i < |ts| && j < |ts| && Splits(cfg, ts, i, j) && ReadingFn()(ts[i]) == r
    requires x in ts && ReadingFn()(x) == r
    ensures x == ts[i]
  {
    var k :| 0 <= k < |ts| && ts[k] == x;
    assert Splits(cfg, ts, k, j) || Splits(cfg, ts, i, k);
    assert ts[i] == ts[j];
  }

  /** How a class survives: not at all, as a whole, or as copies of one timed reading. */
  lemma ClassSurvives(cfg: OutlierConfig, ts: seq<Timed>, r: Reading) returns (e: Timed)
    requires CutClean(cfg, ts)
    ensures var part, whole := Filter(Survivors(cfg, ts), ClassFn(r)), Filter(ts, ClassFn(r));
      || part == []
      || |part| == |whole|
      || (forall x :: x in whole ==> x == e)
  {
    e := Timed(0, 0, 0);
    var drop := DropsOf(cfg, ts);
    if i, j :| 0 <= i < |ts| && 0 <= j < |ts| && Splits(cfg, ts, i, j) && ReadingFn()(ts[i]) == r {
      e := ts[i];
      var whole := Filter(ts, ClassFn(r));
      forall x | x in whole ensures x == e {
        SplitClassIsOne(cfg, ts, r, i, j, x);
      }
    } else if k :| 0 <= k < |ts| && drop[k] && ReadingFn()(ts[k]) == r {
      forall j | 0 <= j < |ts| && ReadingFn()(ts[j]) == r ensures drop[j] {
        assert !Splits(cfg, ts, k, j);
      }
      forall x | x in Survivors(cfg, ts) ensures !ClassFn(r)(x) {
        NoneKept(ts, drop, r, x);
      }
      FilterNone(Survivors(cfg, ts), ClassFn(r));
    } else {
      AllKept(ts, drop, r);
    }
  }

  lemma NoneKept(ts: seq<Timed>, drop: seq<bool>, r: Reading, x: Timed)
    requires |ts| == |drop| && x in Keep(ts, drop)
    requires forall j :: 0 <= j < |ts| && ReadingFn()(ts[j]) == r ==> drop[j]
    ensures ReadingFn()(x) != r
  {
    assert x in multiset(Keep(ts, drop));
    KeepCounts(ts, drop, x);
  }

  lemma AllKept(ts: seq<Timed>, drop: seq<bool>, r: Reading)
    requires |ts| == |drop|
    requires forall j :: 0 <= j < |ts| && ReadingFn()(ts[j]) == r ==> !drop[j]
    ensures |Filter(Keep(ts, drop), ClassFn(r))| == |Filter(ts, ClassFn(r))|
  {
    var part, whole := Filter(Keep(ts, drop), ClassFn(r)), Filter(ts, ClassFn(r));
    forall x: Timed ensures multiset(part)[x] == multiset(whole)[x] {
      FilterCount(Keep(ts, drop), ClassFn(r), x);
      FilterCount(ts, ClassFn(r), x);
      KeepCounts(ts, drop, x);
    }
    assert multiset(part) == multiset(whole);
    assert |part| == |multiset(part)| == |multiset(whole)| == |whole|;
  }

  /** So in every storage order the same timed readings of the class survive. */
  lemma ClassSettled(cfg: OutlierConfig, ts: seq<Timed>, us: seq<Timed>, r: Reading)
    requires CutClean(cfg, ts) && multiset(us) == multiset(ts)
    ensures multiset(Filter(Survivors(cfg, us), ClassFn(r))) == multiset(Filter(Survivors(cfg, ts), ClassFn(r)))
  {
    var p, q := Filter(Survivors(cfg, ts), ClassFn(r)), Filter(Survivors(cfg, us), ClassFn(r));
    var whole := Filter(ts, ClassFn(r));
    var e := ClassSurvives(cfg, ts, r);
    SameReadingsKept(cfg, ts, us, r);
    KeptOfClass(ts, DropsOf(cfg, ts), r);
    KeptOfClass(us, DropsOf(cfg, us), r);
    if p != [] {
      if |p| == |whole| {
        WholeClass(multiset(p), multiset(whole));
        WholeClass(multiset(q), multiset(whole));
      } else {
        InPart(p, whole, e);
        InPart(q, whole, e);
        AllTheSame(p, q, e);
      }
    }
  }

  lemma InPart(part: seq<Timed>, whole: seq<Timed>, e: Timed)
    requires multiset(part) <= multiset(whole) && forall x :: x in whole ==> x == e
    ensures forall x :: x in part ==> x == e
  {
    forall x | x in part ensures x == e {
      assert x in multiset(part);
      assert multiset(whole)[x] > 0;
      assert x in whole;
    }
  }

  /** Which timed readings survive is the same for every storage order if and only if the cut never separates
      equal readings of different times. */
  lemma SurvivorsSettledExactly(cfg: OutlierConfig, ts: seq<Timed>)
    ensures SurvivorsSettled(cfg, ts) <==> CutClean(cfg, ts)
  {
    if CutClean(cfg, ts) {
      forall us | multiset(us) == multiset(ts) ensures multiset(Survivors(cfg, us)) == multiset(Survivors(cfg, ts)) {
        CleanSurvivors(cfg, ts, us);
      }
    } else {
      var i, j :| 0 <= i < |ts| && 0 <= j < |ts| && Splits(cfg, ts, i, j) && ts[i] != ts[j];
      SplitCutExchanges(cfg, ts, i, j);
    }
  }

  lemma CleanSurvivors(cfg: OutlierConfig, ts: seq<Timed>, us: seq<Timed>)
    requires CutClean(cfg, ts) && multiset(us) == multiset(ts)
    ensures multiset(Survivors(cfg, us)) == multiset(Survivors(cfg, ts))
  {
    forall x: Timed ensures multiset(Survivors(cfg, us))[x] == multiset(Survivors(cfg, ts))[x] {
      ClassSettled(cfg, ts, us, ReadingFn()(x));
      FilterCount(Survivors(cfg, us), ClassFn(ReadingFn()(x)), x);
      FilterCount(Survivors(cfg, ts), ClassFn(ReadingFn()(x)), x);
    }
  }

  // ----- The time-ordered survivors -----

  /** Whatever the storage order, and however the sort leaves ties, the survivors in time order are the same. */
  ghost predicate OneArrangement(cfg: OutlierConfig, ts: seq<Timed>) {
    forall us, a :: multiset(us) == multiset(ts) && multiset(a) == multiset(Survivors(cfg, us)) && SortedBy(a, ByTime())
      ==> a == Sort(Survivors(cfg, ts), ByTime())
  }

  lemma InTimeOrder(ts: seq<Timed>)
    ensures SortedBy(Sort(ts, ByTime()), ByTime()) && multiset(Sort(ts, ByTime())) == multiset(ts)
  {
    assert TotalPreorder(ByTime());
    SortSorts(ts, ByTime());
  }

  lemma CleanArrangement(cfg: OutlierConfig, ts: seq<Timed>, us: seq<Timed>, a: seq<Timed>)
    requires CutClean(cfg, ts) && Unambiguous(Survivors(cfg, ts))
    requires multiset(us) == multiset(ts) && multiset(a) == multiset(Survivors(cfg, us)) && SortedBy(a, ByTime())
    ensures a == Sort(Survivors(cfg, ts), ByTime())
  {
    CleanSurvivors(cfg, ts, us);
    InTimeOrder(Survivors(cfg, ts));
    UnambiguousPermutation(a, Survivors(cfg, ts));
    TimeOrderUnique(a, Sort(Survivors(cfg, ts), ByTime()));
  }

  /** What the time-weighted average is computed from is independent of storage order and of the sort if and only
      if the cut separates no equal readings of different times and the survivors that share a time agree. */
  lemma OneArrangementExactly(cfg: OutlierConfig, ts: seq<Timed>)
    ensures OneArrangement(cfg, ts) <==> CutClean(cfg, ts) && Unambiguous(Survivors(cfg, ts))
  {
    var kept := Survivors(cfg, ts);
    InTimeOrder(kept);
    if CutClean(cfg, ts) && Unambiguous(kept) {
      forall us, a | multiset(us) == multiset(ts) && multiset(a) == multiset(Survivors(cfg, us)) && SortedBy(a, ByTime())
        ensures a == Sort(kept, ByTime())
      {
        CleanArrangement(cfg, ts, us, a);
      }
    } else if !CutClean(cfg, ts) {
      SurvivorsSettledExactly(cfg, ts);
      var us :| multiset(us) == multiset(ts) && multiset(Survivors(cfg, us)) != multiset(kept);
      InTimeOrder(Survivors(cfg, us));
      assert Sort(Survivors(cfg, us), ByTime()) != Sort(kept, ByTime());
    } else {
      UnambiguousPermutation(kept, Sort(kept, ByTime()));
      TimeOrderExactly(Sort(kept, ByTime()));
      var b :| multiset(b) == multiset(Sort(kept, ByTime())) && SortedBy(b, ByTime()) && b != Sort(kept, ByTime());
      assert multiset(ts) == multiset(ts);
    }
  }

  ghost predicate EqualReadingsShareTimes(ts: seq<Timed>) {
    forall i, j :: 0 <= i < |ts| && 0 <= j < |ts| ==>
      (ReadingFn()(ts[i]) == ReadingFn()(ts[j]) ==> ts[i].time == ts[j].time)
  }

  /** It is enough that equal times mean equal readings, and equal readings mean equal times or the filter does
      not apply. */
  lemma UntiedIsSettled(cfg: OutlierConfig, ts: seq<Timed>)
    requires Unambiguous(ts)
    requires !Applies(cfg, |ts|) || EqualReadingsShareTimes(ts)
    ensures CutClean(cfg, ts) && Unambiguous(Survivors(cfg, ts))
  {
    var kept := Survivors(cfg, ts);
    forall i, j | 0 <= i < |kept| && 0 <= j < |kept| && kept[i].time == kept[j].time ensures kept[i] == kept[j] {
      assert kept[i] in ts && kept[j] in ts;
    }
  }
}
