/** Sequences: mapping, additive sums, masks, and sorting, with what is invariant under reordering. */
module Sequences {

  function Map<T, U>(s: seq<T>, f: T -> U): (r: seq<U>)
    ensures |r| == |s|
    ensures forall i :: 0 <= i < |s| ==> r[i] == f(s[i])
  {
    seq(|s|, i requires 0 <= i < |s| => f(s[i]))
  }

  function SumBy<T>(s: seq<T>, f: T -> int): int {
    if s == [] then 0 else f(s[0]) + SumBy(s[1..], f)
  }

  function Without<T>(s: seq<T>, k: nat): (r: seq<T>)
    requires k < |s|
    ensures multiset(s) == multiset(r) + multiset{s[k]}
  {
    assert s == s[..k] + [s[k]] + s[k + 1..];
    s[..k] + s[k + 1..]
  }

  lemma {:induction false} SumByAppend<T>(a: seq<T>, b: seq<T>, f: T -> int)
    ensures SumBy(a + b, f) == SumBy(a, f) + SumBy(b, f)
  {
    if a == [] {
      assert a + b == b;
    } else {
      assert (a + b)[1..] == a[1..] + b;
      SumByAppend(a[1..], b, f);
    }
  }

  lemma SumBySnoc<T>(s: seq<T>, x: T, f: T -> int)
    ensures SumBy(s + [x], f) == SumBy(s, f) + f(x)
  {
    SumByAppend(s, [x], f);
    assert [x][1..] == [];
  }

  lemma {:induction false} SumByWithout<T>(s: seq<T>, k: nat, f: T -> int)
    requires k < |s|
    ensures SumBy(s, f) == f(s[k]) + SumBy(Without(s, k), f)
  {
    if k == 0 {
      assert Without(s, 0) == s[1..];
    } else {
      var r := Without(s, k);
      assert r[0] == s[0] && r[1..] == Without(s[1..], k - 1);
      SumByWithout(s[1..], k - 1, f);
    }
  }

  lemma MatchHead<T>(a: seq<T>, b: seq<T>) returns (k: nat)
    requires multiset(a) == multiset(b) && a != []
    ensures k < |b| && b[k] == a[0]
    ensures multiset(a[1..]) == multiset(Without(b, k))
  {
    assert a == [a[0]] + a[1..];
    assert a[0] in multiset(b);
    k :| 0 <= k < |b| && b[k] == a[0];
    assert multiset(a[1..]) == multiset(a) - multiset{a[0]};
    assert multiset(Without(b, k)) == multiset(b) - multiset{b[k]};
  }

  /** A sum does not depend on the order of its terms. */
  lemma {:induction false} SumByPermutation<T>(a: seq<T>, b: seq<T>, f: T -> int)
    requires multiset(a) == multiset(b)
    ensures SumBy(a, f) == SumBy(b, f)
  {
    if a == [] {
      assert |multiset(b)| == 0;
    } else {
      var k := MatchHead(a, b);
      SumByPermutation(a[1..], Without(b, k), f);
      SumByWithout(b, k, f);
    }
  }

  lemma {:induction false} SumByMono<T(!new)>(s: seq<T>, f: T -> int, g: T -> int)
    requires forall x :: x in s ==> f(x) <= g(x)
    ensures SumBy(s, f) <= SumBy(s, g)
  {
    if s != [] {
      SumByMono(s[1..], f, g);
    }
  }

  lemma MapWithout<T, U>(s: seq<T>, k: nat, f: T -> U)
    requires k < |s|
    ensures Map(Without(s, k), f) == Without(Map(s, f), k)
  {
    var l, r := Map(Without(s, k), f), Without(Map(s, f), k);
    assert forall i :: 0 <= i < |l| ==> l[i] == r[i];
  }

  lemma MapSnoc<T, U>(s: seq<T>, x: T, f: T -> U)
    ensures Map(s + [x], f) == Map(s, f) + [f(x)]
  {
    var l, r := Map(s + [x], f), Map(s, f) + [f(x)];
    assert forall i :: 0 <= i < |l| ==> l[i] == r[i];
  }

  lemma MapDrop<T, U>(s: seq<T>, k: nat, f: T -> U)
    requires k <= |s|
    ensures Map(s[k..], f) == Map(s, f)[k..]
  {
    var l, r := Map(s[k..], f), Map(s, f)[k..];
    assert forall i :: 0 <= i < |l| ==> l[i] == r[i];
  }

  lemma {:induction false} MapPermutation<T, U>(a: seq<T>, b: seq<T>, f: T -> U)
    requires multiset(a) == multiset(b)
    ensures multiset(Map(a, f)) == multiset(Map(b, f))
  {
    assert |a| == |multiset(a)| == |multiset(b)| == |b|;
    if a == [] {
      assert a == b;
    } else {
      var k := MatchHead(a, b);
      MapPermutation(a[1..], Without(b, k), f);
      MapWithout(b, k, f);
      MapWithout(a, 0, f);
      assert Without(a, 0) == a[1..];
    }
  }

  // ----- Filters -----

  /** The elements satisfying `p`, in order: what the storage loops rebuild their lists with. */
  function Filter<T>(s: seq<T>, p: T -> bool): (r: seq<T>)
    ensures |r| <= |s|
    ensures forall x :: x in r ==> x in s && p(x)
    ensures forall x :: x in s && p(x) ==> x in r
  {
    if s == [] then [] else (if p(s[0]) then [s[0]] else []) + Filter(s[1..], p)
  }

  lemma {:induction false} FilterSnoc<T>(s: seq<T>, x: T, p: T -> bool)
    ensures Filter(s + [x], p) == Filter(s, p) + (if p(x) then [x] else [])
  {
    if s == [] {
      assert s + [x] == [x];
    } else {
      assert (s + [x])[1..] == s[1..] + [x];
      FilterSnoc(s[1..], x, p);
    }
  }

  lemma {:induction false} FilterAll<T>(s: seq<T>, p: T -> bool)
    requires forall x :: x in s ==> p(x)
    ensures Filter(s, p) == s
  {
    if s != [] {
      FilterAll(s[1..], p);
    }
  }

  /** Filtering one element further. */
  lemma FilterNext<T>(s: seq<T>, i: nat, p: T -> bool)
    requires i < |s|
    ensures Filter(s[..i + 1], p) == Filter(s[..i], p) + (if p(s[i]) then [s[i]] else [])
  {
    assert s[..i + 1] == s[..i] + [s[i]];
    FilterSnoc(s[..i], s[i], p);
  }

  lemma {:induction false} FilterCount<T>(s: seq<T>, p: T -> bool, x: T)
    ensures multiset(Filter(s, p))[x] == if p(x) then multiset(s)[x] else 0
  {
    if s != [] {
      assert s == [s[0]] + s[1..];
      FilterCount(s[1..], p, x);
    }
  }

  lemma FilterPermutation<T(!new)>(a: seq<T>, b: seq<T>, p: T -> bool)
    requires multiset(a) == multiset(b)
    ensures multiset(Filter(a, p)) == multiset(Filter(b, p))
  {
    forall x: T ensures multiset(Filter(a, p))[x] == multiset(Filter(b, p))[x] {
      FilterCount(a, p, x);
      FilterCount(b, p, x);
    }
  }

  function OtherThan<T(==)>(x: T): T -> bool {
    (y: T) => y != x
  }

  ghost predicate Distinct<T>(s: seq<T>) {
    forall i, j :: 0 <= i < j < |s| ==> s[i] != s[j]
  }

  lemma {:induction false} FilterDistinct<T>(s: seq<T>, p: T -> bool)
    requires Distinct(s)
    ensures Distinct(Filter(s, p))
  {
    if s != [] {
      FilterDistinct(s[1..], p);
      var r := Filter(s[1..], p);
      forall i | 0 <= i < |r| ensures r[i] != s[0] {
        assert r[i] in s[1..];
      }
    }
  }

  /** Filtering keeps any projection of the elements distinct. */
  lemma {:induction false} FilterDistinctBy<T, U>(s: seq<T>, p: T -> bool, f: T -> U)
    requires Distinct(Map(s, f))
    ensures Distinct(Map(Filter(s, p), f))
  {
    if s != [] {
      var m, r := Map(s, f), Filter(s[1..], p);
      assert Map(s[1..], f) == m[1..];
      FilterDistinctBy(s[1..], p, f);
      if p(s[0]) {
        forall i | 0 <= i < |r| ensures f(r[i]) != f(s[0]) {
          assert r[i] in s[1..];
          var j :| 0 <= j < |s[1..]| && s[1..][j] == r[i];
          assert m[j + 1] == f(r[i]) && m[0] == f(s[0]);
        }
        assert Filter(s, p) == [s[0]] + r;
      }
    }
  }

  /** Pigeonhole: distinct elements of a list cannot outnumber it. */
  lemma {:induction false} DistinctFits<T>(a: seq<T>, b: seq<T>)
    requires Distinct(a) && forall x :: x in a ==> x in b
    ensures |a| <= |b|
  {
    if a != [] {
      assert a[0] in b;
      var k :| 0 <= k < |b| && b[k] == a[0];
      forall x | x in a[1..] ensures x in Without(b, k) {
        assert x in a && x != a[0];
        assert x in multiset(b);
        assert x in multiset(Without(b, k));
      }
      DistinctFits(a[1..], Without(b, k));
    }
  }

  lemma {:induction false} FilterNone<T>(s: seq<T>, p: T -> bool)
    requires forall x :: x in s ==> !p(x)
    ensures Filter(s, p) == []
  {
    if s != [] {
      FilterNone(s[1..], p);
    }
  }

  lemma {:induction false} FilterAppend<T>(a: seq<T>, b: seq<T>, p: T -> bool)
    ensures Filter(a + b, p) == Filter(a, p) + Filter(b, p)
  {
    if a == [] {
      assert a + b == b;
    } else {
      assert (a + b)[1..] == a[1..] + b;
      FilterAppend(a[1..], b, p);
    }
  }

  /** Distinctness is a property of the multiset. */
  lemma {:induction false} DistinctCounts<T(!new)>(s: seq<T>)
    ensures Distinct(s) <==> forall x :: multiset(s)[x] <= 1
  {
    if s != [] {
      assert s == [s[0]] + s[1..];
      DistinctCounts(s[1..]);
      if !Distinct(s[1..]) {
        var x :| multiset(s[1..])[x] > 1;
        assert multiset(s)[x] > 1;
      } else if s[0] in s[1..] {
        assert multiset(s)[s[0]] > 1;
      } else {
        assert multiset(s[1..])[s[0]] == 0;
      }
    }
  }

  lemma DistinctPermutation<T(!new)>(a: seq<T>, b: seq<T>)
    requires multiset(a) == multiset(b) && Distinct(a)
    ensures Distinct(b)
  {
    DistinctCounts(a);
    DistinctCounts(b);
  }

  /** Removal of the first occurrence, if any. */
  function RemoveFirst<T(==)>(s: seq<T>, x: T): seq<T> {
    if s == [] then [] else if s[0] == x then s[1..] else [s[0]] + RemoveFirst(s[1..], x)
  }

  lemma {:induction false} RemoveFirstCounts<T>(s: seq<T>, x: T)
    ensures multiset(RemoveFirst(s, x)) == multiset(s) - multiset{x}
  {
    if s != [] {
      assert s == [s[0]] + s[1..];
      RemoveFirstCounts(s[1..], x);
    }
  }

  lemma {:induction false} RemoveFirstAt<T>(s: seq<T>, k: nat)
    requires k < |s| && forall i :: 0 <= i < k ==> s[i] != s[k]
    ensures RemoveFirst(s, s[k]) == s[..k] + s[k + 1..]
  {
    if k == 0 {
      assert s[..0] + s[1..] == s[1..];
    } else {
      var rest := s[1..];
      RemoveFirstAt(rest, k - 1);
      assert [s[0]] + (rest[..k - 1] + rest[k..]) == s[..k] + s[k + 1..];
    }
  }

  lemma {:induction false} RemoveFirstAbsent<T>(s: seq<T>, x: T)
    requires x !in s
    ensures RemoveFirst(s, x) == s
  {
    if s != [] {
      RemoveFirstAbsent(s[1..], x);
    }
  }

  /** From a list without repetitions it takes the element out altogether. */
  lemma RemoveFirstDistinct<T(!new)>(s: seq<T>, x: T)
    requires Distinct(s)
    ensures Distinct(RemoveFirst(s, x))
    ensures forall y :: y in RemoveFirst(s, x) <==> y in s && y != x
  {
    RemoveFirstCounts(s, x);
    DistinctCounts(s);
    DistinctCounts(RemoveFirst(s, x));
    forall y ensures y in RemoveFirst(s, x) <==> y in s && y != x {
      assert y in RemoveFirst(s, x) <==> y in multiset(s) - multiset{x};
      assert y in s <==> y in multiset(s);
    }
  }

  // ----- Masks -----

  /** The subsequence of `s` at the positions `drop` leaves unmarked, in their original order. */
  function Keep<T>(s: seq<T>, drop: seq<bool>): (r: seq<T>)
    requires |s| == |drop|
    ensures |r| <= |s|
    ensures forall x :: x in r ==> x in s
  {
    if s == [] then []
    else (if drop[0] then [] else [s[0]]) + Keep(s[1..], drop[1..])
  }

  lemma {:induction false} KeepSameLength<T, U>(s: seq<T>, t: seq<U>, drop: seq<bool>)
    requires |s| == |t| == |drop|
    ensures |Keep(s, drop)| == |Keep(t, drop)|
  {
    if s != [] {
      KeepSameLength(s[1..], t[1..], drop[1..]);
    }
  }

  lemma {:induction false} KeepAppend<T>(s: seq<T>, drop: seq<bool>, x: T, d: bool)
    requires |s| == |drop|
    ensures Keep(s + [x], drop + [d]) == Keep(s, drop) + (if d then [] else [x])
  {
    if s == [] {
      assert s + [x] == [x] && drop + [d] == [d];
    } else {
      assert (s + [x])[1..] == s[1..] + [x];
      assert (drop + [d])[1..] == drop[1..] + [d];
      KeepAppend(s[1..], drop[1..], x, d);
    }
  }

  lemma {:induction false} KeepNone<T>(s: seq<T>, drop: seq<bool>)
    requires |s| == |drop|
    requires forall i :: 0 <= i < |s| ==> !drop[i]
    ensures Keep(s, drop) == s
  {
    if s != [] {
      KeepNone(s[1..], drop[1..]);
    }
  }

  /** Marking one more position removes exactly that element. */
  lemma {:induction false} KeepMark<T>(s: seq<T>, drop: seq<bool>, k: nat)
    requires |s| == |drop| && k < |s| && !drop[k]
    ensures multiset(Keep(s, drop)) == multiset(Keep(s, drop[k := true])) + multiset{s[k]}
  {
    if k == 0 {
      assert drop[0 := true][1..] == drop[1..];
    } else {
      assert drop[k := true][1..] == drop[1..][k - 1 := true];
      KeepMark(s[1..], drop[1..], k - 1);
    }
  }

  lemma {:induction false} KeepMap<T, U>(s: seq<T>, drop: seq<bool>, f: T -> U)
    requires |s| == |drop|
    ensures Map(Keep(s, drop), f) == Keep(Map(s, f), drop)
  {
    if s != [] {
      KeepMap(s[1..], drop[1..], f);
      assert Map(s, f)[1..] == Map(s[1..], f);
      if !drop[0] {
        assert Keep(s, drop)[1..] == Keep(s[1..], drop[1..]);
      }
    }
  }

  // ----- Sorting -----

  ghost predicate TotalPreorder<T(!new)>(leq: (T, T) -> bool) {
    && (forall a, b :: leq(a, b) || leq(b, a))
    && (forall a, b, c :: leq(a, b) && leq(b, c) ==> leq(a, c))
  }

  ghost predicate TotalOrder<T(!new)>(leq: (T, T) -> bool) {
    && TotalPreorder(leq)
    && (forall a, b :: leq(a, b) && leq(b, a) ==> a == b)
  }

  ghost predicate SortedBy<T>(s: seq<T>, leq: (T, T) -> bool) {
    forall i, j :: 0 <= i < j < |s| ==> leq(s[i], s[j])
  }

  /** `x` goes in front of the first element it does not exceed, so equal elements keep their order. */
  function Insert<T>(x: T, s: seq<T>, leq: (T, T) -> bool): seq<T> {
    if s == [] || leq(x, s[0]) then [x] + s else [s[0]] + Insert(x, s[1..], leq)
  }

  /** The standard library's stable sort, as a function of the slice. */
  function Sort<T>(s: seq<T>, leq: (T, T) -> bool): seq<T> {
    if s == [] then [] else Insert(s[0], Sort(s[1..], leq), leq)
  }

  lemma {:induction false} InsertSorts<T(!new)>(x: T, s: seq<T>, leq: (T, T) -> bool)
    requires TotalPreorder(leq) && SortedBy(s, leq)
    ensures SortedBy(Insert(x, s, leq), leq)
    ensures multiset(Insert(x, s, leq)) == multiset(s) + multiset{x}
    ensures |Insert(x, s, leq)| == |s| + 1
  {
    if s != [] && !leq(x, s[0]) {
      InsertSorts(x, s[1..], leq);
      var t := Insert(x, s[1..], leq);
      assert s == [s[0]] + s[1..];
      forall i | 0 <= i < |t| ensures leq(s[0], t[i]) {
        assert t[i] in multiset(t);
        if t[i] != x { assert t[i] in multiset(s[1..]); }
      }
    } else if s != [] {
      forall i | 0 <= i < |s| ensures leq(x, s[i]) {
      }
    }
  }

  lemma {:induction false} SortSorts<T(!new)>(s: seq<T>, leq: (T, T) -> bool)
    requires TotalPreorder(leq)
    ensures SortedBy(Sort(s, leq), leq)
    ensures multiset(Sort(s, leq)) == multiset(s)
    ensures |Sort(s, leq)| == |s|
  {
    if s != [] {
      SortSorts(s[1..], leq);
      InsertSorts(s[0], Sort(s[1..], leq), leq);
      assert s == [s[0]] + s[1..];
    }
  }

  lemma SortedHead<T(!new)>(a: seq<T>, b: seq<T>, leq: (T, T) -> bool)
    requires TotalPreorder(leq) && SortedBy(a, leq)
    requires a != [] && b != [] && multiset(a) == multiset(b)
    ensures leq(a[0], b[0])
  {
    assert b[0] in multiset(a);
    var i :| 0 <= i < |a| && a[i] == b[0];
    assert i > 0 || leq(a[0], a[0]);
  }

  /** Under an antisymmetric order there is only one sorted arrangement of a multiset. */
  lemma {:induction false} SortedUnique<T(!new)>(a: seq<T>, b: seq<T>, leq: (T, T) -> bool)
    requires TotalOrder(leq) && SortedBy(a, leq) && SortedBy(b, leq)
    requires multiset(a) == multiset(b)
    ensures a == b
  {
    assert |a| == |multiset(a)| == |multiset(b)| == |b|;
    if a != [] {
      SortedHead(a, b, leq);
      SortedHead(b, a, leq);
      assert a == [a[0]] + a[1..] && b == [b[0]] + b[1..];
      assert multiset(a[1..]) == multiset(a) - multiset{a[0]};
      assert multiset(b[1..]) == multiset(b) - multiset{b[0]};
      SortedUnique(a[1..], b[1..], leq);
    }
  }

  /** A sorted slice stays as it is. */
  lemma {:induction false} SortOfSorted<T>(s: seq<T>, leq: (T, T) -> bool)
    requires SortedBy(s, leq)
    ensures Sort(s, leq) == s
  {
    if s != [] {
      SortOfSorted(s[1..], leq);
      assert |s| > 1 ==> leq(s[0], s[1]);
    }
  }

  /** Sorting a live prefix of a buffer in place. */
  method SortPrefix<T>(a: array<T>, n: nat, leq: (T, T) -> bool)
    requires n <= a.Length
    modifies a
    ensures |Sort(old(a[..n]), leq)| == n
    ensures a[..n] == Sort(old(a[..n]), leq)
    ensures a[n..] == old(a[n..])
  {
    SortLength(a[..n], leq);
    var sorted := Sort(a[..n], leq);
    forall i | 0 <= i < n {
      a[i] := sorted[i];
    }
  }

  lemma InsertLength<T>(x: T, s: seq<T>, leq: (T, T) -> bool)
    ensures |Insert(x, s, leq)| == |s| + 1
  {
  }

  lemma {:induction false} SortLength<T>(s: seq<T>, leq: (T, T) -> bool)
    ensures |Sort(s, leq)| == |s|
  {
    if s != [] {
      SortLength(s[1..], leq);
      InsertLength(s[0], Sort(s[1..], leq), leq);
    }
  }
}
