/** The sort of the pending queue: a bubble sort on submission times, which must not let a later claim
    overtake an earlier one of the same time. */
module QueueSort {
  import opened Sequences

  /** A claim id and its submission time. */
  type Entry = (nat, nat)

  function NotLater(): (Entry, Entry) -> bool {
    (a: Entry, b: Entry) => a.1 <= b.1
  }

  function AtTime(t: nat): Entry -> bool {
    (e: Entry) => e.1 == t
  }

  /** Entries of equal time come in the same order in both. */
  ghost predicate SameOrder(a: seq<Entry>, b: seq<Entry>) {
    forall t :: Filter(a, AtTime(t)) == Filter(b, AtTime(t))
  }

  /** What first-in-first-out asks for: oldest first, and equal times as they were queued. */
  ghost predicate FirstInFirstOut(queue: seq<Entry>, sorted: seq<Entry>) {
    SortedBy(sorted, NotLater()) && SameOrder(queue, sorted)
  }

  lemma SameOrderPermutes(a: seq<Entry>, b: seq<Entry>)
    requires SameOrder(a, b)
    ensures multiset(a) == multiset(b)
  {
    forall x: Entry ensures multiset(a)[x] == multiset(b)[x] {
      FilterCount(a, AtTime(x.1), x);
      FilterCount(b, AtTime(x.1), x);
      assert Filter(a, AtTime(x.1)) == Filter(b, AtTime(x.1));
    }
  }

  lemma FilterHead(a: seq<Entry>, t: nat)
    requires a != []
    ensures a[0].1 == t ==> Filter(a, AtTime(t)) == [a[0]] + Filter(a[1..], AtTime(t))
    ensures a[0].1 != t ==> Filter(a, AtTime(t)) == Filter(a[1..], AtTime(t))
  {
  }

  lemma HeadsAgree(a: seq<Entry>, b: seq<Entry>)
    requires SortedBy(a, NotLater()) && SortedBy(b, NotLater()) && SameOrder(a, b) && a != []
    ensures b != [] && a[0] == b[0]
  {
    SameOrderPermutes(a, b);
    assert a[0] in multiset(b) && b[0] in multiset(a);
    var i :| 0 <= i < |b| && b[i] == a[0];
    var j :| 0 <= j < |a| && a[j] == b[0];
    assert i > 0 ==> NotLater()(b[0], b[i]);
    assert j > 0 ==> NotLater()(a[0], a[j]);
    var t := a[0].1;
    assert Filter(a, AtTime(t))[0] == a[0] && Filter(b, AtTime(t))[0] == b[0];
  }

  /** There is only one first-in-first-out arrangement. */
  lemma {:induction false} FirstInFirstOutUnique(a: seq<Entry>, b: seq<Entry>)
    requires SortedBy(a, NotLater()) && SortedBy(b, NotLater()) && SameOrder(a, b)
    ensures a == b
  {
    if a == [] {
      SameOrderPermutes(a, b);
      assert |multiset(b)| == 0;
    } else {
      HeadsAgree(a, b);
      forall t ensures Filter(a[1..], AtTime(t)) == Filter(b[1..], AtTime(t)) {
        assert Filter(a, AtTime(t)) == Filter(b, AtTime(t));
        FilterHead(a, t);
        FilterHead(b, t);
        if a[0].1 == t {
          assert Filter(a[1..], AtTime(t)) == Filter(a, AtTime(t))[1..];
          assert Filter(b[1..], AtTime(t)) == Filter(b, AtTime(t))[1..];
        }
      }
      FirstInFirstOutUnique(a[1..], b[1..]);
    }
  }

  // ----- The arrangement as a function -----

  lemma {:induction false} InsertKeepsOrder(x: Entry, s: seq<Entry>)
    ensures SameOrder([x] + s, Insert(x, s, NotLater()))
  {
    if s != [] && !NotLater()(x, s[0]) {
      InsertKeepsOrder(x, s[1..]);
      var inserted := Insert(x, s[1..], NotLater());
      assert Insert(x, s, NotLater()) == [s[0]] + inserted;
      forall t ensures Filter([x] + s, AtTime(t)) == Filter([s[0]] + inserted, AtTime(t)) {
        assert Filter([x] + s[1..], AtTime(t)) == Filter(inserted, AtTime(t));
        FilterHead([x] + s, t);
        FilterHead(s, t);
        FilterHead([x] + s[1..], t);
        FilterHead([s[0]] + inserted, t);
        assert ([x] + s)[1..] == s && ([x] + s[1..])[1..] == s[1..] && ([s[0]] + inserted)[1..] == inserted;
      }
    }
  }

  /** Insertion sort arranges any queue first-in-first-out. */
  lemma {:induction false} SortIsFirstInFirstOut(s: seq<Entry>)
    ensures FirstInFirstOut(s, Sort(s, NotLater()))
  {
    SortSorts(s, NotLater());
    if s != [] {
      var rest := Sort(s[1..], NotLater());
      SortIsFirstInFirstOut(s[1..]);
      InsertKeepsOrder(s[0], rest);
      forall t ensures Filter(s, AtTime(t)) == Filter(Sort(s, NotLater()), AtTime(t)) {
        assert Filter([s[0]] + rest, AtTime(t)) == Filter(Insert(s[0], rest, NotLater()), AtTime(t));
        assert Filter(s[1..], AtTime(t)) == Filter(rest, AtTime(t));
        FilterHead([s[0]] + rest, t);
        assert ([s[0]] + rest)[1..] == rest;
      }
    }
  }

  // ----- The bubble sort -----

  lemma FilterAround(a: seq<Entry>, m: seq<Entry>, b: seq<Entry>, t: nat)
    ensures Filter(a + m + b, AtTime(t)) == Filter(a, AtTime(t)) + Filter(m, AtTime(t)) + Filter(b, AtTime(t))
  {
    FilterAppend(a + m, b, AtTime(t));
    FilterAppend(a, m, AtTime(t));
  }

  lemma FilterPair(x: Entry, y: Entry, t: nat)
    requires x.1 != y.1
    ensures Filter([x, y], AtTime(t)) == Filter([y, x], AtTime(t))
  {
    FilterHead([x, y], t);
    FilterHead([y, x], t);
    FilterHead([x], t);
    FilterHead([y], t);
    assert [x, y][1..] == [y] && [y, x][1..] == [x] && [x][1..] == [] && [y][1..] == [];
  }

  /** Exchanging two neighbours that are out of order keeps equal times in order. */
  lemma ExchangeKeepsOrder(s: seq<Entry>, j: nat)
    requires j + 1 < |s| && s[j].1 > s[j + 1].1
    ensures SameOrder(s, s[j := s[j + 1]][j + 1 := s[j]])
  {
    var a, x, y, b := s[..j], s[j], s[j + 1], s[j + 2..];
    assert s == a + [x, y] + b && s[j := y][j + 1 := x] == a + [y, x] + b;
    forall t ensures Filter(a + [x, y] + b, AtTime(t)) == Filter(a + [y, x] + b, AtTime(t)) {
      FilterAround(a, [x, y], b, t);
      FilterPair(x, y, t);
      FilterAround(a, [y, x], b, t);
    }
  }

  method BubbleSort(a: array<Entry>)
    modifies a
    ensures FirstInFirstOut(old(a[..]), a[..])
    ensures a[..] == Sort(old(a[..]), NotLater())
  {
    var len := a.Length;
    ghost var queue := a[..];
    for i := 0 to len
      invariant SameOrder(queue, a[..])
      invariant forall p, q :: len - i <= p < q < len ==> a[p].1 <= a[q].1
      invariant forall p, q :: 0 <= p < len - i <= q < len ==> a[p].1 <= a[q].1
    {
      for j := 0 to len - i - 1
        invariant SameOrder(queue, a[..])
        invariant forall p :: 0 <= p < j ==> a[p].1 <= a[j].1
        invariant forall p, q :: len - i <= p < q < len ==> a[p].1 <= a[q].1
        invariant forall p, q :: 0 <= p < len - i <= q < len ==> a[p].1 <= a[q].1
      {
        if a[j].1 > a[j + 1].1 {
          ghost var before := a[..];
          ExchangeKeepsOrder(before, j);
          a[j], a[j + 1] := a[j + 1], a[j];
          assert a[..] == before[j := before[j + 1]][j + 1 := before[j]];
        }
      }
    }
    SortIsFirstInFirstOut(queue);
    FirstInFirstOutUnique(a[..], Sort(queue, NotLater()));
  }
}
