/** Sizes of intervals and disjoint unions. */
module Sets {
  predicate Within(x: int, low: int, high: int) {
    low <= x < high
  }

  function Interval(low: int, high: int): set<int> {
    set x: int | low <= x < high && Within(x, low, high)
  }

  lemma {:induction false} IntervalSize(low: int, high: int)
    requires low <= high
    ensures |Interval(low, high)| == high - low
    decreases high - low
  {
    if low < high {
      IntervalSize(low, high - 1);
      assert Interval(low, high) == Interval(low, high - 1) + {high - 1};
    } else {
      assert Interval(low, high) == {};
    }
  }

  lemma UnionSize<T(!new)>(s: set<T>, a: set<T>, b: set<T>)
    requires forall x: T :: x in s <==> x in a || x in b
    requires forall x: T :: x in a ==> x !in b
    ensures |s| == |a| + |b|
  {
    assert s == a + b;
  }

  method Pick<T>(s: set<T>) returns (x: T)
    requires s != {}
    ensures x in s
  {
    x :| x in s;
  }

  lemma MapsEqual<K(!new), V>(a: map<K, V>, b: map<K, V>)
    requires forall k: K :: k in a <==> k in b
    requires forall k: K :: k in a ==> k in b && a[k] == b[k]
    ensures a == b
  {
  }

  lemma UpdateTwice<K(!new), V>(m: map<K, V>, a: K, b: K, v: V, k: K)
    requires a != b
    ensures k in m[a := v][b := v] <==> k in m || k == a || k == b
    ensures k in m[a := v][b := v] ==> m[a := v][b := v][k] == if k == a || k == b then v else m[k]
  {
  }

  lemma SameSize<T(!new)>(a: set<T>, b: set<T>)
    requires forall x: T :: x in a <==> x in b
    ensures |a| == |b|
  {
    assert a == b;
  }
}
