/** What the directors ask of the library's sorts: a stable sort under a strict weak
    order. */
module Sorting {

  /** `less` never holds both ways, and is never skipped over by a third element. */
  ghost predicate StrictWeak<T(!new)>(less: (T, T) -> bool) {
    && (forall a, b :: less(a, b) ==> !less(b, a))
    && (forall a, b, c :: less(a, b) ==> less(a, c) || less(c, b))
  }

  /** Ordered by `less`, and by `tie` between elements it does not tell apart. */
  ghost predicate Ordered<T>(less: (T, T) -> bool, tie: (T, T) -> bool, s: seq<T>) {
    forall i, j :: 0 <= i < j < |s| ==> Before(less, tie, s[i], s[j])
  }

  predicate Before<T>(less: (T, T) -> bool, tie: (T, T) -> bool, a: T, b: T) {
    less(a, b) || (!less(b, a) && tie(a, b))
  }

  function Insert<T>(less: (T, T) -> bool, s: seq<T>, x: T): (r: seq<T>)
    ensures multiset(r) == multiset(s) + multiset{x}
  {
    if s == [] then [x]
    else
      var last := |s| - 1;
      assert s == s[..last] + [s[last]];
      if less(x, s[last]) then Insert(less, s[..last], x) + [s[last]] else s + [x]
  }

  function StableSort<T>(less: (T, T) -> bool, s: seq<T>): (r: seq<T>)
    ensures multiset(r) == multiset(s)
    ensures |r| == |s|
  {
    if s == [] then []
    else
      var last := |s| - 1;
      assert s == s[..last] + [s[last]];
      var r := Insert(less, StableSort(less, s[..last]), s[last]);
      assert |r| == |multiset(r)| == |multiset(s)| == |s|;
      r
  }

  lemma {:induction false} InsertOrdered<T(!new)>(less: (T, T) -> bool, tie: (T, T) -> bool, s: seq<T>, x: T)
    requires StrictWeak(less) && Ordered(less, tie, s)
    requires forall y :: y in s ==> tie(y, x)
    ensures Ordered(less, tie, Insert(less, s, x))
  {
    hide StrictWeak;
    if s != [] {
      var last := |s| - 1;
      var front := s[..last];
      if less(x, s[last]) {
        InsertOrdered(less, tie, front, x);
        var r := Insert(less, front, x);
        forall y | y in r ensures Before(less, tie, y, s[last]) {
          assert y in multiset(r);
          if y != x {
            assert y in multiset(front);
            var i :| 0 <= i < last && front[i] == y;
            assert Before(less, tie, s[i], s[last]);
          }
        }
        var all := r + [s[last]];
        forall i, j | 0 <= i < j < |all| ensures Before(less, tie, all[i], all[j]) {
          if j < |r| { assert Before(less, tie, r[i], r[j]); } else { assert r[i] in r; }
        }
      } else {
        forall i | 0 <= i < |s| ensures Before(less, tie, s[i], x) {
          assert s[i] in s;
          NotAhead(less, tie, s[i], s[last], x, i == last);
        }
      }
    }
  }

  /** What is not after the last element is not after anything before it. */
  lemma NotAhead<T(!new)>(less: (T, T) -> bool, tie: (T, T) -> bool, y: T, last: T, x: T, same: bool)
    requires StrictWeak(less) && !less(x, last)
    requires if same then y == last else Before(less, tie, y, last)
    ensures !less(x, y)
  {
    assert less(x, y) ==> less(x, last) || less(last, y);
    assert less(y, last) ==> !less(last, y);
  }

  lemma {:induction false} SortOrders<T(!new)>(less: (T, T) -> bool, tie: (T, T) -> bool, s: seq<T>)
    requires StrictWeak(less)
    requires forall i, j :: 0 <= i < j < |s| ==> tie(s[i], s[j])
    ensures Ordered(less, tie, StableSort(less, s))
  {
    if s != [] {
      var last := |s| - 1;
      var front := s[..last];
      SortOrders(less, tie, front);
      var sorted := StableSort(less, front);
      forall y | y in sorted ensures tie(y, s[last]) {
        assert y in multiset(sorted) && y in multiset(front);
        var i :| 0 <= i < last && front[i] == y;
        assert s[i] == y;
      }
      InsertOrdered(less, tie, sorted, s[last]);
    }
  }
}
