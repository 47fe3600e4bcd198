/** `Array.prototype.sort(compare)`, which the views call with comparators built from dates,
    progress, enrollment counts, difficulty ranks and titles. The sort is stable (required of
    JavaScript engines since ES2019): elements the comparator calls equal keep their input
    order. A comparator `compare(a, b)` is represented by `leq(a, b) == (compare(a, b) <= 0)`. */
module Sorting {
  import opened Seqs

  /** The comparators used by the views are total and transitive. */
  ghost predicate TotalPreorder<T(!new)>(leq: (T, T) -> bool)
  {
    && (forall a, b :: leq(a, b) || leq(b, a))
    && (forall a, b, c :: leq(a, b) && leq(b, c) ==> leq(a, c))
  }

  /** Each element is at most its successor. */
  ghost predicate Sorted<T>(xs: seq<T>, leq: (T, T) -> bool)
  {
    forall i :: 0 < i < |xs| ==> leq(xs[i - 1], xs[i])
  }

  /** Every element is at most every later element. */
  ghost predicate SortedAll<T>(xs: seq<T>, leq: (T, T) -> bool)
  {
    forall i, j :: 0 <= i < j < |xs| ==> leq(xs[i], xs[j])
  }

  /** The elements the comparator calls equal to `k`. */
  function TiedWith<T>(leq: (T, T) -> bool, k: T): T -> bool
  {
    y => leq(y, k) && leq(k, y)
  }

  /** Inserts `x` before the first element it is at most. */
  function Insert<T>(x: T, s: seq<T>, leq: (T, T) -> bool): (r: seq<T>)
    ensures multiset(r) == multiset(s) + multiset{x}
    ensures |r| == |s| + 1
  {
    if s == [] then [x]
    else if leq(x, s[0]) then [x] + s
    else
      assert s == [s[0]] + s[1..];
      [s[0]] + Insert(x, s[1..], leq)
  }

  /** The stable sort of `xs` under `leq`: a permutation of `xs`. */
  function Sort<T>(xs: seq<T>, leq: (T, T) -> bool): (r: seq<T>)
    ensures multiset(r) == multiset(xs)
    ensures |r| == |xs|
  {
    if xs == [] then []
    else
      assert xs == [xs[0]] + xs[1..];
      Insert(xs[0], Sort(xs[1..], leq), leq)
  }

  lemma {:induction false} InsertSorted<T(!new)>(x: T, s: seq<T>, leq: (T, T) -> bool)
    requires TotalPreorder(leq)
    requires Sorted(s, leq)
    ensures Sorted(Insert(x, s, leq), leq)
    ensures Insert(x, s, leq)[0] == x || (s != [] && Insert(x, s, leq)[0] == s[0])
  {
    if s != [] && !leq(x, s[0]) {
      assert leq(s[0], x);
      InsertSorted(x, s[1..], leq);
    }
  }

  /** The sort's output is ordered by `leq`. */
  lemma {:induction false} SortSorted<T(!new)>(xs: seq<T>, leq: (T, T) -> bool)
    requires TotalPreorder(leq)
    ensures Sorted(Sort(xs, leq), leq)
  {
    if xs != [] {
      SortSorted(xs[1..], leq);
      InsertSorted(xs[0], Sort(xs[1..], leq), leq);
    }
  }

  /** With a transitive comparator, adjacent order gives order between any two positions. */
  lemma {:induction false} SortedIsSortedAll<T(!new)>(xs: seq<T>, leq: (T, T) -> bool)
    requires TotalPreorder(leq)
    requires Sorted(xs, leq)
    ensures SortedAll(xs, leq)
  {
    if |xs| > 1 {
      SortedIsSortedAll(xs[1..], leq);
      forall j | 1 < j < |xs| ensures leq(xs[0], xs[j]) {
        assert leq(xs[1], xs[j]) by { assert xs[1..][0] == xs[1] && xs[1..][j - 1] == xs[j]; }
      }
    }
  }

  /** The output of the sort is ordered between any two positions. */
  lemma SortSortedAll<T(!new)>(xs: seq<T>, leq: (T, T) -> bool)
    requires TotalPreorder(leq)
    ensures SortedAll(Sort(xs, leq), leq)
  {
    SortSorted(xs, leq);
    SortedIsSortedAll(Sort(xs, leq), leq);
  }

  /** Filtering an ordered list keeps it ordered. */
  lemma {:induction false} FilterSortedAll<T>(xs: seq<T>, p: T -> bool, leq: (T, T) -> bool)
    requires SortedAll(xs, leq)
    ensures SortedAll(Filter(xs, p), leq)
  {
    if xs != [] {
      var tail := xs[1..];
      assert SortedAll(tail, leq) by {
        forall i, j | 0 <= i < j < |tail| ensures leq(tail[i], tail[j]) {
          assert tail[i] == xs[i + 1] && tail[j] == xs[j + 1];
        }
      }
      FilterSortedAll(tail, p, leq);
      var rest := Filter(tail, p);
      if p(xs[0]) {
        var r := [xs[0]] + rest;
        forall i, j | 0 <= i < j < |r| ensures leq(r[i], r[j]) {
          if i == 0 {
            assert r[j] == rest[j - 1] && rest[j - 1] in tail;
            var k :| 0 <= k < |tail| && tail[k] == rest[j - 1];
            assert tail[k] == xs[k + 1];
          } else {
            assert r[i] == rest[i - 1] && r[j] == rest[j - 1];
          }
        }
      }
    }
  }

  /** The last `n` elements of an ordered list are ordered, and none of them is below an
      element left out. */
  lemma LastOfSortedAll<T>(xs: seq<T>, n: nat, leq: (T, T) -> bool)
    requires SortedAll(xs, leq)
    ensures SortedAll(Last(xs, n), leq)
    ensures forall i, j :: 0 <= i < |xs| - |Last(xs, n)| && 0 <= j < |Last(xs, n)|
              ==> leq(xs[i], Last(xs, n)[j])
  {
    var k := |xs| - |Last(xs, n)|;
    assert Last(xs, n) == xs[k..];
    var r := xs[k..];
    forall i, j | 0 <= i < j < |r| ensures leq(r[i], r[j]) {
      assert r[i] == xs[k + i] && r[j] == xs[k + j];
    }
    forall i, j | 0 <= i < k && 0 <= j < |r| ensures leq(xs[i], r[j]) {
      assert r[j] == xs[k + j];
    }
  }

  /** Under a total preorder, anything tied with the same `k` as `x` is at least `x`. */
  lemma TiedAreOrdered<T(!new)>(leq: (T, T) -> bool, k: T, x: T)
    requires TotalPreorder(leq)
    ensures forall y :: TiedWith(leq, k)(x) && TiedWith(leq, k)(y) ==> leq(x, y)
  {
  }

  lemma FilterCons<T>(h: T, t: seq<T>, p: T -> bool)
    ensures Filter([h] + t, p) == (if p(h) then [h] else []) + Filter(t, p)
  {
    assert ([h] + t)[1..] == t;
  }

  /** Putting `h` in front of two lists whose group members differ by a leading `x` keeps that
      difference, provided `h` and `x` are not both in the group. */
  lemma FilterPast<T>(h: T, rest: seq<T>, t: seq<T>, x: T, p: T -> bool)
    requires Filter(rest, p) == (if p(x) then [x] else []) + Filter(t, p)
    requires p(x) ==> !p(h)
    ensures Filter([h] + rest, p) == (if p(x) then [x] else []) + Filter([h] + t, p)
  {
    FilterCons(h, rest, p);
    FilterCons(h, t, p);
    if p(x) {
      assert Filter([h] + rest, p) == Filter(rest, p);
    } else {
      assert Filter(rest, p) == Filter(t, p);
    }
  }

  /** Inserting `x` keeps the order of any group of elements in which `x` is at most every
      other member: `x` lands in front of the members already there. */
  lemma {:induction false} InsertStable<T>(x: T, s: seq<T>, leq: (T, T) -> bool, p: T -> bool)
    requires forall y :: p(x) && p(y) ==> leq(x, y)
    ensures Filter(Insert(x, s, leq), p) == (if p(x) then [x] else []) + Filter(s, p)
  {
    if s == [] {
      FilterCons(x, [], p);
    } else if leq(x, s[0]) {
      FilterCons(x, s, p);
    } else {
      var rest := Insert(x, s[1..], leq);
      assert Insert(x, s, leq) == [s[0]] + rest;
      assert [s[0]] + s[1..] == s;
      InsertStable(x, s[1..], leq, p);
      // Past an element it does not precede, `x` is in the group only if that element is not.
      assert p(x) ==> !p(s[0]);
      FilterPast(s[0], rest, s[1..], x, p);
    }
  }

  /** Stability: the elements tied with any `k` come out in exactly their input order. */
  lemma {:induction false} SortStable<T(!new)>(xs: seq<T>, leq: (T, T) -> bool, k: T)
    requires TotalPreorder(leq)
    ensures Filter(Sort(xs, leq), TiedWith(leq, k)) == Filter(xs, TiedWith(leq, k))
  {
    if xs != [] {
      SortStable(xs[1..], leq, k);
      TiedAreOrdered(leq, k, xs[0]);
      InsertStable(xs[0], Sort(xs[1..], leq), leq, TiedWith(leq, k));
    }
  }

  /** A comparator that returns 0 for every pair leaves the order unchanged. */
  lemma {:induction false} SortAllTied<T>(xs: seq<T>, leq: (T, T) -> bool)
    requires forall i, j :: 0 <= i < |xs| && 0 <= j < |xs| ==> leq(xs[i], xs[j])
    ensures Sort(xs, leq) == xs
  {
    if xs != [] {
      SortAllTied(xs[1..], leq);
    }
  }

  /** `a.sort(compare)`: reorders the caller's array in place. */
  method SortInPlace<T>(a: array<T>, leq: (T, T) -> bool)
    modifies a
    ensures a[..] == Sort(old(a[..]), leq)
  {
    var sorted := Sort(a[..], leq);
    forall i | 0 <= i < a.Length {
      a[i] := sorted[i];
    }
  }
}
