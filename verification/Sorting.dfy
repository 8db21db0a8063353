/** Sorting by a total order, as copies of lists are sorted before they are digested or printed. */
module Sorting {

  ghost predicate TotalOrder<T(!new)>(leq: (T, T) -> bool) {
    && (forall a, b :: leq(a, b) || leq(b, a))
    && (forall a, b :: leq(a, b) && leq(b, a) ==> a == b)
    && (forall a, b, c :: leq(a, b) && leq(b, c) ==> leq(a, c))
  }

  ghost predicate Sorted<T(!new)>(xs: seq<T>, leq: (T, T) -> bool) {
    forall i, j :: 0 <= i < j < |xs| ==> leq(xs[i], xs[j])
  }

  function Insert<T>(x: T, xs: seq<T>, leq: (T, T) -> bool): seq<T> {
    if xs == [] || leq(x, xs[0]) then [x] + xs else [xs[0]] + Insert(x, xs[1..], leq)
  }

  function Sort<T>(xs: seq<T>, leq: (T, T) -> bool): seq<T> {
    if xs == [] then [] else Insert(xs[0], Sort(xs[1..], leq), leq)
  }

  lemma {:induction false} InsertMultiset<T>(x: T, xs: seq<T>, leq: (T, T) -> bool)
    ensures multiset(Insert(x, xs, leq)) == multiset(xs) + multiset{x}
  {
    if xs != [] && !leq(x, xs[0]) {
      InsertMultiset(x, xs[1..], leq);
      assert xs == [xs[0]] + xs[1..];
    }
  }

  lemma {:induction false} InsertSorted<T(!new)>(x: T, xs: seq<T>, leq: (T, T) -> bool)
    requires TotalOrder(leq) && Sorted(xs, leq)
    ensures Sorted(Insert(x, xs, leq), leq)
  {
    if xs != [] && !leq(x, xs[0]) {
      InsertSorted(x, xs[1..], leq);
      InsertMultiset(x, xs[1..], leq);
      var rest := Insert(x, xs[1..], leq);
      forall k | 0 <= k < |rest| ensures leq(xs[0], rest[k]) {
        assert rest[k] in multiset(rest);
        assert rest[k] in multiset(xs[1..]) + multiset{x};
      }
    }
  }

  /** Sorting yields a sorted permutation. */
  lemma {:induction false} SortIsSorted<T(!new)>(xs: seq<T>, leq: (T, T) -> bool)
    requires TotalOrder(leq)
    ensures Sorted(Sort(xs, leq), leq) && multiset(Sort(xs, leq)) == multiset(xs)
  {
    if xs != [] {
      SortIsSorted(xs[1..], leq);
      InsertSorted(xs[0], Sort(xs[1..], leq), leq);
      InsertMultiset(xs[0], Sort(xs[1..], leq), leq);
      assert xs == [xs[0]] + xs[1..];
    }
  }

  lemma HeadIsLeast<T(!new)>(xs: seq<T>, x: T, leq: (T, T) -> bool)
    requires TotalOrder(leq) && Sorted(xs, leq) && x in multiset(xs)
    ensures xs != [] && leq(xs[0], x)
  {
    var i :| 0 <= i < |xs| && xs[i] == x;
  }

  lemma TailMultiset<T>(xs: seq<T>)
    requires xs != []
    ensures multiset(xs[1..]) == multiset(xs) - multiset{xs[0]} && xs[0] in multiset(xs)
  {
    assert xs == [xs[0]] + xs[1..];
  }

  lemma TailSorted<T(!new)>(xs: seq<T>, leq: (T, T) -> bool)
    requires Sorted(xs, leq) && xs != []
    ensures Sorted(xs[1..], leq)
  {
  }

  /** A sorted permutation is unique. */
  lemma {:induction false} SortedUnique<T(!new)>(xs: seq<T>, ys: seq<T>, leq: (T, T) -> bool)
    requires TotalOrder(leq) && Sorted(xs, leq) && Sorted(ys, leq) && multiset(xs) == multiset(ys)
    ensures xs == ys
  {
    if xs == [] {
      assert |multiset(ys)| == 0;
    } else {
      TailMultiset(xs);
      HeadIsLeast(ys, xs[0], leq);
      TailMultiset(ys);
      HeadIsLeast(xs, ys[0], leq);
      assert xs[0] == ys[0];
      TailSorted(xs, leq);
      TailSorted(ys, leq);
      hide Sorted, TotalOrder;
      SortedUnique(xs[1..], ys[1..], leq);
      assert xs == [xs[0]] + xs[1..] && ys == [ys[0]] + ys[1..];
    }
  }

  /** Sorting forgets the order, and only the order, of a list. */
  lemma SortForgetsOrder<T(!new)>(xs: seq<T>, ys: seq<T>, leq: (T, T) -> bool)
    requires TotalOrder(leq)
    ensures Sort(xs, leq) == Sort(ys, leq) <==> multiset(xs) == multiset(ys)
  {
    SortIsSorted(xs, leq);
    SortIsSorted(ys, leq);
    if multiset(xs) == multiset(ys) {
      SortedUnique(Sort(xs, leq), Sort(ys, leq), leq);
    }
  }

  /** Sorting a sorted list changes nothing. */
  lemma SortSorted<T(!new)>(xs: seq<T>, leq: (T, T) -> bool)
    requires TotalOrder(leq) && Sorted(xs, leq)
    ensures Sort(xs, leq) == xs
  {
    SortIsSorted(xs, leq);
    SortedUnique(Sort(xs, leq), xs, leq);
  }

  // ----- lists without duplicates -----

  predicate HasNoDuplicate<T(==)>(xs: seq<T>) {
    forall i, j :: 0 <= i < j < |xs| ==> xs[i] != xs[j]
  }

  lemma {:induction false} DistinctByCount<T>(xs: seq<T>)
    ensures HasNoDuplicate(xs) <==> forall x :: x in multiset(xs) ==> multiset(xs)[x] == 1
  {
    if xs != [] {
      var front, last := xs[..|xs| - 1], xs[|xs| - 1];
      assert xs == front + [last];
      DistinctByCount(front);
      assert multiset(xs) == multiset(front) + multiset{last};
      if HasNoDuplicate(xs) {
        assert HasNoDuplicate(front);
        forall x | x in multiset(xs) ensures multiset(xs)[x] == 1 {
          assert last !in front;
        }
      }
      if forall x :: x in multiset(xs) ==> multiset(xs)[x] == 1 {
        assert last !in multiset(front) by {
          assert multiset(xs)[last] == 1;
        }
        forall x | x in multiset(front) ensures multiset(front)[x] == 1 {
          assert multiset(xs)[x] == 1;
        }
      }
    }
  }
}
