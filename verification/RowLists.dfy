/** Filtering, gathering and stable sorting of sequences, and how they commute. */
module RowLists {
  function Filter<T(!new)>(p: T -> bool, xs: seq<T>): seq<T> {
    if xs == [] then []
    else Filter(p, xs[..|xs| - 1]) + if p(xs[|xs| - 1]) then [xs[|xs| - 1]] else []
  }

  function FlatMap<T(!new), R>(f: T -> seq<R>, xs: seq<T>): seq<R> {
    if xs == [] then [] else FlatMap(f, xs[..|xs| - 1]) + f(xs[|xs| - 1])
  }

  lemma {:induction false} FilterConcat<T(!new)>(p: T -> bool, a: seq<T>, b: seq<T>)
    ensures Filter(p, a + b) == Filter(p, a) + Filter(p, b)
    decreases |b|
  {
    if b == [] {
      assert a + b == a;
    } else {
      assert (a + b)[..|a + b| - 1] == a + b[..|b| - 1];
      FilterConcat(p, a, b[..|b| - 1]);
    }
  }

  lemma {:induction false} FilterNone<T(!new)>(p: T -> bool, xs: seq<T>)
    requires forall x | x in xs :: !p(x)
    ensures Filter(p, xs) == []
  {
    if xs != [] {
      FilterNone(p, xs[..|xs| - 1]);
    }
  }

  lemma {:induction false} FilterKeeps<T(!new)>(p: T -> bool, xs: seq<T>)
    ensures forall x :: x in Filter(p, xs) <==> x in xs && p(x)
  {
    if xs != [] {
      FilterKeeps(p, xs[..|xs| - 1]);
    }
  }

  /** What two gatherings keep after filtering agrees if it does for each element. */
  lemma {:induction false} FlatMapFiltered<T(!new), R(!new)>(p: R -> bool, f: T -> seq<R>, h: T -> seq<R>, xs: seq<T>)
    requires forall x | x in xs :: Filter(p, f(x)) == Filter(p, h(x))
    ensures Filter(p, FlatMap(f, xs)) == Filter(p, FlatMap(h, xs))
  {
    if xs != [] {
      var front, last := xs[..|xs| - 1], xs[|xs| - 1];
      FlatMapFiltered(p, f, h, front);
      FilterConcat(p, FlatMap(f, front), f(last));
      FilterConcat(p, FlatMap(h, front), h(last));
    }
  }

  lemma {:induction false} FlatMapNone<T(!new), R(!new)>(p: R -> bool, f: T -> seq<R>, xs: seq<T>)
    requires forall x | x in xs :: Filter(p, f(x)) == []
    ensures Filter(p, FlatMap(f, xs)) == []
  {
    if xs != [] {
      var front, last := xs[..|xs| - 1], xs[|xs| - 1];
      FlatMapNone(p, f, front);
      FilterConcat(p, FlatMap(f, front), f(last));
    }
  }

  /** A gathering keeps no more after filtering than another if it does so for each element, and fewer if it does for
      some. */
  lemma {:induction false} FlatMapFewer<T(!new), R(!new)>(p: R -> bool, f: T -> seq<R>, h: T -> seq<R>, xs: seq<T>)
    requires forall x | x in xs :: |Filter(p, f(x))| <= |Filter(p, h(x))|
    ensures |Filter(p, FlatMap(f, xs))| <= |Filter(p, FlatMap(h, xs))|
    ensures (exists x | x in xs :: |Filter(p, f(x))| < |Filter(p, h(x))|) ==>
        |Filter(p, FlatMap(f, xs))| < |Filter(p, FlatMap(h, xs))|
  {
    if xs != [] {
      hide Filter;
      var front, last := xs[..|xs| - 1], xs[|xs| - 1];
      FlatMapFewer(p, f, h, front);
      FilterConcat(p, FlatMap(f, front), f(last));
      FilterConcat(p, FlatMap(h, front), h(last));
    }
  }

  // ----- stable sorting -----

  ghost predicate Preorder<T(!new)>(leq: (T, T) -> bool) {
    && (forall x, y :: leq(x, y) || leq(y, x))
    && (forall x, y, z :: leq(x, y) && leq(y, z) ==> leq(x, z))
  }

  ghost predicate Sorted<T>(leq: (T, T) -> bool, xs: seq<T>) {
    forall i, j | 0 <= i < j < |xs| :: leq(xs[i], xs[j])
  }

  /** After every element that is not greater. */
  function InsertLast<T>(leq: (T, T) -> bool, x: T, xs: seq<T>): seq<T> {
    if xs == [] || leq(xs[|xs| - 1], x) then xs + [x]
    else InsertLast(leq, x, xs[..|xs| - 1]) + [xs[|xs| - 1]]
  }

  function StableSort<T>(leq: (T, T) -> bool, xs: seq<T>): seq<T> {
    if xs == [] then [] else InsertLast(leq, xs[|xs| - 1], StableSort(leq, xs[..|xs| - 1]))
  }

  lemma {:induction false} InsertKeepsSorted<T(!new)>(leq: (T, T) -> bool, x: T, xs: seq<T>)
    requires Preorder(leq) && Sorted(leq, xs)
    ensures Sorted(leq, InsertLast(leq, x, xs))
    ensures forall y :: y in InsertLast(leq, x, xs) <==> y == x || y in xs
  {
    if xs != [] && !leq(xs[|xs| - 1], x) {
      var front, last := xs[..|xs| - 1], xs[|xs| - 1];
      InsertKeepsSorted(leq, x, front);
      var r := InsertLast(leq, x, front);
      forall i | 0 <= i < |r| ensures leq(r[i], last) {
        assert r[i] in r;
      }
    } else if xs != [] {
      forall i | 0 <= i < |xs| ensures leq(xs[i], x) {
        assert i == |xs| - 1 || leq(xs[i], xs[|xs| - 1]);
      }
    }
  }

  lemma {:induction false} InsertAddsOne<T>(leq: (T, T) -> bool, x: T, xs: seq<T>)
    ensures |InsertLast(leq, x, xs)| == |xs| + 1
  {
    if xs != [] && !leq(xs[|xs| - 1], x) {
      InsertAddsOne(leq, x, xs[..|xs| - 1]);
    }
  }

  lemma {:induction false} SortKeepsLength<T>(leq: (T, T) -> bool, xs: seq<T>)
    ensures |StableSort(leq, xs)| == |xs|
  {
    if xs != [] {
      SortKeepsLength(leq, xs[..|xs| - 1]);
      InsertAddsOne(leq, xs[|xs| - 1], StableSort(leq, xs[..|xs| - 1]));
    }
  }

  lemma {:induction false} SortSorts<T(!new)>(leq: (T, T) -> bool, xs: seq<T>)
    requires Preorder(leq)
    ensures Sorted(leq, StableSort(leq, xs))
  {
    if xs != [] {
      SortSorts(leq, xs[..|xs| - 1]);
      InsertKeepsSorted(leq, xs[|xs| - 1], StableSort(leq, xs[..|xs| - 1]));
    }
  }

  lemma {:induction false} AppendLargest<T(!new)>(leq: (T, T) -> bool, x: T, xs: seq<T>)
    requires forall y | y in xs :: leq(y, x)
    ensures InsertLast(leq, x, xs) == xs + [x]
  {
    assert xs != [] ==> xs[|xs| - 1] in xs;
  }

  lemma FilterLast<T(!new)>(p: T -> bool, front: seq<T>, last: T)
    ensures Filter(p, front + [last]) == if p(last) then Filter(p, front) + [last] else Filter(p, front)
  {
    assert (front + [last])[..|front|] == front;
  }

  lemma InsertBefore<T>(leq: (T, T) -> bool, x: T, front: seq<T>, last: T)
    requires !leq(last, x)
    ensures InsertLast(leq, x, front + [last]) == InsertLast(leq, x, front) + [last]
  {
    assert (front + [last])[..|front|] == front;
  }

  lemma {:induction false} FilterInsert<T(!new)>(p: T -> bool, leq: (T, T) -> bool, x: T, xs: seq<T>)
    requires Preorder(leq) && Sorted(leq, xs)
    ensures Filter(p, InsertLast(leq, x, xs)) == if p(x) then InsertLast(leq, x, Filter(p, xs)) else Filter(p, xs)
    decreases |xs|
  {
    if xs == [] || leq(xs[|xs| - 1], x) {
      FilterLast(p, xs, x);
      FilterKeeps(p, xs);
      forall y | y in Filter(p, xs) ensures leq(y, x) {
        var i :| 0 <= i < |xs| && xs[i] == y;
        assert i == |xs| - 1 || leq(xs[i], xs[|xs| - 1]);
      }
      AppendLargest(leq, x, Filter(p, xs));
    } else {
      hide Filter, InsertLast;
      var front, last := xs[..|xs| - 1], xs[|xs| - 1];
      assert xs == front + [last];
      FilterInsert(p, leq, x, front);
      InsertBefore(leq, x, front, last);
      FilterLast(p, front, last);
      FilterLast(p, InsertLast(leq, x, front), last);
      if p(last) {
        InsertBefore(leq, x, Filter(p, front), last);
      }
    }
  }

  lemma SortLast<T>(leq: (T, T) -> bool, front: seq<T>, last: T)
    ensures StableSort(leq, front + [last]) == InsertLast(leq, last, StableSort(leq, front))
  {
    assert (front + [last])[..|front|] == front;
  }

  /** Filtering a stably sorted sequence is stably sorting the filtered one. */
  lemma {:induction false} FilterSort<T(!new)>(p: T -> bool, leq: (T, T) -> bool, xs: seq<T>)
    requires Preorder(leq)
    ensures Filter(p, StableSort(leq, xs)) == StableSort(leq, Filter(p, xs))
  {
    if xs != [] {
      hide Filter, StableSort, Preorder, Sorted;
      var front, last := xs[..|xs| - 1], xs[|xs| - 1];
      assert xs == front + [last];
      FilterSort(p, leq, front);
      SortSorts(leq, front);
      SortLast(leq, front, last);
      FilterInsert(p, leq, last, StableSort(leq, front));
      FilterLast(p, front, last);
      SortLast(leq, Filter(p, front), last);
    }
  }

  lemma SortedFront<T(!new)>(leq: (T, T) -> bool, front: seq<T>, last: T)
    requires Sorted(leq, front + [last])
    ensures Sorted(leq, front) && forall y | y in front :: leq(y, last)
  {
    var xs := front + [last];
    forall i, j | 0 <= i < j < |front| ensures leq(front[i], front[j]) {
      assert leq(xs[i], xs[j]);
    }
    forall i | 0 <= i < |front| ensures leq(front[i], last) {
      assert leq(xs[i], xs[|front|]);
    }
  }

  lemma {:induction false} SortedStays<T(!new)>(leq: (T, T) -> bool, xs: seq<T>)
    requires Sorted(leq, xs)
    ensures StableSort(leq, xs) == xs
  {
    if xs != [] {
      hide StableSort, InsertLast, Sorted;
      var front, last := xs[..|xs| - 1], xs[|xs| - 1];
      assert xs == front + [last];
      SortedFront(leq, front, last);
      SortedStays(leq, front);
      SortLast(leq, front, last);
      AppendLargest(leq, last, front);
    }
  }

  /** The sort is stable: elements that compare equal to a given one keep their order, and all of them are kept. */
  lemma SortIsStable<T(!new)>(leq: (T, T) -> bool, xs: seq<T>, x: T)
    requires Preorder(leq)
    ensures var same := y => leq(x, y) && leq(y, x); Filter(same, StableSort(leq, xs)) == Filter(same, xs)
  {
    var same := y => leq(x, y) && leq(y, x);
    FilterSort(same, leq, xs);
    FilterKeeps(same, xs);
    var kept := Filter(same, xs);
    forall i, j | 0 <= i < j < |kept| ensures leq(kept[i], kept[j]) {
      assert kept[i] in kept && kept[j] in kept;
    }
    SortedStays(leq, kept);
  }
}
