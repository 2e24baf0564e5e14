/** A stable insertion sort by an ordering relation `before` ("may come
    before"), with its correctness proved once for every total, transitive
    relation: the result is a sorted permutation of the input in which the
    members of a tie class keep their relative order. */
module Sorting {
  import opened Seqs

  /** Any two values can be ordered one way or the other. */
  ghost predicate Total<T(!new)>(before: (T, T) -> bool) {
    forall a, b :: before(a, b) || before(b, a)
  }

  ghost predicate Transitive<T(!new)>(before: (T, T) -> bool) {
    forall a, b, c :: before(a, b) && before(b, c) ==> before(a, c)
  }

  /** Every element may come before every later one. */
  ghost predicate Sorted<T>(s: seq<T>, before: (T, T) -> bool) {
    forall i, j :: 0 <= i < j < |s| ==> before(s[i], s[j])
  }

  /** Inserting `x` in front of the first element it may precede. */
  function Insert<T>(x: T, t: seq<T>, before: (T, T) -> bool): (r: seq<T>)
    ensures |r| == |t| + 1
    ensures multiset(r) == multiset(t) + multiset{x}
    decreases |t|
  {
    if t == [] then [x]
    else if before(x, t[0]) then [x] + t
    else
      assert t == [t[0]] + t[1..];
      [t[0]] + Insert(x, t[1..], before)
  }

  /** Insertion sort, inserting from the back of the input. */
  function InsertionSort<T>(s: seq<T>, before: (T, T) -> bool): (r: seq<T>)
    ensures |r| == |s|
    ensures multiset(r) == multiset(s)
    decreases |s|
  {
    if s == [] then []
    else
      assert s == [s[0]] + s[1..];
      Insert(s[0], InsertionSort(s[1..], before), before)
  }

  /** Dropping the head of a sorted list leaves it sorted. */
  lemma SortedTail<T>(t: seq<T>, before: (T, T) -> bool)
    requires t != [] && Sorted(t, before)
    ensures Sorted(t[1..], before)
  {
    forall i, j | 0 <= i < j < |t[1..]|
      ensures before(t[1..][i], t[1..][j])
    {
      assert t[1..][i] == t[i + 1] && t[1..][j] == t[j + 1];
    }
  }

  lemma {:induction false} InsertSorted<T(!new)>(x: T, t: seq<T>, before: (T, T) -> bool)
    requires Total(before) && Transitive(before)
    requires Sorted(t, before)
    ensures Sorted(Insert(x, t, before), before)
    decreases |t|
  {
    if t == [] {
    } else if before(x, t[0]) {
      var r := [x] + t;
      forall i, j | 0 <= i < j < |r|
        ensures before(r[i], r[j])
      {
        if i == 0 {
          if j > 1 {
            assert r[j] == t[j - 1] && before(t[0], t[j - 1]);
          }
        } else {
          assert r[i] == t[i - 1] && r[j] == t[j - 1];
        }
      }
    } else {
      var rest := Insert(x, t[1..], before);
      var r := [t[0]] + rest;
      SortedTail(t, before);
      InsertSorted(x, t[1..], before);
      forall i, j | 0 <= i < j < |r|
        ensures before(r[i], r[j])
      {
        if i == 0 {
          var y := rest[j - 1];
          assert y in multiset(rest);
          if y != x {
            assert y in multiset(t[1..]);
            var k :| 0 <= k < |t[1..]| && t[1..][k] == y;
            assert t[k + 1] == y;
          }
        } else {
          assert r[i] == rest[i - 1] && r[j] == rest[j - 1];
        }
      }
    }
  }

  /** The sorted list is ordered by the relation. */
  lemma {:induction false} SortSorted<T(!new)>(s: seq<T>, before: (T, T) -> bool)
    requires Total(before) && Transitive(before)
    ensures Sorted(InsertionSort(s, before), before)
    decreases |s|
  {
    if s != [] {
      SortSorted(s[1..], before);
      InsertSorted(s[0], InsertionSort(s[1..], before), before);
    }
  }

  /** A value that may not precede another is not in a tie class with it. */
  lemma NotBothInTieClass<T>(x: T, y: T, before: (T, T) -> bool, p: T -> bool)
    requires forall a, b :: p(a) && p(b) ==> before(a, b)
    requires !before(x, y)
    ensures !(p(x) && p(y))
  {
  }

  /** Two blocks of which one is empty may be swapped in front of a third. */
  lemma SwapWhenOneEmpty<T>(a: seq<T>, b: seq<T>, c: seq<T>)
    requires a == [] || b == []
    ensures b + (a + c) == a + (b + c)
  {
  }

  /** Insertion puts `x` ahead of every element of its tie class `p` (a class
      whose members may come before one another in either order). */
  lemma {:induction false} InsertStable<T(!new)>(x: T, t: seq<T>, before: (T, T) -> bool, p: T -> bool)
    requires forall a, b :: p(a) && p(b) ==> before(a, b)
    ensures Filter(Insert(x, t, before), p) == (if p(x) then [x] else []) + Filter(t, p)
    decreases |t|
  {
    if t == [] {
      FilterCons(x, [], p);
    } else if before(x, t[0]) {
      FilterCons(x, t, p);
    } else {
      var rest := Insert(x, t[1..], before);
      var fx: seq<T> := if p(x) then [x] else [];
      var f0: seq<T> := if p(t[0]) then [t[0]] else [];
      var ft := Filter(t[1..], p);
      assert t == [t[0]] + t[1..];
      assert Insert(x, t, before) == [t[0]] + rest;
      calc {
        Filter(Insert(x, t, before), p);
        Filter([t[0]] + rest, p);
        { FilterCons(t[0], rest, p); }
        f0 + Filter(rest, p);
        { InsertStable(x, t[1..], before, p); }
        f0 + (fx + ft);
        { NotBothInTieClass(x, t[0], before, p); SwapWhenOneEmpty(fx, f0, ft); }
        fx + (f0 + ft);
        { FilterCons(t[0], t[1..], p); }
        fx + Filter(t, p);
      }
    }
  }

  /** The sort is stable: the members of a tie class keep their original
      relative order. */
  lemma {:induction false} SortStable<T(!new)>(s: seq<T>, before: (T, T) -> bool, p: T -> bool)
    requires forall a, b :: p(a) && p(b) ==> before(a, b)
    ensures Filter(InsertionSort(s, before), p) == Filter(s, p)
    decreases |s|
  {
    if s != [] {
      var sorted := InsertionSort(s[1..], before);
      var f0: seq<T> := if p(s[0]) then [s[0]] else [];
      assert s == [s[0]] + s[1..];
      calc {
        Filter(InsertionSort(s, before), p);
        Filter(Insert(s[0], sorted, before), p);
        { InsertStable(s[0], sorted, before, p); }
        f0 + Filter(sorted, p);
        { SortStable(s[1..], before, p); }
        f0 + Filter(s[1..], p);
        { FilterCons(s[0], s[1..], p); }
        Filter(s, p);
      }
    }
  }
}
