/** Python's stable `sorted(..., key=..., reverse=True)`, by insertion. */
module Sorting {
  /** After everything whose key is at least as large. */
  function Insert<T>(sorted: seq<T>, x: T, key: T -> real): seq<T> {
    if sorted == [] || key(sorted[|sorted| - 1]) >= key(x) then sorted + [x]
    else Insert(sorted[..|sorted| - 1], x, key) + [sorted[|sorted| - 1]]
  }

  function Sort<T>(xs: seq<T>, key: T -> real): (r: seq<T>)
    ensures |r| == |xs|
  {
    if xs == [] then []
    else
      InsertLength(Sort(xs[..|xs| - 1], key), xs[|xs| - 1], key);
      Insert(Sort(xs[..|xs| - 1], key), xs[|xs| - 1], key)
  }

  predicate Descending<T>(xs: seq<T>, key: T -> real) {
    forall i, j :: 0 <= i < j < |xs| ==> key(xs[i]) >= key(xs[j])
  }

  /** The elements of one key, in order. */
  function Ties<T>(xs: seq<T>, key: T -> real, v: real): seq<T> {
    if xs == [] then []
    else Ties(xs[..|xs| - 1], key, v) + (if key(xs[|xs| - 1]) == v then [xs[|xs| - 1]] else [])
  }

  lemma {:induction false} InsertLength<T>(sorted: seq<T>, x: T, key: T -> real)
    ensures |Insert(sorted, x, key)| == |sorted| + 1
    decreases |sorted|
  {
    if sorted != [] { InsertLength(sorted[..|sorted| - 1], x, key); }
  }

  lemma {:induction false} InsertContents<T>(sorted: seq<T>, x: T, key: T -> real)
    ensures multiset(Insert(sorted, x, key)) == multiset(sorted) + multiset{x}
    decreases |sorted|
  {
    if sorted == [] || key(sorted[|sorted| - 1]) >= key(x) {
    } else {
      InsertContents(sorted[..|sorted| - 1], x, key);
      assert sorted == sorted[..|sorted| - 1] + [sorted[|sorted| - 1]];
    }
  }

  predicate AtLeast<T>(xs: seq<T>, key: T -> real, bound: real) {
    forall i :: 0 <= i < |xs| ==> key(xs[i]) >= bound
  }

  lemma {:induction false} InsertAtLeast<T>(sorted: seq<T>, x: T, key: T -> real, bound: real)
    requires AtLeast(sorted, key, bound) && key(x) >= bound
    ensures AtLeast(Insert(sorted, x, key), key, bound)
    decreases |sorted|
  {
    if sorted != [] { InsertAtLeast(sorted[..|sorted| - 1], x, key, bound); }
  }

  lemma {:induction false} InsertDescending<T>(sorted: seq<T>, x: T, key: T -> real)
    requires Descending(sorted, key)
    ensures Descending(Insert(sorted, x, key), key)
    decreases |sorted|
  {
    if sorted != [] {
      var front, last := sorted[..|sorted| - 1], sorted[|sorted| - 1];
      InsertDescending(front, x, key);
      if key(last) < key(x) {
        InsertAtLeast(front, x, key, key(last));
      }
    }
  }

  lemma {:induction false} InsertTies<T>(sorted: seq<T>, x: T, key: T -> real, v: real)
    requires Descending(sorted, key)
    ensures Ties(Insert(sorted, x, key), key, v) == Ties(sorted, key, v) + (if key(x) == v then [x] else [])
    decreases |sorted|
  {
    if sorted == [] || key(sorted[|sorted| - 1]) >= key(x) {
      assert (sorted + [x])[..|sorted|] == sorted;
    } else {
      var front, last := sorted[..|sorted| - 1], sorted[|sorted| - 1];
      InsertTies(front, x, key, v);
      assert (Insert(front, x, key) + [last])[..|Insert(front, x, key)|] == Insert(front, x, key);
      if key(x) == v {
        NoTies(sorted, last, key, v);
      }
    }
  }

  /** The last key is below v, so it has no tie with v. */
  lemma NoTies<T>(sorted: seq<T>, last: T, key: T -> real, v: real)
    requires sorted != [] && last == sorted[|sorted| - 1] && key(last) < v
    ensures Ties(sorted, key, v) == Ties(sorted[..|sorted| - 1], key, v)
  {
  }

  /** The sort loses nothing and adds nothing. */
  lemma {:induction false} SortContents<T>(xs: seq<T>, key: T -> real)
    ensures multiset(Sort(xs, key)) == multiset(xs)
    decreases |xs|
  {
    if xs != [] {
      var front, last := xs[..|xs| - 1], xs[|xs| - 1];
      SortContents(front, key);
      InsertContents(Sort(front, key), last, key);
      assert xs == front + [last];
    }
  }

  lemma {:induction false} SortDescends<T>(xs: seq<T>, key: T -> real)
    ensures Descending(Sort(xs, key), key)
    decreases |xs|
  {
    if xs != [] {
      SortDescends(xs[..|xs| - 1], key);
      InsertDescending(Sort(xs[..|xs| - 1], key), xs[|xs| - 1], key);
    }
  }

  /** Ties keep their order. */
  lemma {:induction false} SortIsStable<T>(xs: seq<T>, key: T -> real, v: real)
    ensures Ties(Sort(xs, key), key, v) == Ties(xs, key, v)
    decreases |xs|
  {
    if xs != [] {
      var front := xs[..|xs| - 1];
      SortIsStable(front, key, v);
      SortDescends(front, key);
      InsertTies(Sort(front, key), xs[|xs| - 1], key, v);
    }
  }
}
