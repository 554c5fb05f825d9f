/**
 The keep-first idiom of freshet/stream/dedup_job.sql: number the rows of each
 key in arrival order and keep the rows numbered one.  Its streaming form keeps
 only the set of keys seen.
 */
module KeepFirst {
  import opened Basics

  /** `ROW_NUMBER() OVER (PARTITION BY key ORDER BY arrival)`; a row without a key is filtered out before. */
  function RowNumber<T, K(==)>(rows: seq<T>, key: T -> Option<K>, i: nat): nat
    requires i < |rows| && key(rows[i]).Some?
  {
    CountKey(rows[..i + 1], key, key(rows[i]).value)
  }

  function CountKey<T, K(==)>(rows: seq<T>, key: T -> Option<K>, k: K): nat {
    if rows == [] then 0
    else CountKey(rows[..|rows| - 1], key, k) + (if key(rows[|rows| - 1]) == Some(k) then 1 else 0)
  }

  /** The rows numbered one, in order of arrival. */
  function Kept<T, K(==)>(rows: seq<T>, key: T -> Option<K>): seq<T> {
    if rows == [] then []
    else
      var n := |rows| - 1;
      Kept(rows[..n], key) + (if key(rows[n]).Some? && RowNumber(rows, key, n) == 1 then [rows[n]] else [])
  }

  /** One row through the operator: its state is the keys seen. */
  function Emit<T, K(==)>(seen: set<K>, row: T, key: T -> Option<K>): (set<K>, seq<T>) {
    if key(row).None? || key(row).value in seen then (seen, []) else (seen + {key(row).value}, [row])
  }

  function Stream<T, K(==)>(seen: set<K>, rows: seq<T>, key: T -> Option<K>): (set<K>, seq<T>)
    decreases |rows|
  {
    if rows == [] then (seen, [])
    else
      var (after, out) := Emit(seen, rows[0], key);
      var (final, rest) := Stream(after, rows[1..], key);
      (final, out + rest)
  }

  function KeysOf<T, K(==)>(rows: seq<T>, key: T -> Option<K>): set<K> {
    if rows == [] then {}
    else
      var n := |rows| - 1;
      KeysOf(rows[..n], key) + (if key(rows[n]).Some? then {key(rows[n]).value} else {})
  }

  lemma KeysAppendOne<T, K>(rows: seq<T>, row: T, key: T -> Option<K>, k: K)
    ensures KeysOf(rows + [row], key) == KeysOf(rows, key) + (if key(row).Some? then {key(row).value} else {})
    ensures CountKey(rows + [row], key, k) == CountKey(rows, key, k) + (if key(row) == Some(k) then 1 else 0)
  {
    assert (rows + [row])[..|rows|] == rows;
  }

  lemma {:induction false} KeyMembers<T, K>(rows: seq<T>, key: T -> Option<K>, k: K)
    ensures k in KeysOf(rows, key) <==> exists i :: 0 <= i < |rows| && key(rows[i]) == Some(k)
    ensures k in KeysOf(rows, key) <==> CountKey(rows, key, k) > 0
    decreases |rows|
  {
    if rows != [] {
      var n := |rows| - 1;
      KeyMembers(rows[..n], key, k);
      if i :| 0 <= i < n && key(rows[i]) == Some(k) { assert key(rows[..n][i]) == Some(k); }
      if i :| 0 <= i < n && key(rows[..n][i]) == Some(k) { assert key(rows[i]) == Some(k); }
    }
  }

  lemma KeptAppendOne<T, K>(rows: seq<T>, row: T, key: T -> Option<K>)
    ensures Kept(rows + [row], key)
         == Kept(rows, key) + (if key(row).Some? && key(row).value !in KeysOf(rows, key) then [row] else [])
  {
    var all := rows + [row];
    assert all[..|rows|] == rows;
    if key(row).Some? {
      assert all[..|rows| + 1] == all;
      KeyMembers(rows, key, key(row).value);
    }
  }

  lemma {:induction false} StreamAppendOne<T, K>(seen: set<K>, rows: seq<T>, row: T, key: T -> Option<K>)
    ensures var (after, out) := Stream(seen, rows, key);
      var (last, more) := Emit(after, row, key);
      Stream(seen, rows + [row], key) == (last, out + more)
    decreases |rows|
  {
    if rows == [] {
      assert rows + [row] == [row] && [row][1..] == [];
      var (last, more) := Emit(seen, row, key);
      assert more + [] == more && [] + more == more;
    } else {
      assert (rows + [row])[0] == rows[0] && (rows + [row])[1..] == rows[1..] + [row];
      var (after, out) := Emit(seen, rows[0], key);
      StreamAppendOne(after, rows[1..], row, key);
      var (mid, rest) := Stream(after, rows[1..], key);
      var (last, more) := Emit(mid, row, key);
      assert out + (rest + more) == (out + rest) + more;
    }
  }

  /** Remembering the keys seen computes exactly the rows numbered one. */
  lemma {:induction false} StreamIsKept<T, K>(rows: seq<T>, key: T -> Option<K>)
    ensures Stream({}, rows, key) == (KeysOf(rows, key), Kept(rows, key))
    decreases |rows|
  {
    if rows != [] {
      var n := |rows| - 1;
      assert rows == rows[..n] + [rows[n]];
      StreamIsKept(rows[..n], key);
      StreamAppendOne({}, rows[..n], rows[n], key);
      KeptAppendOne(rows[..n], rows[n], key);
      var (seen, out) := Stream({}, rows[..n], key);
      var (after, more) := Emit(seen, rows[n], key);
      assert after == KeysOf(rows, key);
      assert out + more == Kept(rows, key);
    }
  }

  /** Every key seen is kept, and no other. */
  lemma {:induction false} KeysOfKept<T, K>(rows: seq<T>, key: T -> Option<K>)
    ensures KeysOf(Kept(rows, key), key) == KeysOf(rows, key)
    decreases |rows|
  {
    if rows != [] {
      var front, last := rows[..|rows| - 1], rows[|rows| - 1];
      assert rows == front + [last];
      KeysOfKept(front, key);
      KeptAppendOne(front, last, key);
      if key(last).None? {
        assert Kept(rows, key) == Kept(front, key) && KeysOf(rows, key) == KeysOf(front, key);
      } else if key(last).value in KeysOf(front, key) {
        assert Kept(rows, key) == Kept(front, key);
        assert KeysOf(rows, key) == KeysOf(front, key) + {key(last).value};
      } else {
        KeysAppendOne(Kept(front, key), last, key, key(last).value);
      }
    }
  }

  /** Each key seen is kept exactly once. */
  lemma {:induction false} KeptOnce<T, K>(rows: seq<T>, key: T -> Option<K>, k: K)
    ensures CountKey(Kept(rows, key), key, k) == if k in KeysOf(rows, key) then 1 else 0
    decreases |rows|
  {
    if rows != [] {
      var front, last := rows[..|rows| - 1], rows[|rows| - 1];
      assert rows == front + [last];
      KeptOnce(front, key, k);
      KeptAppendOne(front, last, key);
      KeysAppendOne(front, last, key, k);
      if key(last).None? || key(last).value in KeysOf(front, key) {
        assert Kept(rows, key) == Kept(front, key);
      } else {
        KeysAppendOne(Kept(front, key), last, key, k);
      }
    }
  }

  function CountWhere<T>(rows: seq<T>, p: T -> bool): nat {
    if rows == [] then 0 else CountWhere(rows[..|rows| - 1], p) + (if p(rows[|rows| - 1]) then 1 else 0)
  }

  lemma {:induction false} CountSame<T, U>(xs: seq<T>, ys: seq<U>, p: T -> bool, q: U -> bool)
    requires |xs| == |ys| && forall j :: 0 <= j < |xs| ==> (p(xs[j]) <==> q(ys[j]))
    ensures CountWhere(xs, p) == CountWhere(ys, q)
    decreases |xs|
  {
    if xs != [] { CountSame(xs[..|xs| - 1], ys[..|ys| - 1], p, q); }
  }

  lemma {:induction false} CountKeyWhere<T, K>(rows: seq<T>, key: T -> Option<K>, k: K, p: T -> bool)
    requires forall i :: 0 <= i < |rows| ==> (p(rows[i]) <==> key(rows[i]) == Some(k))
    ensures CountWhere(rows, p) == CountKey(rows, key, k)
    decreases |rows|
  {
    if rows != [] {
      var n := |rows| - 1;
      assert forall i :: 0 <= i < n ==> rows[..n][i] == rows[i];
      CountKeyWhere(rows[..n], key, k, p);
    }
  }

  /** Rows that a property tells apart by their keys: of those with the property one is kept, if there are any. */
  lemma {:induction false} KeptOnceWhere<T, K>(rows: seq<T>, key: T -> Option<K>, k: K, p: T -> bool)
    requires forall row :: row in rows ==> (p(row) <==> key(row) == Some(k))
    ensures CountWhere(Kept(rows, key), p) == if exists row :: row in rows && p(row) then 1 else 0
  {
    forall j | 0 <= j < |Kept(rows, key)| ensures p(Kept(rows, key)[j]) <==> key(Kept(rows, key)[j]) == Some(k) {
      var i := KeptIsFirst(rows, key, j);
    }
    CountKeyWhere(Kept(rows, key), key, k, p);
    KeptOnce(rows, key, k);
    KeyMembers(rows, key, k);
    if i :| 0 <= i < |rows| && key(rows[i]) == Some(k) { assert rows[i] in rows && p(rows[i]); }
  }

  /** A kept row is the first row of its key. */
  lemma {:induction false} KeptIsFirst<T, K>(rows: seq<T>, key: T -> Option<K>, j: nat) returns (i: nat)
    requires j < |Kept(rows, key)|
    ensures i < |rows| && rows[i] == Kept(rows, key)[j] && key(rows[i]).Some?
    ensures forall h :: 0 <= h < i ==> key(rows[h]) != key(rows[i])
    decreases |rows|
  {
    var n := |rows| - 1;
    assert rows == rows[..n] + [rows[n]];
    KeptAppendOne(rows[..n], rows[n], key);
    if j < |Kept(rows[..n], key)| {
      i := KeptIsFirst(rows[..n], key, j);
      assert forall h :: 0 <= h < i ==> rows[..n][h] == rows[h];
    } else {
      i := n;
      KeyMembers(rows[..n], key, key(rows[n]).value);
      assert forall h :: 0 <= h < n ==> rows[..n][h] == rows[h];
    }
  }

  /** What a later batch adds depends only on the keys seen before it. */
  lemma {:induction false} KeptAppend<T, K>(a: seq<T>, b: seq<T>, key: T -> Option<K>)
    ensures Kept(a + b, key) == Kept(a, key) + Stream(KeysOf(a, key), b, key).1
    ensures KeysOf(a + b, key) == Stream(KeysOf(a, key), b, key).0
    decreases |b|
  {
    if b == [] {
      assert a + b == a;
    } else {
      var n := |b| - 1;
      assert a + b == (a + b[..n]) + [b[n]] && b == b[..n] + [b[n]];
      KeptAppend(a, b[..n], key);
      KeptAppendOne(a + b[..n], b[n], key);
      assert (a + b)[..|a + b| - 1] == a + b[..n];
      StreamAppendOne(KeysOf(a, key), b[..n], b[n], key);
    }
  }

  lemma {:induction false} NothingNew<T, K>(seen: set<K>, rows: seq<T>, key: T -> Option<K>)
    requires forall i :: 0 <= i < |rows| && key(rows[i]).Some? ==> key(rows[i]).value in seen
    ensures Stream(seen, rows, key) == (seen, [])
    decreases |rows|
  {
    if rows != [] {
      assert forall i :: 0 <= i < |rows| - 1 ==> rows[1..][i] == rows[i + 1];
      assert Emit(seen, rows[0], key) == (seen, []);
      NothingNew(seen, rows[1..], key);
      var none: seq<T> := [];
      assert none + none == none;
    }
  }

  /** Sending again rows whose keys were all seen adds nothing. */
  lemma ResendAddsNothing<T, K>(a: seq<T>, again: seq<T>, key: T -> Option<K>)
    requires forall i :: 0 <= i < |again| && key(again[i]).Some? ==> key(again[i]).value in KeysOf(a, key)
    ensures Kept(a + again, key) == Kept(a, key)
  {
    KeptAppend(a, again, key);
    NothingNew(KeysOf(a, key), again, key);
  }
}
