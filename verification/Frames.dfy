/** Selecting and reordering rows, as `WHERE`, `ORDER BY` and `sort_values` do it. Sorting promises
    no order among rows with equal keys, so only a permutation in key order is promised here.
 */
module Frames {

  ghost predicate Permutation<T>(a: seq<T>, b: seq<T>) {
    multiset(a) == multiset(b)
  }

  ghost predicate InOrder<T>(rows: seq<T>, key: T -> int) {
    forall i, j :: 0 <= i < j < |rows| ==> key(rows[i]) <= key(rows[j])
  }

  // ---------- Selecting ----------

  /** The rows that satisfy `keep`, in order. */
  function Keep<T>(rows: seq<T>, keep: T -> bool): seq<T> {
    if rows == [] then
      []
    else
      Keep(rows[..|rows| - 1], keep) + if keep(rows[|rows| - 1]) then [rows[|rows| - 1]] else []
  }

  lemma {:induction false} KeepSelects<T>(rows: seq<T>, keep: T -> bool, x: T)
    ensures x in Keep(rows, keep) <==> x in rows && keep(x)
  {
    if rows != [] {
      assert rows == rows[..|rows| - 1] + [rows[|rows| - 1]];
      KeepSelects(rows[..|rows| - 1], keep, x);
    }
  }

  lemma {:induction false} KeepCounts<T>(rows: seq<T>, keep: T -> bool, x: T)
    ensures multiset(Keep(rows, keep))[x] == if keep(x) then multiset(rows)[x] else 0
  {
    if rows != [] {
      assert rows == rows[..|rows| - 1] + [rows[|rows| - 1]];
      KeepCounts(rows[..|rows| - 1], keep, x);
    }
  }

  lemma {:induction false} KeepConcat<T>(a: seq<T>, b: seq<T>, keep: T -> bool)
    ensures Keep(a + b, keep) == Keep(a, keep) + Keep(b, keep)
  {
    if b == [] {
      assert a + b == a;
    } else {
      KeepConcat(a, b[..|b| - 1], keep);
      assert (a + b)[..|a + b| - 1] == a + b[..|b| - 1];
    }
  }

  lemma KeepOneMore<T>(rows: seq<T>, x: T, keep: T -> bool)
    ensures Keep(rows + [x], keep) == Keep(rows, keep) + if keep(x) then [x] else []
  {
    assert (rows + [x])[..|rows|] == rows;
  }

  /** Two conditions that agree on the rows select the same rows. */
  lemma {:induction false} KeepSame<T>(rows: seq<T>, p: T -> bool, q: T -> bool)
    requires forall x | x in rows :: p(x) <==> q(x)
    ensures Keep(rows, p) == Keep(rows, q)
  {
    if rows != [] {
      assert rows == rows[..|rows| - 1] + [rows[|rows| - 1]];
      KeepSame(rows[..|rows| - 1], p, q);
    }
  }

  lemma {:induction false} KeepWhole<T>(rows: seq<T>, keep: T -> bool)
    requires forall x | x in rows :: keep(x)
    ensures Keep(rows, keep) == rows
  {
    if rows != [] {
      assert rows == rows[..|rows| - 1] + [rows[|rows| - 1]];
      KeepWhole(rows[..|rows| - 1], keep);
    }
  }

  lemma {:induction false} KeepNone<T>(rows: seq<T>, keep: T -> bool)
    requires forall x | x in rows :: !keep(x)
    ensures Keep(rows, keep) == []
  {
    if rows != [] {
      assert rows == rows[..|rows| - 1] + [rows[|rows| - 1]];
      KeepNone(rows[..|rows| - 1], keep);
    }
  }

  // ---------- Reordering ----------

  function Without<T>(rows: seq<T>, i: nat): seq<T>
    requires i < |rows|
  {
    rows[..i] + rows[i + 1..]
  }

  lemma WithoutRemovesOne<T>(rows: seq<T>, i: nat)
    requires i < |rows|
    ensures multiset(rows) == multiset(Without(rows, i)) + multiset{rows[i]}
  {
    assert rows == rows[..i] + [rows[i]] + rows[i + 1..];
  }

  lemma SameMembers<T>(a: seq<T>, b: seq<T>)
    requires Permutation(a, b)
    ensures |a| == |b|
    ensures forall x :: x in a <==> x in b
  {
    assert forall x :: x in a <==> x in multiset(a);
    assert forall x :: x in b <==> x in multiset(b);
    assert |multiset(a)| == |a| && |multiset(b)| == |b|;
  }

  lemma KeepWithout<T>(rows: seq<T>, i: nat, keep: T -> bool)
    requires i < |rows|
    ensures multiset(Keep(rows, keep))
         == multiset(Keep(Without(rows, i), keep)) + if keep(rows[i]) then multiset{rows[i]} else multiset{}
  {
    hide Keep;
    assert rows == rows[..i + 1] + rows[i + 1..] && rows[..i + 1] == rows[..i] + [rows[i]];
    KeepConcat(rows[..i], rows[i + 1..], keep);
    KeepConcat(rows[..i + 1], rows[i + 1..], keep);
    KeepOneMore(rows[..i], rows[i], keep);
  }

  lemma {:induction false} KeepPermutes<T>(a: seq<T>, b: seq<T>, keep: T -> bool)
    requires Permutation(a, b)
    ensures Permutation(Keep(a, keep), Keep(b, keep))
    decreases |a|
  {
    hide Keep, Without;
    SameMembers(a, b);
    if |a| > 0 {
      var n := |a| - 1;
      assert a[n] in b;
      var i :| 0 <= i < |b| && b[i] == a[n];
      WithoutRemovesOne(a, n);
      WithoutRemovesOne(b, i);
      var c, d := Without(a, n), Without(b, i);
      assert multiset(c) == multiset(a) - multiset{a[n]};
      assert multiset(d) == multiset(b) - multiset{b[i]};
      assert |multiset(c)| == |c| && |multiset(a)| == |a|;
      KeepPermutes(c, d, keep);
      KeepWithout(a, n, keep);
      KeepWithout(b, i, keep);
    }
  }

  lemma PlacedInOrder<T>(x: T, rows: seq<T>, key: T -> int, i: nat)
    requires InOrder(rows, key) && i <= |rows|
    requires forall k :: 0 <= k < i ==> key(rows[k]) <= key(x)
    requires i < |rows| ==> key(x) <= key(rows[i])
    ensures InOrder(rows[..i] + [x] + rows[i..], key)
    ensures multiset(rows[..i] + [x] + rows[i..]) == multiset(rows) + multiset{x}
  {
    hide Keep;
    assert rows == rows[..i] + rows[i..];
  }

  method InsertInOrder<T>(x: T, rows: seq<T>, key: T -> int) returns (sorted: seq<T>)
    requires InOrder(rows, key)
    ensures InOrder(sorted, key)
    ensures multiset(sorted) == multiset(rows) + multiset{x}
  {
    var i := 0;
    while i < |rows| && key(rows[i]) < key(x)
      invariant 0 <= i <= |rows|
      invariant forall k :: 0 <= k < i ==> key(rows[k]) <= key(x)
    {
      i := i + 1;
    }
    sorted := rows[..i] + [x] + rows[i..];
    PlacedInOrder(x, rows, key, i);
  }

  method SortBy<T>(rows: seq<T>, key: T -> int) returns (sorted: seq<T>)
    ensures InOrder(sorted, key)
    ensures Permutation(sorted, rows)
  {
    hide Keep;
    sorted := [];
    for i := 0 to |rows|
      invariant InOrder(sorted, key)
      invariant Permutation(sorted, rows[..i])
    {
      sorted := InsertInOrder(rows[i], sorted, key);
      assert rows[..i + 1] == rows[..i] + [rows[i]];
    }
    assert rows[..|rows|] == rows;
  }
}
