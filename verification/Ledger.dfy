/** Positions as signed sums of fills.

    `SumUpTo` adds up, in any row order, the fills whose execution sequence is at most `k`.
    `Cumulative` is the running sum that the reconciler computes over sorted rows.
 */
module Ledger {
  import opened Models
  import opened Frames

  function Signed(fill: Fill): int {
    if fill.side == Buy then fill.quantity else -fill.quantity
  }

  function Sum(fills: seq<Fill>): int {
    if fills == [] then 0 else Sum(fills[..|fills| - 1]) + Signed(fills[|fills| - 1])
  }

  function Share(fill: Fill, k: int): int {
    if fill.sequence <= k then Signed(fill) else 0
  }

  function SumUpTo(fills: seq<Fill>, k: int): int {
    if fills == [] then 0 else SumUpTo(fills[..|fills| - 1], k) + Share(fills[|fills| - 1], k)
  }

  /** The position after each fill, keyed by fill, accumulated in row order. */
  function Cumulative(fills: seq<Fill>): map<FillId, int> {
    if fills == [] then
      map[]
    else
      Cumulative(fills[..|fills| - 1])[fills[|fills| - 1].fillId := Sum(fills)]
  }

  function BySequence(fill: Fill): int {
    fill.sequence
  }

  /** No row is repeated, and ids and execution sequences each identify a row. */
  ghost predicate WellKeyed(fills: seq<Fill>) {
    && (forall f :: multiset(fills)[f] <= 1)
    && (forall f, g | f in fills && g in fills ::
          f.fillId == g.fillId || f.sequence == g.sequence ==> f == g)
  }

  // ---------- Row order does not matter ----------

  lemma {:induction false} SumUpToConcat(a: seq<Fill>, b: seq<Fill>, k: int)
    ensures SumUpTo(a + b, k) == SumUpTo(a, k) + SumUpTo(b, k)
  {
    if b == [] {
      assert a + b == a;
    } else {
      SumUpToConcat(a, b[..|b| - 1], k);
      assert (a + b)[..|a + b| - 1] == a + b[..|b| - 1];
    }
  }

  lemma SumUpToWithout(fills: seq<Fill>, i: nat, k: int)
    requires i < |fills|
    ensures SumUpTo(fills, k) == SumUpTo(Without(fills, i), k) + Share(fills[i], k)
  {
    var front, back := fills[..i], fills[i + 1..];
    assert fills == front + ([fills[i]] + back);
    SumUpToConcat(front, [fills[i]] + back, k);
    SumUpToConcat([fills[i]], back, k);
    SumUpToConcat(front, back, k);
    assert SumUpTo([fills[i]], k) == Share(fills[i], k) by {
      assert [fills[i]][..0] == [];
    }
  }

  lemma {:induction false} SumUpToPermutes(a: seq<Fill>, b: seq<Fill>, k: int)
    requires Permutation(a, b)
    ensures SumUpTo(a, k) == SumUpTo(b, k)
  {
    SameMembers(a, b);
    if |a| > 0 {
      var last := a[|a| - 1];
      assert last in b;
      var i :| 0 <= i < |b| && b[i] == last;
      WithoutRemovesOne(b, i);
      WithoutRemovesOne(a, |a| - 1);
      assert Without(a, |a| - 1) == a[..|a| - 1];
      assert multiset(a[..|a| - 1]) == multiset(a) - multiset{last};
      assert multiset(Without(b, i)) == multiset(b) - multiset{last};
      SumUpToPermutes(a[..|a| - 1], Without(b, i), k);
      SumUpToWithout(b, i, k);
    }
  }

  lemma WellKeyedPermutes(a: seq<Fill>, b: seq<Fill>)
    requires WellKeyed(a) && Permutation(a, b)
    ensures WellKeyed(b)
  {
    SameMembers(a, b);
  }

  // ---------- The running sum over sorted rows is the sum of earlier executions ----------

  lemma {:induction false} AllUpTo(fills: seq<Fill>, k: int)
    requires forall f :: f in fills ==> f.sequence <= k
    ensures Sum(fills) == SumUpTo(fills, k)
  {
    if fills != [] {
      AllUpTo(fills[..|fills| - 1], k);
    }
  }

  lemma SplitLast(order: seq<Fill>, front: seq<Fill>, last: Fill)
    requires order == front + [last]
    requires InOrder(order, BySequence) && WellKeyed(order)
    ensures InOrder(front, BySequence) && WellKeyed(front)
    ensures forall f | f in front :: f.sequence < last.sequence && f.fillId != last.fillId
  {
    assert multiset(order) == multiset(front) + multiset{last};
    assert multiset(order)[last] <= 1;
    assert last !in multiset(front);
    forall f | f in front
      ensures f.sequence < last.sequence && f.fillId != last.fillId
    {
      var i :| 0 <= i < |front| && front[i] == f;
      assert BySequence(order[i]) <= BySequence(order[|front|]);
      assert f in order && last in order;
    }
    forall i, j | 0 <= i < j < |front|
      ensures BySequence(front[i]) <= BySequence(front[j])
    {
      assert front[i] == order[i] && front[j] == order[j];
    }
    forall f
      ensures multiset(front)[f] <= 1
    {
      assert multiset(order)[f] <= 1;
    }
    assert forall f :: f in front ==> f in order;
  }

  lemma {:induction false} CumulativeIsSumUpTo(order: seq<Fill>, f: Fill)
    requires InOrder(order, BySequence) && WellKeyed(order) && f in order
    ensures f.fillId in Cumulative(order)
    ensures Cumulative(order)[f.fillId] == SumUpTo(order, f.sequence)
  {
    hide InOrder, WellKeyed;
    var front, last := order[..|order| - 1], order[|order| - 1];
    assert order == front + [last];
    SplitLast(order, front, last);
    if f in front {
      CumulativeIsSumUpTo(front, f);
    } else {
      AllUpTo(order, last.sequence);
    }
  }

  lemma {:induction false} CumulativeKeys(order: seq<Fill>, id: FillId)
    requires id in Cumulative(order)
    ensures exists f :: f in order && f.fillId == id
  {
    if order != [] {
      var last := order[|order| - 1];
      if id == last.fillId {
        assert last in order;
      } else {
        CumulativeKeys(order[..|order| - 1], id);
      }
    }
  }
}
