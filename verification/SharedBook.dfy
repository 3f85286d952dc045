/** A book that several traders fill, each counting its own fills from 1, and the reconciler's sort over
    all of them.

    The main result says exactly when every sort reports the planted drifts and nothing else, however it
    breaks the ties between the traders' equal sequences. Lemmas that argue about one sort switch off the
    induction over the traders that Dafny would otherwise attempt.
 */
module SharedBook {
  import opened Models
  import opened Frames
  import opened Ledger
  import opened SimulatedBook
  import opened Reconciliation
  import opened AnomalyDetection

  // ---------- What the traders leave in the tables ----------

  /** One trader's fills and snapshots of a symbol, and the log of what it planted. */
  datatype Trader = Trader(fills: seq<Fill>, snapshots: seq<Position>, planted: seq<Planted>)

  ghost predicate Kept(t: Trader) {
    Consistent(t.fills, t.snapshots, t.planted)
  }

  function DriftOf(t: Trader, f: Fill): int {
    LoggedDrift(t.planted, f.fillId)
  }

  function AllFills(traders: seq<Trader>): seq<Fill> {
    if traders == [] then [] else AllFills(traders[..|traders| - 1]) + traders[|traders| - 1].fills
  }

  function AllSnapshots(traders: seq<Trader>): seq<Position> {
    if traders == [] then [] else AllSnapshots(traders[..|traders| - 1]) + traders[|traders| - 1].snapshots
  }

  /** Every trader's own book is consistent, and no two share a fill id. */
  ghost predicate Shared(traders: seq<Trader>) {
    && (forall k | 0 <= k < |traders| :: Kept(traders[k]))
    && (forall j, k, f, g | 0 <= j < k < |traders| && f in traders[j].fills && g in traders[k].fills ::
          f.fillId != g.fillId)
  }

  lemma FillHasSnapshot(t: Trader, f: Fill) returns (p: Position)
    requires Kept(t) && f in t.fills && GetsSnapshot(f)
    ensures p in t.snapshots && Paired(f, p, t.fills, DriftOf(t, f))
  {
    hide Paired, Numbered, Keep, LoggedDrift, DriftFits;
    KeepSelects(t.fills, GetsSnapshot, f);
    var j :| 0 <= j < |t.snapshots| && Recorded(t.fills)[j] == f;
    p := t.snapshots[j];
  }

  lemma SnapshotHasFill(t: Trader, p: Position) returns (f: Fill)
    requires Kept(t) && p in t.snapshots
    ensures f in t.fills && GetsSnapshot(f) && Paired(f, p, t.fills, DriftOf(t, f))
  {
    hide Paired, Numbered, Keep, LoggedDrift, DriftFits;
    var j :| 0 <= j < |t.snapshots| && t.snapshots[j] == p;
    f := Recorded(t.fills)[j];
    KeepSelects(t.fills, GetsSnapshot, f);
  }

  lemma PartOf(traders: seq<Trader>, k: nat)
    requires Shared(traders) && k < |traders|
    ensures Kept(traders[k]) && Numbered(traders[k].fills)
  {
  }

  function Within(fills: seq<Fill>): Fill -> bool {
    (f: Fill) => f in fills
  }

  function Beyond(fills: seq<Fill>): Fill -> bool {
    (f: Fill) => f !in fills
  }

  // ---------- Sums of parts ----------

  lemma {:induction false} SumSplits(rows: seq<Fill>, fills: seq<Fill>)
    ensures Sum(rows) == Sum(Keep(rows, Within(fills))) + Sum(Keep(rows, Beyond(fills)))
  {
    hide Keep, Sum;
    if rows == [] {
      KeepNone(rows, Within(fills));
      KeepNone(rows, Beyond(fills));
      SumOfNone();
    } else {
      var front, last := rows[..|rows| - 1], rows[|rows| - 1];
      assert rows == front + [last];
      SumSplits(front, fills);
      KeepOneMore(front, last, Within(fills));
      KeepOneMore(front, last, Beyond(fills));
      SumAppend(front, last);
      SumAppend(Keep(front, if last in fills then Within(fills) else Beyond(fills)), last);
      assert Keep(front, Within(fills)) + [] == Keep(front, Within(fills));
      assert Keep(front, Beyond(fills)) + [] == Keep(front, Beyond(fills));
    }
  }

  lemma {:induction false} NothingUpTo(rows: seq<Fill>, k: int)
    requires forall f | f in rows :: f.sequence > k
    ensures SumUpTo(rows, k) == 0
  {
    if rows != [] {
      assert rows[|rows| - 1] in rows;
      NothingUpTo(rows[..|rows| - 1], k);
    }
  }

  lemma {:induction false} InAllFills(traders: seq<Trader>, f: Fill)
    ensures f in AllFills(traders) <==> exists k :: 0 <= k < |traders| && f in traders[k].fills
  {
    if traders != [] {
      var front := traders[..|traders| - 1];
      InAllFills(front, f);
      assert forall k | 0 <= k < |front| :: front[k] == traders[k];
    }
  }

  lemma {:induction false} InAllSnapshots(traders: seq<Trader>, p: Position)
    ensures p in AllSnapshots(traders) <==> exists k :: 0 <= k < |traders| && p in traders[k].snapshots
  {
    if traders != [] {
      var front := traders[..|traders| - 1];
      InAllSnapshots(front, p);
      assert forall k | 0 <= k < |front| :: front[k] == traders[k];
    }
  }

  lemma BookFront(traders: seq<Trader>)
    requires Shared(traders) && traders != []
    ensures Shared(traders[..|traders| - 1])
  {
    hide Kept;
    var front := traders[..|traders| - 1];
    assert forall k | 0 <= k < |front| :: front[k] == traders[k];
  }

  lemma SameTrader(traders: seq<Trader>, j: nat, k: nat, f: Fill, g: Fill)
    requires Shared(traders) && j < |traders| && k < |traders|
    requires f in traders[j].fills && g in traders[k].fills && f.fillId == g.fillId
    ensures j == k && f == g
  {
    hide Kept, Numbered;
    PartOf(traders, j);
    if j == k {
      SameRow(traders[j].fills, f, g);
    }
  }

  /** Each fill is stored once, in one trader's part. */
  lemma {:induction false} StoredOnce(traders: seq<Trader>, k: nat, f: Fill)
    requires Shared(traders) && k < |traders| && f in traders[k].fills
    ensures multiset(AllFills(traders))[f] == 1 == multiset(traders[k].fills)[f]
  {
    hide Kept, Shared, AllFills;
    var front, last := traders[..|traders| - 1], traders[|traders| - 1];
    BookFront(traders);
    PartOf(traders, |traders| - 1);
    AllFillsOneMore(front, last);
    assert traders == front + [last];
    if k == |traders| - 1 {
      OnceInPart(last, f);
      InAllFills(front, f);
      assert f !in AllFills(front) by {
        if f in AllFills(front) {
          var j :| 0 <= j < |front| && f in front[j].fills;
          SameTrader(traders, j, k, f, f);
        }
      }
      assert f !in multiset(AllFills(front));
    } else {
      StoredOnce(front, k, f);
      assert f !in last.fills by {
        if f in last.fills {
          SameTrader(traders, k, |traders| - 1, f, f);
        }
      }
      assert f !in multiset(last.fills);
    }
  }

  lemma AllFillsOneMore(traders: seq<Trader>, t: Trader)
    ensures AllFills(traders + [t]) == AllFills(traders) + t.fills
  {
    assert (traders + [t])[..|traders|] == traders;
  }

  lemma OnceInPart(t: Trader, f: Fill)
    requires Kept(t) && f in t.fills
    ensures multiset(t.fills)[f] == 1
  {
    NumberedRowsDistinct(t.fills, f);
    assert f in multiset(t.fills);
  }

  // ---------- One sort ----------

  ghost predicate Sorts(order: seq<Fill>, fills: seq<Fill>) {
    Permutation(order, fills) && InOrder(order, BySequence)
  }

  /** What the other traders' fills contribute before position `a` of the sort. */
  function OthersBefore(order: seq<Fill>, a: nat, fills: seq<Fill>): int
    requires a <= |order|
  {
    Sum(Keep(order[..a], Beyond(fills)))
  }

  lemma SortedAround(order: seq<Fill>, a: nat)
    requires InOrder(order, BySequence) && a < |order|
    ensures forall f | f in order[..a + 1] :: f.sequence <= order[a].sequence
    ensures forall f | f in order[a..] :: order[a].sequence <= f.sequence
  {
    forall f | f in order[..a + 1]
      ensures f.sequence <= order[a].sequence
    {
      var i :| 0 <= i <= a && order[i] == f;
      assert BySequence(order[i]) <= BySequence(order[a]);
    }
    forall f | f in order[a..]
      ensures order[a].sequence <= f.sequence
    {
      var i :| 0 <= i < |order[a..]| && order[a..][i] == f;
      assert BySequence(order[a]) <= BySequence(order[a + i]);
    }
  }

  lemma {:induction false} OwnPartSum(traders: seq<Trader>, order: seq<Fill>, a: nat, k: nat)
    requires Shared(traders) && Sorts(order, AllFills(traders)) && a < |order|
    requires k < |traders| && order[a] in traders[k].fills
    ensures Sum(Keep(order[..a + 1], Within(traders[k].fills))) == SumUpTo(traders[k].fills, order[a].sequence)
  {
    hide Keep, Sum, SumUpTo, Kept, AllFills, Shared, InOrder;
    var fills, m := traders[k].fills, order[a].sequence;
    var first, second := Keep(order[..a + 1], Within(fills)), Keep(order[a + 1..], Within(fills));
    assert order == order[..a + 1] + order[a + 1..];
    KeepConcat(order[..a + 1], order[a + 1..], Within(fills));
    OwnFillsAround(traders, order, a, k);
    AllUpTo(first, m);
    NothingUpTo(second, m);
    SumUpToConcat(first, second, m);
    OwnPartIsPermuted(traders, order, k);
    SumUpToPermutes(Keep(order, Within(fills)), fills, m);
  }

  /** The running sum at a fill is its own trader's position there plus what others put before it. */
  lemma {:induction false} RunningSum(traders: seq<Trader>, order: seq<Fill>, a: nat, k: nat)
    requires Shared(traders) && Sorts(order, AllFills(traders)) && a < |order|
    requires k < |traders| && order[a] in traders[k].fills
    ensures Sum(order[..a + 1])
         == SumUpTo(traders[k].fills, order[a].sequence) + OthersBefore(order, a, traders[k].fills)
  {
    hide Keep, Sum, SumUpTo, Kept, AllFills, Shared, Sorts;
    var fills := traders[k].fills;
    SumSplits(order[..a + 1], fills);
    assert order[..a + 1] == order[..a] + [order[a]];
    KeepOneMore(order[..a], order[a], Beyond(fills));
    assert Keep(order[..a], Beyond(fills)) + [] == Keep(order[..a], Beyond(fills));
    OwnPartSum(traders, order, a, k);
  }

  lemma {:induction false} OwnFillsAround(traders: seq<Trader>, order: seq<Fill>, a: nat, k: nat)
    requires Shared(traders) && Sorts(order, AllFills(traders)) && a < |order|
    requires k < |traders| && order[a] in traders[k].fills
    ensures forall g | g in Keep(order[..a + 1], Within(traders[k].fills)) :: g.sequence <= order[a].sequence
    ensures forall g | g in Keep(order[a + 1..], Within(traders[k].fills)) :: g.sequence > order[a].sequence
  {
    hide Keep, AllFills, Sum, SumUpTo, Shared, Kept, Numbered;
    var fills := traders[k].fills;
    PartOf(traders, k);
    SortedAround(order, a);
    forall g | g in Keep(order[..a + 1], Within(fills))
      ensures g.sequence <= order[a].sequence
    {
      KeepSelects(order[..a + 1], Within(fills), g);
    }
    forall g | g in Keep(order[a + 1..], Within(fills))
      ensures g.sequence > order[a].sequence
    {
      KeepSelects(order[a + 1..], Within(fills), g);
      assert order[a..] == [order[a]] + order[a + 1..];
      if g.sequence == order[a].sequence {
        SameRow(fills, g, order[a]);
        StoredOnce(traders, k, g);
        AgainAfter(order, a);
        assert false;
      }
    }
  }

  lemma AgainAfter(order: seq<Fill>, a: nat)
    requires a < |order| && order[a] in order[a + 1..]
    ensures multiset(order)[order[a]] >= 2
  {
    assert order == order[..a] + [order[a]] + order[a + 1..];
    assert order[a] in multiset(order[a + 1..]);
  }

  lemma {:induction false} OwnPartIsPermuted(traders: seq<Trader>, order: seq<Fill>, k: nat)
    requires Shared(traders) && Permutation(order, AllFills(traders)) && k < |traders|
    ensures Permutation(Keep(order, Within(traders[k].fills)), traders[k].fills)
  {
    hide Keep, AllFills, Shared;
    var fills := traders[k].fills;
    forall f
      ensures multiset(Keep(order, Within(fills)))[f] == multiset(fills)[f]
    {
      KeepCounts(order, Within(fills), f);
      if f in fills {
        StoredOnce(traders, k, f);
      } else {
        assert f !in multiset(fills);
      }
    }
  }

  // ---------- Which fills one sort reports ----------

  ghost predicate DistinctIds(order: seq<Fill>) {
    forall i, j | 0 <= i < j < |order| :: order[i].fillId != order[j].fillId
  }

  lemma {:induction false} CumulativeAt(order: seq<Fill>, a: nat)
    requires DistinctIds(order) && a < |order|
    ensures order[a].fillId in Cumulative(order)
    ensures Cumulative(order)[order[a].fillId] == Sum(order[..a + 1])
  {
    if a == |order| - 1 {
      assert order[..a + 1] == order;
    } else {
      CumulativeAt(order[..|order| - 1], a);
      assert order[..|order| - 1][..a + 1] == order[..a + 1];
    }
  }

  lemma SortedIdsDistinct(traders: seq<Trader>, order: seq<Fill>)
    requires Shared(traders) && Permutation(order, AllFills(traders))
    ensures DistinctIds(order)
  {
    hide Kept, AllFills, Shared;
    SameMembers(order, AllFills(traders));
    forall i, j | 0 <= i < j < |order|
      ensures order[i].fillId != order[j].fillId
    {
      InAllFills(traders, order[i]);
      InAllFills(traders, order[j]);
      assert order[i] in order && order[j] in order;
      if order[i].fillId == order[j].fillId {
        var k :| 0 <= k < |traders| && order[i] in traders[k].fills;
        var l :| 0 <= l < |traders| && order[j] in traders[l].fills;
        SameTrader(traders, k, l, order[i], order[j]);
        StoredOnce(traders, k, order[i]);
        TwiceInOrder(order, i, j);
        assert false;
      }
    }
  }

  lemma TwiceInOrder(order: seq<Fill>, i: nat, j: nat)
    requires i < j < |order| && order[i] == order[j]
    ensures multiset(order)[order[i]] >= 2
  {
    assert order == order[..i] + [order[i]] + order[i + 1..j] + [order[j]] + order[j + 1..];
  }

  /** The snapshots that name a fill are exactly its own, if it has one. */
  ghost predicate SnapshotsTell(snapshots: seq<Position>, f: Fill, fills: seq<Fill>, drift: int) {
    && (forall p | p in snapshots && p.lastFillId == Some(f.fillId) :: GetsSnapshot(f) && Paired(f, p, fills, drift))
    && (GetsSnapshot(f) ==> exists p :: p in snapshots && Paired(f, p, fills, drift))
  }

  lemma {:induction false} BookTells(traders: seq<Trader>, k: nat, f: Fill)
    requires Shared(traders) && k < |traders| && f in traders[k].fills
    ensures SnapshotsTell(AllSnapshots(traders), f, traders[k].fills, DriftOf(traders[k], f))
  {
    hide SumUpTo, AllSnapshots, Kept, Shared;
    forall p | p in AllSnapshots(traders) && p.lastFillId == Some(f.fillId)
      ensures GetsSnapshot(f) && Paired(f, p, traders[k].fills, DriftOf(traders[k], f))
    {
      SnapshotIsOwn(traders, p, k, f);
    }
    if GetsSnapshot(f) {
      PartOf(traders, k);
      var p := FillHasSnapshot(traders[k], f);
      InAllSnapshots(traders, p);
    }
  }

  lemma ReportedIffOff(
      expected: map<FillId, int>, snapshots: seq<Position>, f: Fill, fills: seq<Fill>, drift: int, others: int,
      tolerance: int)
    requires SnapshotsTell(snapshots, f, fills, drift)
    requires f.fillId in expected && expected[f.fillId] == SumUpTo(fills, f.sequence) + others
    ensures DriftedFrom(expected, snapshots, tolerance, f.fillId)
       <==> GetsSnapshot(f) && Abs(drift - others) > tolerance
  {
    hide SumUpTo;
  }

  /** Under one sort a fill is reported exactly when it has a snapshot and its logged drift is off from what
      the other traders put before it by more than the tolerance. */
  lemma {:induction false} ReportedUnderSort(traders: seq<Trader>, order: seq<Fill>, a: nat, k: nat, tolerance: int)
    requires Shared(traders) && Sorts(order, AllFills(traders)) && a < |order|
    requires k < |traders| && order[a] in traders[k].fills
    ensures DriftedFrom(Cumulative(order), AllSnapshots(traders), tolerance, order[a].fillId)
       <==> GetsSnapshot(order[a])
            && Abs(DriftOf(traders[k], order[a]) - OthersBefore(order, a, traders[k].fills)) > tolerance
  {
    hide *;
    SortPermutes(order, AllFills(traders));
    SortedIdsDistinct(traders, order);
    CumulativeAt(order, a);
    RunningSum(traders, order, a, k);
    BookTells(traders, k, order[a]);
    ReportedIffOff(Cumulative(order), AllSnapshots(traders), order[a], traders[k].fills,
                   DriftOf(traders[k], order[a]), OthersBefore(order, a, traders[k].fills), tolerance);
  }

  lemma SortPermutes(order: seq<Fill>, fills: seq<Fill>)
    ensures Sorts(order, fills) ==> Permutation(order, fills)
  {
  }

  lemma SnapshotIsOwn(traders: seq<Trader>, p: Position, k: nat, f: Fill)
    requires Shared(traders) && p in AllSnapshots(traders) && p.lastFillId == Some(f.fillId)
    requires k < |traders| && f in traders[k].fills
    ensures GetsSnapshot(f) && Paired(f, p, traders[k].fills, DriftOf(traders[k], f))
  {
    hide SumUpTo, AllSnapshots, Kept, Shared;
    InAllSnapshots(traders, p);
    var j :| 0 <= j < |traders| && p in traders[j].snapshots;
    PartOf(traders, j);
    var g := SnapshotHasFill(traders[j], p);
    SameTrader(traders, j, k, g, f);
  }

  // ---------- Every way to break ties ----------

  lemma {:induction false} SortExists(rows: seq<Fill>, key: Fill -> int) returns (order: seq<Fill>)
    ensures Permutation(order, rows) && InOrder(order, key)
  {
    if rows == [] {
      order := [];
    } else {
      var x := rows[|rows| - 1];
      var rest := SortExists(rows[..|rows| - 1], key);
      var i := Place(x, rest, key);
      order := rest[..i] + [x] + rest[i..];
      PlacedInOrder(x, rest, key, i);
      assert rows == rows[..|rows| - 1] + [x];
    }
  }

  function Place(x: Fill, rows: seq<Fill>, key: Fill -> int): (i: nat)
    ensures i <= |rows|
    ensures forall k | 0 <= k < i :: key(rows[k]) <= key(x)
    ensures i < |rows| ==> key(x) <= key(rows[i])
  {
    if rows == [] || key(rows[0]) >= key(x) then 0 else 1 + Place(x, rows[1..], key)
  }

  /** By sequence, with `early` right before `f` and its other equals right after. */
  function TieKey(f: Fill, early: set<Fill>): Fill -> int {
    (g: Fill) => 4 * g.sequence + if g == f then 1 else if g in early then 0 else 2
  }

  /** Whatever set of a fill's equals is chosen, some sort puts exactly these before it. */
  lemma TiesBreakAnyWay(all: seq<Fill>, f: Fill, early: set<Fill>) returns (order: seq<Fill>, a: nat)
    requires f in all
    ensures Sorts(order, all) && a < |order| && order[a] == f
    ensures forall g | g != f && g in all && g.sequence == f.sequence :: g in order[..a] <==> g in early
  {
    order := SortExists(all, TieKey(f, early));
    SameMembers(order, all);
    a :| 0 <= a < |order| && order[a] == f;
    KeyedBySequence(order, f, early);
    forall g | g != f && g in all && g.sequence == f.sequence
      ensures g in order[..a] <==> g in early
    {
      var i :| 0 <= i < |order| && order[i] == g;
      KeyedAround(order, f, early, a, g);
      assert i < a ==> order[..a][i] == g;
    }
  }

  lemma KeyedBySequence(order: seq<Fill>, f: Fill, early: set<Fill>)
    requires InOrder(order, TieKey(f, early))
    ensures InOrder(order, BySequence)
  {
    forall i, j | 0 <= i < j < |order|
      ensures BySequence(order[i]) <= BySequence(order[j])
    {
      assert TieKey(f, early)(order[i]) <= TieKey(f, early)(order[j]);
    }
  }

  lemma KeyedAround(order: seq<Fill>, f: Fill, early: set<Fill>, a: nat, g: Fill)
    requires InOrder(order, TieKey(f, early)) && a < |order| && order[a] == f
    requires g != f && g.sequence == f.sequence
    ensures g in order[..a] ==> g in early
    ensures forall i | a < i < |order| && order[i] == g :: g !in early
  {
    var key := TieKey(f, early);
    if g in order[..a] {
      var i :| 0 <= i < a && order[..a][i] == g;
      assert key(order[i]) <= key(order[a]);
    }
    forall i | a < i < |order| && order[i] == g
      ensures g !in early
    {
      assert key(order[a]) <= key(order[i]);
    }
  }

  function InFront(fills: seq<Fill>, f: Fill, early: set<Fill>): Fill -> bool {
    (g: Fill) => g !in fills && (g.sequence < f.sequence || (g.sequence == f.sequence && g in early))
  }

  /** What the others put before `f` when exactly `early` of its equals come first. */
  function OthersWith(all: seq<Fill>, fills: seq<Fill>, f: Fill, early: set<Fill>): int {
    Sum(Keep(all, InFront(fills, f, early)))
  }

  lemma CountAround(order: seq<Fill>, a: nat, g: Fill)
    requires a < |order|
    ensures multiset(order)[g] == multiset(order[..a])[g] + multiset(order[a..])[g]
    ensures g in order[..a] <==> multiset(order[..a])[g] >= 1
    ensures g in order[a..] <==> multiset(order[a..])[g] >= 1
  {
    assert order == order[..a] + order[a..];
  }

  lemma StoredAtMostOnce(traders: seq<Trader>, g: Fill)
    requires Shared(traders)
    ensures multiset(AllFills(traders))[g] == if g in AllFills(traders) then 1 else 0
  {
    hide Shared, AllFills;
    if g in AllFills(traders) {
      InAllFills(traders, g);
      var k :| 0 <= k < |traders| && g in traders[k].fills;
      StoredOnce(traders, k, g);
    } else {
      assert g !in multiset(AllFills(traders));
    }
  }

  /** What the others put before a fill depends on the sort only through the ties it put first. */
  lemma {:induction false} OthersBeforeAre(traders: seq<Trader>, order: seq<Fill>, a: nat, k: nat, early: set<Fill>)
    requires Shared(traders) && Sorts(order, AllFills(traders)) && a < |order| && k < |traders|
    requires order[a] in traders[k].fills
    requires forall g | g in AllFills(traders) && g !in traders[k].fills && g.sequence == order[a].sequence ::
               g in order[..a] <==> g in early
    ensures OthersBefore(order, a, traders[k].fills) == OthersWith(AllFills(traders), traders[k].fills, order[a], early)
  {
    hide Keep, Sum, SumUpTo, AllFills, Shared;
    var all, fills, f := AllFills(traders), traders[k].fills, order[a];
    var before, front := Keep(order[..a], Beyond(fills)), Keep(all, InFront(fills, f, early));
    SameMembers(order, all);
    SortedAround(order, a);
    forall g
      ensures multiset(before)[g] == multiset(front)[g]
    {
      KeepCounts(order[..a], Beyond(fills), g);
      KeepCounts(all, InFront(fills, f, early), g);
      CountAround(order, a, g);
      StoredAtMostOnce(traders, g);
      assert order[..a] <= order[..a + 1];
    }
    forall g | g in front
      ensures g.sequence <= f.sequence
    {
      KeepSelects(all, InFront(fills, f, early), g);
    }
    SumPermutes(before, front, f.sequence);
  }

  lemma SumPermutes(a: seq<Fill>, b: seq<Fill>, m: int)
    requires Permutation(a, b) && forall f | f in b :: f.sequence <= m
    ensures Sum(a) == Sum(b)
  {
    SameMembers(a, b);
    AllUpTo(a, m);
    AllUpTo(b, m);
    SumUpToPermutes(a, b, m);
  }

  // ---------- Exactly when every sort reports the planted drifts and nothing else ----------

  /** Whatever sort the reconciler's table library picks, a drift is reported exactly for the fills that
      were planted with one. */
  ghost predicate OnlyPlanted(fills: seq<Fill>, snapshots: seq<Position>, tolerance: int) {
    forall order, id | Sorts(order, fills) ::
      DriftedFrom(Cumulative(order), snapshots, tolerance, id) <==> FilledWith(fills, PositionDrift, id)
  }

  /** With `early` before it, the fill's drift is off from what the others put there exactly if it was
      planted. */
  ghost predicate ToldApart(traders: seq<Trader>, k: nat, f: Fill, early: set<Fill>, tolerance: int)
    requires k < |traders|
  {
    Abs(DriftOf(traders[k], f) - OthersWith(AllFills(traders), traders[k].fills, f, early)) > tolerance
    <==> f.anomaly == Some(PositionDrift)
  }

  ghost predicate AlwaysToldApart(traders: seq<Trader>, tolerance: int) {
    forall k, f, early: set<Fill> | 0 <= k < |traders| && f in traders[k].fills && GetsSnapshot(f) ::
      ToldApart(traders, k, f, early, tolerance)
  }

  lemma {:induction false} PlantedIs(traders: seq<Trader>, k: nat, f: Fill)
    requires Shared(traders) && k < |traders| && f in traders[k].fills
    ensures FilledWith(AllFills(traders), PositionDrift, f.fillId) <==> f.anomaly == Some(PositionDrift)
  {
    hide Shared, AllFills;
    InAllFills(traders, f);
    if g :| g in AllFills(traders) && g.fillId == f.fillId && g.anomaly == Some(PositionDrift) {
      InAllFills(traders, g);
      var j :| 0 <= j < |traders| && g in traders[j].fills;
      SameTrader(traders, j, k, g, f);
    }
  }

  /** Under a sort, the report about one fill is right exactly if the fill is told apart with the ties that
      the sort put first. */
  lemma {:induction false} RightUnderSort(
      traders: seq<Trader>, order: seq<Fill>, a: nat, k: nat, early: set<Fill>, tolerance: int)
    requires Shared(traders) && Sorts(order, AllFills(traders)) && a < |order| && k < |traders|
    requires order[a] in traders[k].fills
    requires forall g | g in AllFills(traders) && g !in traders[k].fills && g.sequence == order[a].sequence ::
               g in order[..a] <==> g in early
    ensures (DriftedFrom(Cumulative(order), AllSnapshots(traders), tolerance, order[a].fillId)
             <==> FilledWith(AllFills(traders), PositionDrift, order[a].fillId))
       <==> !GetsSnapshot(order[a]) || ToldApart(traders, k, order[a], early, tolerance)
  {
    hide Cumulative, AllFills, AllSnapshots, Shared, Keep, OthersBefore, OthersWith, DriftedFrom, FilledWith, Sorts;
    ReportedUnderSort(traders, order, a, k, tolerance);
    OthersBeforeAre(traders, order, a, k, early);
    PlantedIs(traders, k, order[a]);
  }

  lemma {:induction false} RightIsToldApart(traders: seq<Trader>, k: nat, f: Fill, early: set<Fill>, tolerance: int)
    requires Shared(traders) && OnlyPlanted(AllFills(traders), AllSnapshots(traders), tolerance)
    requires k < |traders| && f in traders[k].fills && GetsSnapshot(f)
    ensures ToldApart(traders, k, f, early, tolerance)
  {
    hide Cumulative, AllFills, AllSnapshots, Shared, DriftedFrom, FilledWith, Sorts, ToldApart;
    InAllFills(traders, f);
    var order, a := TiesBreakAnyWay(AllFills(traders), f, early);
    RightUnderSort(traders, order, a, k, early, tolerance);
  }

  lemma SortPosition(traders: seq<Trader>, order: seq<Fill>, id: FillId) returns (a: nat, k: nat)
    requires Sorts(order, AllFills(traders))
    requires id in Cumulative(order) || FilledWith(AllFills(traders), PositionDrift, id)
    ensures a < |order| && order[a].fillId == id && k < |traders| && order[a] in traders[k].fills
  {
    hide AllFills, Cumulative;
    SameMembers(order, AllFills(traders));
    if id in Cumulative(order) {
      CumulativeKeys(order, id);
    }
    var f: Fill :| f in order && f.fillId == id;
    a :| 0 <= a < |order| && order[a] == f;
    InAllFills(traders, f);
    k :| 0 <= k < |traders| && f in traders[k].fills;
  }

  lemma ToldApartIsRight(traders: seq<Trader>, order: seq<Fill>, id: FillId, tolerance: int)
    requires Shared(traders) && AlwaysToldApart(traders, tolerance) && Sorts(order, AllFills(traders))
    ensures DriftedFrom(Cumulative(order), AllSnapshots(traders), tolerance, id)
       <==> FilledWith(AllFills(traders), PositionDrift, id)
  {
    hide Cumulative, AllFills, AllSnapshots, Shared, FilledWith, Sorts, ToldApart;
    if id in Cumulative(order) || FilledWith(AllFills(traders), PositionDrift, id) {
      var a, k := SortPosition(traders, order, id);
      var early := set g | g in order[..a];
      assert GetsSnapshot(order[a]) ==> ToldApart(traders, k, order[a], early, tolerance);
      RightUnderSort(traders, order, a, k, early, tolerance);
    }
  }

  /** Every sort reports the planted drifts and nothing else if and only if, for every fill with a snapshot
      and any choice of the others' fills with its sequence, the fill's drift is off from what the others
      then put before it exactly if it was planted. */
  lemma {:induction false} OnlyPlantedIff(traders: seq<Trader>, tolerance: int)
    requires Shared(traders)
    ensures OnlyPlanted(AllFills(traders), AllSnapshots(traders), tolerance) <==> AlwaysToldApart(traders, tolerance)
  {
    hide Cumulative, AllFills, AllSnapshots, Shared, DriftedFrom, FilledWith, Sorts, ToldApart;
    if AlwaysToldApart(traders, tolerance) {
      forall order, id | Sorts(order, AllFills(traders))
        ensures DriftedFrom(Cumulative(order), AllSnapshots(traders), tolerance, id)
           <==> FilledWith(AllFills(traders), PositionDrift, id)
      {
        ToldApartIsRight(traders, order, id, tolerance);
      }
    }
    if OnlyPlanted(AllFills(traders), AllSnapshots(traders), tolerance) {
      forall k, f, early: set<Fill> | 0 <= k < |traders| && f in traders[k].fills && GetsSnapshot(f)
        ensures ToldApart(traders, k, f, early, tolerance)
      {
        RightIsToldApart(traders, k, f, early, tolerance);
      }
    }
  }

  // ---------- Without planted drifts ----------

  ghost predicate Undrifted(traders: seq<Trader>) {
    forall k, f | 0 <= k < |traders| && f in traders[k].fills :: f.anomaly != Some(PositionDrift)
  }

  /** Whenever a trader got a snapshot, every other one had made fewer trades by then in its own counting,
      and all the others' trades together cancel out. */
  ghost predicate NeverMixed(traders: seq<Trader>, tolerance: int) {
    forall k, f | 0 <= k < |traders| && f in traders[k].fills && GetsSnapshot(f) ::
      && (forall g | g in AllFills(traders) && g !in traders[k].fills :: g.sequence < f.sequence)
      && Abs(Sum(Keep(AllFills(traders), Beyond(traders[k].fills)))) <= tolerance
  }

  /** No id is reported, whatever sort the reconciler's table library picks. */
  ghost predicate Silent(fills: seq<Fill>, snapshots: seq<Position>, tolerance: int) {
    forall order, id | Sorts(order, fills) :: !DriftedFrom(Cumulative(order), snapshots, tolerance, id)
  }

  lemma NonePlanted(traders: seq<Trader>)
    requires Undrifted(traders)
    ensures forall id :: !FilledWith(AllFills(traders), PositionDrift, id)
  {
    hide AllFills;
    forall f | f in AllFills(traders)
      ensures f.anomaly != Some(PositionDrift)
    {
      InAllFills(traders, f);
    }
  }

  lemma SilentIsOnlyPlanted(fills: seq<Fill>, snapshots: seq<Position>, tolerance: int)
    requires forall id :: !FilledWith(fills, PositionDrift, id)
    ensures Silent(fills, snapshots, tolerance) <==> OnlyPlanted(fills, snapshots, tolerance)
  {
    hide Cumulative, DriftedFrom, Sorts, FilledWith;
    if OnlyPlanted(fills, snapshots, tolerance) {
      forall order, id | Sorts(order, fills)
        ensures !DriftedFrom(Cumulative(order), snapshots, tolerance, id)
      {
        assert !FilledWith(fills, PositionDrift, id);
      }
    }
  }

  lemma NoDriftOf(traders: seq<Trader>, k: nat, f: Fill)
    requires Shared(traders) && Undrifted(traders) && k < |traders| && f in traders[k].fills
    ensures DriftOf(traders[k], f) == 0
  {
    hide LoggedDrift, Keep, Numbered, Paired;
    assert Kept(traders[k]);
    assert DriftFits(f, LoggedDrift(traders[k].planted, f.fillId));
  }

  /** A numbered list that reaches a sequence has a fill at every lower one. */
  lemma OtherAtSequence(traders: seq<Trader>, k: nat, g: Fill, m: nat) returns (h: Fill)
    requires Shared(traders) && k < |traders| && g in AllFills(traders) && g !in traders[k].fills
    requires 1 <= m <= g.sequence
    ensures h in AllFills(traders) && h !in traders[k].fills && h.sequence == m && h.quantity >= 1_000
  {
    hide AllFills, Shared, Kept;
    InAllFills(traders, g);
    var j :| 0 <= j < |traders| && g in traders[j].fills;
    PartOf(traders, j);
    SequenceInRange(traders[j].fills, g);
    h := traders[j].fills[m - 1];
    assert h in traders[j].fills;
    InAllFills(traders, h);
    if h in traders[k].fills {
      SameTrader(traders, j, k, h, h);
      assert false;
    }
  }

  /** Another trader's fill with the same sequence makes a difference. */
  lemma {:induction false} TieCounts(traders: seq<Trader>, k: nat, f: Fill, h: Fill)
    requires Shared(traders) && k < |traders| && f in traders[k].fills
    requires h in AllFills(traders) && h !in traders[k].fills && h.sequence == f.sequence
    ensures OthersWith(AllFills(traders), traders[k].fills, f, {h})
         == OthersWith(AllFills(traders), traders[k].fills, f, {}) + Signed(h)
  {
    hide Keep, Sum, SumUpTo, AllFills, Shared, Signed;
    var all, fills := AllFills(traders), traders[k].fills;
    var without, with := Keep(all, InFront(fills, f, {})), Keep(all, InFront(fills, f, {h}));
    forall g
      ensures multiset(without + [h])[g] == multiset(with)[g]
    {
      KeepCounts(all, InFront(fills, f, {}), g);
      KeepCounts(all, InFront(fills, f, {h}), g);
      StoredAtMostOnce(traders, g);
    }
    forall g | g in with
      ensures g.sequence <= f.sequence
    {
      KeepSelects(all, InFront(fills, f, {h}), g);
    }
    SumPermutes(without + [h], with, f.sequence);
    SumAppend(without, h);
  }

  lemma {:induction false} LowerOthersAllCount(traders: seq<Trader>, k: nat, f: Fill, early: set<Fill>)
    requires k < |traders|
    requires forall g | g in AllFills(traders) && g !in traders[k].fills :: g.sequence < f.sequence
    ensures OthersWith(AllFills(traders), traders[k].fills, f, early)
         == Sum(Keep(AllFills(traders), Beyond(traders[k].fills)))
  {
    hide Keep, Sum, AllFills;
    KeepSame(AllFills(traders), InFront(traders[k].fills, f, early), Beyond(traders[k].fills));
  }

  lemma {:induction false} ToldApartIsNeverMixed(traders: seq<Trader>, k: nat, f: Fill, tolerance: int)
    requires Shared(traders) && Undrifted(traders) && AlwaysToldApart(traders, tolerance) && 0 <= tolerance < 500
    requires k < |traders| && f in traders[k].fills && GetsSnapshot(f)
    ensures forall g | g in AllFills(traders) && g !in traders[k].fills :: g.sequence < f.sequence
    ensures Abs(Sum(Keep(AllFills(traders), Beyond(traders[k].fills)))) <= tolerance
  {
    hide AllFills, Keep, Sum, Shared, Kept, OthersWith, DriftOf;
    PartOf(traders, k);
    SequenceInRange(traders[k].fills, f);
    NoDriftOf(traders, k, f);
    assert ToldApart(traders, k, f, {}, tolerance);
    forall g | g in AllFills(traders) && g !in traders[k].fills
      ensures g.sequence < f.sequence
    {
      if g.sequence >= f.sequence {
        var h := OtherAtSequence(traders, k, g, f.sequence);
        assert ToldApart(traders, k, f, {h}, tolerance);
        TieCounts(traders, k, f, h);
        assert false;
      }
    }
    LowerOthersAllCount(traders, k, f, {});
  }

  /** Without planted drifts no sort reports one if and only if the traders' fills never mix. */
  lemma {:induction false} SilentIff(traders: seq<Trader>, tolerance: int)
    requires Shared(traders) && Undrifted(traders) && 0 <= tolerance < 500
    ensures Silent(AllFills(traders), AllSnapshots(traders), tolerance) <==> NeverMixed(traders, tolerance)
  {
    hide AllFills, AllSnapshots, Silent, OnlyPlanted, Keep, Sum, Shared, OthersWith, DriftOf;
    NonePlanted(traders);
    SilentIsOnlyPlanted(AllFills(traders), AllSnapshots(traders), tolerance);
    OnlyPlantedIff(traders, tolerance);
    if AlwaysToldApart(traders, tolerance) {
      forall k, f | 0 <= k < |traders| && f in traders[k].fills && GetsSnapshot(f)
        ensures forall g | g in AllFills(traders) && g !in traders[k].fills :: g.sequence < f.sequence
        ensures Abs(Sum(Keep(AllFills(traders), Beyond(traders[k].fills)))) <= tolerance
      {
        ToldApartIsNeverMixed(traders, k, f, tolerance);
      }
    }
    if NeverMixed(traders, tolerance) {
      forall k, f, early: set<Fill> | 0 <= k < |traders| && f in traders[k].fills && GetsSnapshot(f)
        ensures ToldApart(traders, k, f, early, tolerance)
      {
        NoDriftOf(traders, k, f);
        LowerOthersAllCount(traders, k, f, early);
      }
    }
  }

  ghost predicate AtMostOneTraded(traders: seq<Trader>) {
    forall j, k | 0 <= j < k < |traders| :: traders[j].fills == [] || traders[k].fills == []
  }

  /** Everyone who traded got a snapshot, as one does unless all its fills were planted as unmatched. */
  ghost predicate TradersRecorded(traders: seq<Trader>) {
    forall k | 0 <= k < |traders| && traders[k].fills != [] :: exists f :: f in traders[k].fills && GetsSnapshot(f)
  }

  lemma NoOthers(traders: seq<Trader>, k: nat)
    requires k < |traders| && traders[k].fills != [] && AtMostOneTraded(traders)
    ensures forall g | g in AllFills(traders) :: g in traders[k].fills
  {
    hide AllFills;
    forall g | g in AllFills(traders)
      ensures g in traders[k].fills
    {
      InAllFills(traders, g);
    }
  }

  /** When everyone who traded got a snapshot, they never mix if and only if at most one of them traded. */
  lemma {:induction false} OneTraderIff(traders: seq<Trader>, tolerance: nat)
    requires Shared(traders) && TradersRecorded(traders)
    ensures NeverMixed(traders, tolerance) <==> AtMostOneTraded(traders)
  {
    hide AllFills, Keep, Sum, SumUpTo, Shared;
    if AtMostOneTraded(traders) {
      forall k, f | 0 <= k < |traders| && f in traders[k].fills
        ensures forall g | g in AllFills(traders) && g !in traders[k].fills :: g.sequence < f.sequence
        ensures Abs(Sum(Keep(AllFills(traders), Beyond(traders[k].fills)))) <= tolerance
      {
        NoOthers(traders, k);
        KeepNone(AllFills(traders), Beyond(traders[k].fills));
        SumOfNone();
      }
    }
    if NeverMixed(traders, tolerance) {
      forall j, k | 0 <= j < k < |traders|
        ensures traders[j].fills == [] || traders[k].fills == []
      {
        if traders[j].fills != [] && traders[k].fills != [] {
          var f :| f in traders[j].fills && GetsSnapshot(f);
          var g :| g in traders[k].fills && GetsSnapshot(g);
          MixedPair(traders, j, k, f, g);
          assert false;
        }
      }
    }
  }

  lemma SumOfNone()
    ensures Sum([]) == 0
  {
  }

  lemma MixedPair(traders: seq<Trader>, j: nat, k: nat, f: Fill, g: Fill)
    requires Shared(traders) && j < k < |traders| && f in traders[j].fills && g in traders[k].fills
    ensures f in AllFills(traders) && g in AllFills(traders)
    ensures f !in traders[k].fills && g !in traders[j].fills
  {
    InAllFills(traders, f);
    InAllFills(traders, g);
    if f in traders[k].fills {
      SameTrader(traders, j, k, f, f);
    }
    if g in traders[j].fills {
      SameTrader(traders, j, k, g, g);
    }
  }

  /** Without that proviso several traders can go unnoticed: when all their fills were planted as unmatched
      there is no snapshot to compare. */
  lemma {:induction false} UnmatchedOnlyIsSilent(traders: seq<Trader>, tolerance: int)
    requires Shared(traders) && forall k, f | 0 <= k < |traders| && f in traders[k].fills :: !GetsSnapshot(f)
    ensures Silent(AllFills(traders), AllSnapshots(traders), tolerance)
  {
    hide AllFills, AllSnapshots, Silent, OnlyPlanted, Shared;
    forall k, f | 0 <= k < |traders| && f in traders[k].fills
      ensures f.anomaly != Some(PositionDrift)
    {
      assert !GetsSnapshot(f);
    }
    NonePlanted(traders);
    SilentIsOnlyPlanted(AllFills(traders), AllSnapshots(traders), tolerance);
    OnlyPlantedIff(traders, tolerance);
  }
}
