/** Missing runs in a set of sequence numbers.

    `IsGap` says, with no reference to any algorithm, when two stored numbers enclose a maximal
    run of absent ones. `GapsBetween` is the scan over adjacent pairs that both the reconciler and
    the SQL test perform. The lemmas connect the two.
 */
module SequenceGaps {

  datatype Gap = Gap(prev: int, curr: int) {
    function Missing(): int {
      curr - prev - 1
    }
  }

  ghost predicate IsGap(stored: set<int>, g: Gap) {
    && g.prev in stored
    && g.curr in stored
    && g.prev + 1 < g.curr
    && forall x :: g.prev < x < g.curr ==> x !in stored
  }

  ghost predicate Sorted(xs: seq<int>) {
    forall i, j :: 0 <= i < j < |xs| ==> xs[i] <= xs[j]
  }

  ghost predicate StrictlySorted(xs: seq<int>) {
    forall i, j :: 0 <= i < j < |xs| ==> xs[i] < xs[j]
  }

  function Elements(xs: seq<int>): set<int> {
    set x | x in xs
  }

  /** The pairs of neighbours of `xs` that are more than one apart. */
  function GapsBetween(xs: seq<int>): seq<Gap> {
    if |xs| < 2 then
      []
    else
      GapsBetween(xs[..|xs| - 1]) + StepGap(xs[|xs| - 2], xs[|xs| - 1])
  }

  function StepGap(prev: int, curr: int): seq<Gap> {
    if curr - prev > 1 then [Gap(prev, curr)] else []
  }

  function TotalMissing(gaps: seq<Gap>): int {
    if gaps == [] then 0 else TotalMissing(gaps[..|gaps| - 1]) + gaps[|gaps| - 1].Missing()
  }

  /** In order and not overlapping. */
  ghost predicate Ordered(gaps: seq<Gap>) {
    forall i, j :: 0 <= i < j < |gaps| ==> gaps[i].prev < gaps[i].curr <= gaps[j].prev < gaps[j].curr
  }

  /** `x` is stored, its successor is not, and something above it is. */
  ghost predicate OpensRun(stored: set<int>, x: int) {
    x in stored && x + 1 !in stored && exists y :: y in stored && x < y
  }

  /** The absent numbers strictly between the smallest and the largest stored one. */
  ghost function Interior(stored: set<int>): set<int>
    requires stored != {}
  {
    set x | Least(stored) < x < Greatest(stored) && x !in stored
  }

  // ---------- Smallest, largest, and the ascending listing of a set ----------

  ghost predicate IsLeast(m: int, s: set<int>) {
    m in s && forall x :: x in s ==> m <= x
  }

  ghost predicate IsGreatest(m: int, s: set<int>) {
    m in s && forall x :: x in s ==> x <= m
  }

  lemma SomeElement(s: set<int>) returns (y: int)
    requires s != {}
    ensures y in s
  {
    assert (forall x :: x !in s) ==> s == {};
    y :| y in s;
  }

  lemma {:induction false} LeastExists(s: set<int>)
    requires s != {}
    ensures exists m :: IsLeast(m, s)
  {
    var y := SomeElement(s);
    if s == {y} {
      assert IsLeast(y, s);
    } else {
      LeastExists(s - {y});
      var m :| IsLeast(m, s - {y});
      assert s == (s - {y}) + {y};
      assert IsLeast(if y <= m then y else m, s);
    }
  }

  lemma {:induction false} GreatestExists(s: set<int>)
    requires s != {}
    ensures exists m :: IsGreatest(m, s)
  {
    var y := SomeElement(s);
    if s == {y} {
      assert IsGreatest(y, s);
    } else {
      GreatestExists(s - {y});
      var m :| IsGreatest(m, s - {y});
      assert s == (s - {y}) + {y};
      assert IsGreatest(if y <= m then m else y, s);
    }
  }

  ghost function Least(s: set<int>): (m: int)
    requires s != {}
    ensures IsLeast(m, s)
  {
    LeastExists(s);
    var m :| IsLeast(m, s);
    m
  }

  ghost function Greatest(s: set<int>): (m: int)
    requires s != {}
    ensures IsGreatest(m, s)
  {
    GreatestExists(s);
    var m :| IsGreatest(m, s);
    m
  }

  ghost function Ascending(s: set<int>): (xs: seq<int>)
    ensures forall x :: x in xs <==> x in s
    ensures StrictlySorted(xs)
    ensures |xs| == |s|
  {
    if s == {} then
      []
    else
      var m := Greatest(s);
      Ascending(s - {m}) + [m]
  }

  lemma AscendingLists(s: set<int>)
    ensures Elements(Ascending(s)) == s
  {
  }

  lemma SortedEnds(xs: seq<int>, s: set<int>)
    requires s != {} && StrictlySorted(xs)
    requires forall x :: x in xs <==> x in s
    ensures |xs| > 0 && xs[0] == Least(s) && xs[|xs| - 1] == Greatest(s)
  {
    assert Least(s) in xs && Greatest(s) in xs;
    assert xs[0] in s && xs[|xs| - 1] in s;
  }

  lemma AscendingEnds(s: set<int>)
    requires s != {}
    ensures |Ascending(s)| > 0
    ensures Ascending(s)[0] == Least(s)
    ensures Ascending(s)[|s| - 1] == Greatest(s)
  {
    SortedEnds(Ascending(s), s);
  }

  /** The reconciler's answer, as a function of the set of stored sequences alone. */
  ghost function GapList(stored: set<int>): seq<Gap> {
    GapsBetween(Ascending(stored))
  }

  // ---------- Sorting, with repeats kept ----------

  function Insert(x: int, xs: seq<int>): seq<int> {
    if xs == [] || x <= xs[0] then [x] + xs else [xs[0]] + Insert(x, xs[1..])
  }

  function SortInts(xs: seq<int>): seq<int> {
    if xs == [] then [] else Insert(xs[0], SortInts(xs[1..]))
  }

  lemma PrependKeepsOrder(x: int, ys: seq<int>)
    requires Sorted(ys) && forall y :: y in ys ==> x <= y
    ensures Sorted([x] + ys)
  {
    assert forall i :: 0 <= i < |ys| ==> ys[i] in ys;
  }

  lemma TailIsSorted(xs: seq<int>)
    requires Sorted(xs) && xs != []
    ensures Sorted(xs[1..]) && forall y :: y in xs ==> xs[0] <= y
  {
  }

  lemma {:induction false} InsertKeepsOrder(x: int, xs: seq<int>)
    requires Sorted(xs)
    ensures Sorted(Insert(x, xs))
    ensures forall y :: y in Insert(x, xs) <==> y == x || y in xs
    ensures multiset(Insert(x, xs)) == multiset(xs) + multiset{x}
  {
    hide Sorted;
    if xs == [] {
      PrependKeepsOrder(x, xs);
    } else {
      TailIsSorted(xs);
      if x <= xs[0] {
        PrependKeepsOrder(x, xs);
      } else {
        var rest := Insert(x, xs[1..]);
        assert xs == [xs[0]] + xs[1..];
        InsertKeepsOrder(x, xs[1..]);
        forall y | y in rest
          ensures xs[0] <= y
        {
          assert y == x || y in [xs[0]] + xs[1..];
        }
        PrependKeepsOrder(xs[0], rest);
      }
    }
  }

  lemma {:induction false} SortIntsSorts(xs: seq<int>)
    ensures Sorted(SortInts(xs))
    ensures forall y :: y in SortInts(xs) <==> y in xs
    ensures multiset(SortInts(xs)) == multiset(xs)
  {
    if xs != [] {
      SortIntsSorts(xs[1..]);
      InsertKeepsOrder(xs[0], SortInts(xs[1..]));
      assert xs == [xs[0]] + xs[1..];
    }
  }

  lemma {:induction false} SortedStaysPut(xs: seq<int>)
    requires Sorted(xs)
    ensures SortInts(xs) == xs
  {
    if xs != [] {
      assert xs == [xs[0]] + xs[1..];
      SortedStaysPut(xs[1..]);
    }
  }

  // ---------- The adjacent-pair scan finds exactly the maximal missing runs ----------

  lemma {:induction false} ScanIsExact(xs: seq<int>)
    requires Sorted(xs)
    ensures forall g :: g in GapsBetween(xs) <==> IsGap(Elements(xs), g)
  {
    if |xs| >= 2 {
      var front, last := xs[..|xs| - 1], xs[|xs| - 1];
      assert xs == front + [last];
      ScanIsExact(front);
      assert Elements(xs) == Elements(front) + {last};
      forall g
        ensures g in GapsBetween(xs) <==> IsGap(Elements(xs), g)
      {
        ExtendScan(front, last, g);
      }
    }
  }

  lemma ExtendScan(front: seq<int>, last: int, g: Gap)
    requires front != [] && Sorted(front + [last])
    ensures IsGap(Elements(front + [last]), g)
       <==> IsGap(Elements(front), g) || g in StepGap(front[|front| - 1], last)
  {
    var xs := front + [last];
    var before := front[|front| - 1];
    assert forall x :: x in front ==> x <= before by {
      forall x | x in front ensures x <= before {
        var i :| 0 <= i < |front| && front[i] == x;
        assert xs[i] <= xs[|front| - 1];
      }
    }
    assert before <= last by { assert xs[|front| - 1] <= xs[|front|]; }
    assert Elements(xs) == Elements(front) + {last};
    if IsGap(Elements(xs), g) && !IsGap(Elements(front), g) {
      assert g.curr == last && g.prev in front;
      assert before in Elements(xs);
      assert g.prev == before;
    }
  }

  lemma {:induction false} ScanIsOrdered(xs: seq<int>)
    requires Sorted(xs)
    ensures Ordered(GapsBetween(xs))
  {
    if |xs| >= 2 {
      var front := xs[..|xs| - 1];
      ScanIsOrdered(front);
      ScanIsExact(front);
      forall g | g in GapsBetween(front)
        ensures g.prev < g.curr <= xs[|xs| - 2]
      {
        assert IsGap(Elements(front), g);
      }
    }
  }

  /** Row order and multiplicity do not matter: any sorted listing of the stored numbers, with
      repeats or without, gives the same gaps. */
  lemma {:induction false} ScanDependsOnlyOnTheSet(xs: seq<int>)
    requires Sorted(xs)
    ensures GapsBetween(xs) == GapList(Elements(xs))
  {
    if |xs| == 0 {
      assert Elements(xs) == {};
    } else if |xs| == 1 {
      assert Elements(xs) == {xs[0]};
      assert |Ascending({xs[0]})| == 1;
    } else {
      var front, last := xs[..|xs| - 1], xs[|xs| - 1];
      assert xs == front + [last];
      ScanDependsOnlyOnTheSet(front);
      AppendToListing(front, last);
    }
  }

  lemma AppendToListing(front: seq<int>, last: int)
    requires front != [] && Sorted(front + [last])
    ensures GapList(Elements(front + [last]))
         == GapList(Elements(front)) + StepGap(front[|front| - 1], last)
  {
    var xs, before := front + [last], front[|front| - 1];
    assert before <= last by { assert xs[|front| - 1] <= xs[|front|]; }
    assert Elements(xs) == Elements(front) + {last};
    assert IsGreatest(before, Elements(front)) by {
      assert before in front;
      assert forall i :: 0 <= i < |front| ==> front[i] == xs[i] <= xs[|front| - 1];
    }
    if before == last {
      assert Elements(xs) == Elements(front);
    } else {
      AppendGreatest(Elements(front), before, last);
    }
  }

  lemma AppendGreatest(some: set<int>, before: int, last: int)
    requires IsGreatest(before, some) && before < last
    ensures GapList(some + {last}) == GapList(some) + StepGap(before, last)
  {
    hide Ascending, GapsBetween;
    AscendingAppend(some, last);
    AscendingEnds(some);
    ScanAppend(Ascending(some), last);
  }

  lemma AscendingAppend(some: set<int>, last: int)
    requires forall x :: x in some ==> x < last
    ensures Ascending(some + {last}) == Ascending(some) + [last]
  {
  }

  lemma ScanAppend(xs: seq<int>, last: int)
    requires xs != []
    ensures GapsBetween(xs + [last]) == GapsBetween(xs) + StepGap(xs[|xs| - 1], last)
  {
  }

  lemma GapListIsExact(stored: set<int>)
    ensures forall g :: g in GapList(stored) <==> IsGap(stored, g)
    ensures Ordered(GapList(stored))
  {
    var xs := Ascending(stored);
    AscendingLists(stored);
    ScanIsExact(xs);
    ScanIsOrdered(xs);
  }

  // ---------- Conservation: reported missing numbers are the interior holes ----------

  lemma {:induction false} GapsTelescope(xs: seq<int>)
    requires StrictlySorted(xs) && xs != []
    ensures TotalMissing(GapsBetween(xs)) == xs[|xs| - 1] - xs[0] + 1 - |xs|
  {
    if |xs| >= 2 {
      var front := xs[..|xs| - 1];
      GapsTelescope(front);
      var step := StepGap(xs[|xs| - 2], xs[|xs| - 1]);
      if step == [] {
        assert GapsBetween(front) + step == GapsBetween(front);
      } else {
        assert (GapsBetween(front) + step)[..|GapsBetween(front)|] == GapsBetween(front);
      }
      assert xs[|xs| - 2] < xs[|xs| - 1];
    }
  }

  /** The whole numbers from `lo` to `hi`. */
  ghost function Between(lo: int, hi: int): (r: set<int>)
    ensures forall x :: x in r <==> lo <= x <= hi
    ensures |r| == if lo <= hi then hi - lo + 1 else 0
    decreases hi - lo
  {
    if lo > hi then {} else Between(lo, hi - 1) + {hi}
  }

  lemma InteriorSize(stored: set<int>)
    requires stored != {}
    ensures |Interior(stored)| == Greatest(stored) - Least(stored) + 1 - |stored|
  {
    var block, holes := Between(Least(stored), Greatest(stored)), Interior(stored);
    assert block == holes + stored;
    assert holes !! stored;
  }

  /** The lengths of the reported runs add up to the number of holes strictly inside the range. */
  lemma ReportedMissingIsInterior(stored: set<int>)
    requires stored != {}
    ensures TotalMissing(GapList(stored)) == |Interior(stored)|
    ensures |Interior(stored)| == Greatest(stored) - Least(stored) + 1 - |stored|
  {
    AscendingEnds(stored);
    InteriorSize(stored);
    GapsTelescope(Ascending(stored));
  }

  /** Every interior hole lies in a missing run ... */
  lemma HoleLiesInAGap(stored: set<int>, x: int) returns (g: Gap)
    requires stored != {} && x in Interior(stored)
    ensures IsGap(stored, g) && g.prev < x < g.curr
  {
    var below := set y | y in stored && y < x;
    var above := set y | y in stored && x < y;
    assert Least(stored) in below && Greatest(stored) in above;
    g := Gap(Greatest(below), Least(above));
    forall y | g.prev < y < g.curr
      ensures y !in stored
    {
      assert y < x ==> (y in stored <==> y in below);
      assert y > x ==> (y in stored <==> y in above);
    }
  }

  /** ... and in no other. */
  lemma GapsDoNotOverlap(stored: set<int>, x: int, g: Gap, h: Gap)
    requires IsGap(stored, g) && IsGap(stored, h)
    requires g.prev < x < g.curr && h.prev < x < h.curr
    ensures g == h
  {
  }

  /** There is no missing run exactly when the stored numbers form one contiguous block. */
  lemma NoGapIffContiguous(stored: set<int>)
    requires stored != {}
    ensures (forall g :: !IsGap(stored, g))
       <==> forall x :: Least(stored) <= x <= Greatest(stored) ==> x in stored
  {
    if forall g :: !IsGap(stored, g) {
      forall x | Least(stored) <= x <= Greatest(stored)
        ensures x in stored
      {
        if x !in stored {
          var g := HoleLiesInAGap(stored, x);
        }
      }
    } else {
      var g :| IsGap(stored, g);
      assert g.prev + 1 !in stored;
    }
  }

  lemma NoGapNothingReported(stored: set<int>)
    requires forall g :: !IsGap(stored, g)
    ensures GapList(stored) == []
  {
    GapListIsExact(stored);
    EmptyIffNoMember(GapList(stored));
  }

  lemma NothingReportedIffContiguous(stored: set<int>)
    requires stored != {}
    ensures GapList(stored) == []
       <==> forall x :: Least(stored) <= x <= Greatest(stored) ==> x in stored
  {
    GapListIsExact(stored);
    NoGapIffContiguous(stored);
    EmptyIffNoMember(GapList(stored));
  }

  lemma EmptyIffNoMember(gaps: seq<Gap>)
    ensures gaps == [] <==> forall g :: g !in gaps
  {
    assert |gaps| > 0 ==> gaps[0] in gaps;
  }
}
