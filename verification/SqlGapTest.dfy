/** The warehouse's singular test on the fact table: within each symbol, date and hour, compare a
    sequence number with the previous one and report the pairs more than one apart.
 */
module SqlGapTest {
  import opened SequenceGaps

  /** A fact row's symbol and sequence, with its (date, hour) as one number that grows with time. */
  datatype FactRow = FactRow(symbol: string, sequence: int, hour: int)

  // ---------- The query ----------

  function Partition(rows: seq<FactRow>, symbol: string, hour: int): seq<int> {
    if rows == [] then
      []
    else
      var row := rows[0];
      (if row.symbol == symbol && row.hour == hour then [row.sequence] else [])
      + Partition(rows[1..], symbol, hour)
  }

  /** The rows the query returns for one partition: each pair is a row's `lag` and its sequence. */
  function ReportedGaps(rows: seq<FactRow>, symbol: string, hour: int): seq<Gap> {
    GapsBetween(SortInts(Partition(rows, symbol, hour)))
  }

  // ---------- What it is compared with ----------

  ghost function Sequences(rows: seq<FactRow>, symbol: string): set<int> {
    set row | row in rows && row.symbol == symbol :: row.sequence
  }

  ghost function SequencesIn(rows: seq<FactRow>, symbol: string, hour: int): set<int> {
    set row | row in rows && row.symbol == symbol && row.hour == hour :: row.sequence
  }

  /** Later sequences never fall in earlier hours. */
  ghost predicate HoursFollowSequence(rows: seq<FactRow>, symbol: string) {
    forall a, b | a in rows && b in rows && a.symbol == symbol == b.symbol ::
      a.sequence <= b.sequence ==> a.hour <= b.hour
  }

  ghost predicate ReportedInSomeHour(rows: seq<FactRow>, symbol: string, g: Gap) {
    exists hour :: g in ReportedGaps(rows, symbol, hour)
  }

  /** The two ends of the gap were stored in different hours. */
  ghost predicate Straddles(rows: seq<FactRow>, symbol: string, g: Gap) {
    exists a, b ::
      && a in rows && b in rows && a.symbol == symbol == b.symbol
      && a.sequence == g.prev && b.sequence == g.curr && a.hour != b.hour
  }

  // ---------- The query per hour ----------

  lemma {:induction false} PartitionLists(rows: seq<FactRow>, symbol: string, hour: int)
    ensures forall x :: x in Partition(rows, symbol, hour) <==> x in SequencesIn(rows, symbol, hour)
  {
    if rows != [] {
      PartitionLists(rows[1..], symbol, hour);
      assert rows == [rows[0]] + rows[1..];
    }
  }

  /** Repeated rows change nothing: the query sees only the set of sequences of the hour. */
  lemma QueryIsExactPerHour(rows: seq<FactRow>, symbol: string, hour: int)
    ensures forall g :: g in ReportedGaps(rows, symbol, hour)
                   <==> IsGap(SequencesIn(rows, symbol, hour), g)
  {
    var ordered := SortInts(Partition(rows, symbol, hour));
    PartitionLists(rows, symbol, hour);
    SortIntsSorts(Partition(rows, symbol, hour));
    assert forall x :: x in Elements(ordered) <==> x in SequencesIn(rows, symbol, hour);
    assert Elements(ordered) == SequencesIn(rows, symbol, hour);
    ScanIsExact(ordered);
  }

  // ---------- Agreement with the reconciler ----------

  /** Within one hour the two checks agree. */
  lemma AgreeWithinHour(rows: seq<FactRow>, symbol: string, g: Gap, hour: int)
    requires HoursFollowSequence(rows, symbol)
    requires g.prev in SequencesIn(rows, symbol, hour) && g.curr in SequencesIn(rows, symbol, hour)
    ensures IsGap(Sequences(rows, symbol), g) <==> IsGap(SequencesIn(rows, symbol, hour), g)
  {
    var a :| a in rows && a.symbol == symbol && a.hour == hour && a.sequence == g.prev;
    var b :| b in rows && b.symbol == symbol && b.hour == hour && b.sequence == g.curr;
    forall x | g.prev < x < g.curr
      ensures x in Sequences(rows, symbol) <==> x in SequencesIn(rows, symbol, hour)
    {
      if x in Sequences(rows, symbol) {
        var c :| c in rows && c.symbol == symbol && c.sequence == x;
        assert a.hour <= c.hour <= b.hour;
      }
    }
  }

  /** The reconciler's gaps are the query's rows together with the gaps that straddle an hour
      boundary, and no gap is both. */
  lemma ReconcilerIsQueryPlusStraddling(rows: seq<FactRow>, symbol: string, g: Gap)
    requires HoursFollowSequence(rows, symbol)
    ensures g in GapList(Sequences(rows, symbol))
       <==> ReportedInSomeHour(rows, symbol, g)
            || (IsGap(Sequences(rows, symbol), g) && Straddles(rows, symbol, g))
    ensures !(ReportedInSomeHour(rows, symbol, g) && Straddles(rows, symbol, g))
  {
    var all := Sequences(rows, symbol);
    GapListIsExact(all);
    if IsGap(all, g) && !Straddles(rows, symbol, g) {
      var a :| a in rows && a.symbol == symbol && a.sequence == g.prev;
      var b :| b in rows && b.symbol == symbol && b.sequence == g.curr;
      assert a.hour == b.hour;
      AgreeWithinHour(rows, symbol, g, a.hour);
      QueryIsExactPerHour(rows, symbol, a.hour);
    }
    if ReportedInSomeHour(rows, symbol, g) {
      var hour :| g in ReportedGaps(rows, symbol, hour);
      QueryIsExactPerHour(rows, symbol, hour);
      AgreeWithinHour(rows, symbol, g, hour);
      ReportedDoesNotStraddle(rows, symbol, g, hour);
    }
  }

  lemma ReportedDoesNotStraddle(rows: seq<FactRow>, symbol: string, g: Gap, hour: int)
    requires HoursFollowSequence(rows, symbol)
    requires g.prev in SequencesIn(rows, symbol, hour) && g.curr in SequencesIn(rows, symbol, hour)
    ensures !Straddles(rows, symbol, g)
  {
  }

  // ---------- With no order among the hours ----------

  ghost predicate ReportsOnlyGaps(rows: seq<FactRow>, symbol: string) {
    forall g | ReportedInSomeHour(rows, symbol, g) :: IsGap(Sequences(rows, symbol), g)
  }

  /** A sequence stored only in other hours lies strictly between two sequences of one hour. */
  ghost predicate Intrudes(rows: seq<FactRow>, symbol: string, hour: int, x: int) {
    && x in Sequences(rows, symbol) && x !in SequencesIn(rows, symbol, hour)
    && exists a, b :: a in SequencesIn(rows, symbol, hour) && b in SequencesIn(rows, symbol, hour) && a < x < b
  }

  /** No hour holds both ends of the gap. */
  ghost predicate Apart(rows: seq<FactRow>, symbol: string, g: Gap) {
    forall hour :: !(g.prev in SequencesIn(rows, symbol, hour) && g.curr in SequencesIn(rows, symbol, hour))
  }

  lemma HourIsPart(rows: seq<FactRow>, symbol: string, hour: int)
    ensures SequencesIn(rows, symbol, hour) <= Sequences(rows, symbol)
  {
  }

  /** An intruder sits inside a gap that the query reports for the hour. */
  lemma IntruderIsReportedOver(rows: seq<FactRow>, symbol: string, hour: int, x: int) returns (g: Gap)
    requires Intrudes(rows, symbol, hour, x)
    ensures ReportedInSomeHour(rows, symbol, g) && g.prev < x < g.curr
  {
    hide ReportedGaps;
    var hourly := SequencesIn(rows, symbol, hour);
    var a, b :| a in hourly && b in hourly && a < x < b;
    assert hourly != {};
    assert Least(hourly) <= a && b <= Greatest(hourly);
    g := HoleLiesInAGap(hourly, x);
    QueryIsExactPerHour(rows, symbol, hour);
  }

  /** With no assumption on the timestamps: every row of the query is a gap of the reconciler if and only
      if no sequence stored only in other hours lies strictly between two sequences of one hour. */
  lemma ReportsOnlyGapsIff(rows: seq<FactRow>, symbol: string)
    ensures ReportsOnlyGaps(rows, symbol) <==> forall hour, x :: !Intrudes(rows, symbol, hour, x)
  {
    hide ReportedGaps, Sequences, SequencesIn;
    if forall hour, x :: !Intrudes(rows, symbol, hour, x) {
      forall g | ReportedInSomeHour(rows, symbol, g)
        ensures IsGap(Sequences(rows, symbol), g)
      {
        var hour :| g in ReportedGaps(rows, symbol, hour);
        QueryIsExactPerHour(rows, symbol, hour);
        HourIsPart(rows, symbol, hour);
        forall x | g.prev < x < g.curr
          ensures x !in Sequences(rows, symbol)
        {
          assert !Intrudes(rows, symbol, hour, x);
        }
      }
    }
    if ReportsOnlyGaps(rows, symbol) {
      forall hour, x
        ensures !Intrudes(rows, symbol, hour, x)
      {
        if Intrudes(rows, symbol, hour, x) {
          var g := IntruderIsReportedOver(rows, symbol, hour, x);
          assert false;
        }
      }
    }
  }

  /** And the two checks agree completely if and only if, besides, no gap has its ends in different
      hours only. */
  lemma ChecksAgreeIff(rows: seq<FactRow>, symbol: string)
    ensures (forall g :: g in GapList(Sequences(rows, symbol)) <==> ReportedInSomeHour(rows, symbol, g))
       <==> (forall hour, x :: !Intrudes(rows, symbol, hour, x))
            && forall g | IsGap(Sequences(rows, symbol), g) :: !Apart(rows, symbol, g)
  {
    hide ReportedGaps, Sequences, SequencesIn, GapList, Intrudes;
    GapListIsExact(Sequences(rows, symbol));
    ReportsOnlyGapsIff(rows, symbol);
    forall g | IsGap(Sequences(rows, symbol), g)
      ensures ReportedInSomeHour(rows, symbol, g) <==> !Apart(rows, symbol, g)
    {
      RealGapReportedIff(rows, symbol, g);
    }
  }

  lemma RealGapReportedIff(rows: seq<FactRow>, symbol: string, g: Gap)
    requires IsGap(Sequences(rows, symbol), g)
    ensures ReportedInSomeHour(rows, symbol, g) <==> !Apart(rows, symbol, g)
  {
    hide ReportedGaps, Sequences, SequencesIn;
    forall hour
      ensures g in ReportedGaps(rows, symbol, hour)
         <==> g.prev in SequencesIn(rows, symbol, hour) && g.curr in SequencesIn(rows, symbol, hour)
    {
      QueryIsExactPerHour(rows, symbol, hour);
      HourIsPart(rows, symbol, hour);
    }
  }

  /** A clean query does not mean a clean feed: when the only hole is at an hour boundary, the
      reconciler reports it and the query reports nothing, in any hour. */
  lemma CleanQueryMissesBoundaryGap(rows: seq<FactRow>, symbol: string, hour: int)
    requires rows == [FactRow(symbol, 1, hour), FactRow(symbol, 5, hour + 1)]
    ensures Gap(1, 5) in GapList(Sequences(rows, symbol))
    ensures forall g :: !ReportedInSomeHour(rows, symbol, g)
  {
    hide GapList, ReportedInSomeHour, IsGap;
    var stored := Sequences(rows, symbol);
    assert rows[0] in rows && rows[1] in rows;
    assert stored == {1, 5};
    GapListIsExact(stored);
    OnlyHoleIn(stored, 1, 5);
    assert Straddles(rows, symbol, Gap(1, 5));
    forall g
      ensures !ReportedInSomeHour(rows, symbol, g)
    {
      hide Straddles, Sequences;
      ReconcilerIsQueryPlusStraddling(rows, symbol, g);
    }
  }

  lemma OnlyHoleIn(stored: set<int>, lo: int, hi: int)
    requires stored == {lo, hi} && lo + 1 < hi
    ensures forall g :: IsGap(stored, g) <==> g == Gap(lo, hi)
  {
  }

  /** And one late timestamp makes the query report a gap that does not exist. */
  lemma LateTimestampBreaksAgreement(rows: seq<FactRow>, symbol: string, hour: int)
    requires rows == [FactRow(symbol, 1, hour), FactRow(symbol, 2, hour + 1), FactRow(symbol, 3, hour)]
    ensures Gap(1, 3) in ReportedGaps(rows, symbol, hour)
    ensures GapList(Sequences(rows, symbol)) == []
  {
    assert rows[0] in rows && rows[1] in rows && rows[2] in rows;
    var hourly, stored := SequencesIn(rows, symbol, hour), Sequences(rows, symbol);
    assert hourly == {1, 3} && stored == {1, 2, 3};
    OnlyHoleIn(hourly, 1, 3);
    QueryIsExactPerHour(rows, symbol, hour);
    NoHoleIn(stored);
    NoGapNothingReported(stored);
  }

  lemma NoHoleIn(stored: set<int>)
    requires stored == {1, 2, 3}
    ensures forall g :: !IsGap(stored, g)
  {
  }
}
