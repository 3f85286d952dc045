/** The reconciler: joins the simulated book against observed ticks and reports breaks.

    The methods follow the source's loops. What they report is stated through the predicates
    `Unmatched`, `Drifted` and `SequenceGaps.IsGap`, none of which mentions an order of rows.
 */
module Reconciliation {
  import opened Models
  import opened Frames
  import opened Ledger
  import opened SequenceGaps
  import opened Stores

  // ---------- What a break means ----------

  ghost predicate TickWithin(ticks: seq<Tick>, time: int, window: int) {
    exists t :: t in ticks && Abs(t.time - time) <= window
  }

  /** Some row of fill `id` has no tick within the window. */
  ghost predicate Unmatched(fills: seq<Fill>, ticks: seq<Tick>, window: int, id: FillId) {
    exists f :: f in fills && f.fillId == id && !TickWithin(ticks, f.time, window)
  }

  /** A tick at the edge of the window still matches; a fill is unmatched when every tick is farther. */
  lemma UnmatchedMeansFar(fills: seq<Fill>, ticks: seq<Tick>, window: int, id: FillId)
    ensures Unmatched(fills, ticks, window, id)
       <==> exists f :: f in fills && f.fillId == id && forall t | t in ticks :: Abs(t.time - f.time) > window
  {
    if f :| f in fills && f.fillId == id && !TickWithin(ticks, f.time, window) {
      forall t | t in ticks
        ensures Abs(t.time - f.time) > window
      {
      }
    }
  }

  /** Some snapshot taken after fill `id` differs, by more than the tolerance, from the signed sum
      of the fills executed up to it. */
  ghost predicate Drifted(fills: seq<Fill>, positions: seq<Position>, tolerance: int, id: FillId) {
    exists f, p ::
      && f in fills && p in positions && p.lastFillId == Some(f.fillId) && f.fillId == id
      && Abs(p.quantity - SumUpTo(fills, f.sequence)) > tolerance
  }

  ghost function SequencesOf(ticks: seq<Tick>): set<int> {
    set t | t in ticks :: t.sequence
  }

  // ---------- What one reconciliation reads ----------

  function FillsAt(fills: seq<Fill>, symbol: Symbol, start: int, end: int, window: int): seq<Fill> {
    FillsBetween(fills, symbol, start - window, end + window)
  }

  function TicksAt(ticks: seq<Tick>, symbol: Symbol, start: int, end: int, window: int): seq<Tick> {
    TicksBetween(ticks, symbol, start - window, end + window)
  }

  ghost predicate UnmatchedAt(
    fills: seq<Fill>, ticks: seq<Tick>, symbol: Symbol, start: int, end: int, window: int, id: FillId)
  {
    Unmatched(FillsAt(fills, symbol, start, end, window), TicksAt(ticks, symbol, start, end, window), window, id)
  }

  ghost predicate DriftedAt(
    fills: seq<Fill>, positions: seq<Position>, symbol: Symbol, start: int, end: int, window: int,
    tolerance: int, id: FillId)
  {
    Drifted(FillsAt(fills, symbol, start, end, window), PositionsBetween(positions, symbol, start, end), tolerance, id)
  }

  ghost function GapsAt(ticks: seq<Tick>, symbol: Symbol, start: int, end: int, window: int): seq<Gap> {
    GapList(SequencesOf(TicksAt(ticks, symbol, start, end, window)))
  }

  ghost function AllGaps(ticks: seq<Tick>, symbols: seq<Symbol>, start: int, end: int, window: int): seq<Gap> {
    if symbols == [] then
      []
    else
      AllGaps(ticks, symbols[..|symbols| - 1], start, end, window)
      + GapsAt(ticks, symbols[|symbols| - 1], start, end, window)
  }

  // ---------- Reading breaks back ----------

  ghost predicate Flags(breaks: seq<Break>, kind: BreakType, id: FillId) {
    exists b :: b in breaks && b.breakType == kind && b.relatedFillId == Some(id)
  }

  function GapsIn(breaks: seq<Break>): seq<Gap> {
    if breaks == [] then
      []
    else
      var last := breaks[|breaks| - 1];
      GapsIn(breaks[..|breaks| - 1])
      + if last.detail.MissingBetween? then [Gap(last.detail.prev, last.detail.curr)] else []
  }

  // ---------- The breaks as functions of the rows ----------

  function UnmatchedBreak(symbol: Symbol, fill: Fill, window: int): Break {
    Break(UnmatchedFill, symbol, fill.time, NoTickWithin(window), Some(fill.fillId), None)
  }

  ghost function UnmatchedBreaks(symbol: Symbol, fills: seq<Fill>, ticks: seq<Tick>, window: int): seq<Break> {
    if fills == [] then
      []
    else
      var last := fills[|fills| - 1];
      UnmatchedBreaks(symbol, fills[..|fills| - 1], ticks, window)
      + if TickWithin(ticks, last.time, window) then [] else [UnmatchedBreak(symbol, last, window)]
  }

  function DriftBreak(symbol: Symbol, position: Position, expected: int): Break {
    Break(PositionDrift, symbol, position.time, RecordedVersusExpected(position.quantity, expected),
          position.lastFillId, None)
  }

  function DriftBreaks(
      symbol: Symbol, expected: map<FillId, int>, positions: seq<Position>, tolerance: int): seq<Break>
  {
    if positions == [] then
      []
    else
      var last := positions[|positions| - 1];
      DriftBreaks(symbol, expected, positions[..|positions| - 1], tolerance)
      + if && last.lastFillId.Some? && last.lastFillId.value in expected
           && Abs(last.quantity - expected[last.lastFillId.value]) > tolerance
        then [DriftBreak(symbol, last, expected[last.lastFillId.value])]
        else []
  }

  function GapBreak(symbol: Symbol, g: Gap, detectedAt: int): Break {
    Break(SequenceGap, symbol, detectedAt, MissingBetween(g.prev, g.curr), None, Some(g.prev + 1))
  }

  /** One break per gap, in order: it prints the gap and names its first missing number ... */
  ghost predicate ReportsGaps(breaks: seq<Break>, gaps: seq<Gap>, symbol: Symbol) {
    && |breaks| == |gaps|
    && forall i | 0 <= i < |breaks| ::
         && breaks[i].breakType == SequenceGap && breaks[i].symbol == symbol
         && breaks[i].detail == MissingBetween(gaps[i].prev, gaps[i].curr)
         && breaks[i].relatedFillId == None && breaks[i].relatedSequence == Some(gaps[i].prev + 1)
  }

  /** ... dated by a stored tick that ends the gap. */
  ghost predicate DatedByTicks(breaks: seq<Break>, ticks: seq<Tick>) {
    forall b | b in breaks :: b.detail.MissingBetween? && TickAt(ticks, b.detail.curr, b.detectedAt)
  }

  ghost predicate TickAt(ticks: seq<Tick>, sequence: int, time: int) {
    exists t :: t in ticks && t.sequence == sequence && t.time == time
  }

  /** Exactly the sequence-gap breaks print a gap. */
  ghost predicate GapsAreMarked(breaks: seq<Break>) {
    forall b | b in breaks :: b.breakType == SequenceGap <==> b.detail.MissingBetween?
  }

  ghost predicate OnlyFlags(breaks: seq<Break>, kind: BreakType) {
    forall b :: b in breaks ==> b.breakType == kind && (b.detail.MissingBetween? <==> kind == SequenceGap)
  }

  // ---------- What each break says ----------

  ghost function FarFrom(ticks: seq<Tick>, window: int): Fill -> bool {
    (f: Fill) => !TickWithin(ticks, f.time, window)
  }

  /** One break per fill without a tick in the window, in the order of the fills: dated by the fill. */
  ghost predicate ReportsFar(breaks: seq<Break>, fills: seq<Fill>, ticks: seq<Tick>, window: int, symbol: Symbol) {
    var far := Keep(fills, FarFrom(ticks, window));
    && |breaks| == |far|
    && forall i | 0 <= i < |breaks| ::
         && breaks[i].breakType == UnmatchedFill && breaks[i].symbol == symbol
         && breaks[i].detectedAt == far[i].time && breaks[i].detail == NoTickWithin(window)
         && breaks[i].relatedFillId == Some(far[i].fillId) && breaks[i].relatedSequence == None
  }

  lemma {:induction false} UnmatchedBreaksReport(symbol: Symbol, fills: seq<Fill>, ticks: seq<Tick>, window: int)
    ensures ReportsFar(UnmatchedBreaks(symbol, fills, ticks, window), fills, ticks, window, symbol)
  {
    hide TickWithin;
    if fills != [] {
      UnmatchedBreaksReport(symbol, fills[..|fills| - 1], ticks, window);
    }
  }

  function OffFrom(expected: map<FillId, int>, tolerance: int): Position -> bool {
    (p: Position) =>
      && p.lastFillId.Some? && p.lastFillId.value in expected
      && Abs(p.quantity - expected[p.lastFillId.value]) > tolerance
  }

  /** One break per snapshot that is off, in the order of the snapshots: dated by the snapshot, and printing
      both amounts. */
  ghost predicate ReportsOff(
      breaks: seq<Break>, expected: map<FillId, int>, positions: seq<Position>, tolerance: int, symbol: Symbol)
  {
    var off := Keep(positions, OffFrom(expected, tolerance));
    && |breaks| == |off|
    && forall i | 0 <= i < |breaks| ::
         && breaks[i].breakType == PositionDrift && breaks[i].symbol == symbol
         && breaks[i].detectedAt == off[i].time
         && off[i].lastFillId.Some? && off[i].lastFillId.value in expected
         && breaks[i].detail == RecordedVersusExpected(off[i].quantity, expected[off[i].lastFillId.value])
         && breaks[i].relatedFillId == off[i].lastFillId && breaks[i].relatedSequence == None
  }

  lemma {:induction false} DriftBreaksReport(
      symbol: Symbol, expected: map<FillId, int>, positions: seq<Position>, tolerance: int)
    ensures ReportsOff(DriftBreaks(symbol, expected, positions, tolerance), expected, positions, tolerance, symbol)
  {
    if positions != [] {
      DriftBreaksReport(symbol, expected, positions[..|positions| - 1], tolerance);
    }
  }

  /** The absent numbers right above a stored one that is not the largest. */
  ghost function FirstMissing(stored: set<int>): set<int> {
    set x | x in stored && OpensRun(stored, x) :: x + 1
  }

  ghost function NamedSequences(breaks: seq<Break>, symbol: Symbol): set<int> {
    set b |
      b in breaks && b.breakType == SequenceGap && b.symbol == symbol && b.relatedSequence.Some? ::
      b.relatedSequence.value
  }

  lemma GapBreaksNameFirst(breaks: seq<Break>, stored: set<int>, symbol: Symbol)
    requires ReportsGaps(breaks, GapList(stored), symbol)
    ensures NamedSequences(breaks, symbol) == FirstMissing(stored)
  {
    hide GapList;
    var gaps := GapList(stored);
    GapListIsExact(stored);
    forall x | x in FirstMissing(stored)
      ensures x in NamedSequences(breaks, symbol)
    {
      assert OpensRun(stored, x - 1);
      assert x in Interior(stored);
      var g := HoleLiesInAGap(stored, x);
      assert g.prev == x - 1;
      var i :| 0 <= i < |gaps| && gaps[i] == g;
      assert breaks[i] in breaks;
    }
    forall x | x in NamedSequences(breaks, symbol)
      ensures x in FirstMissing(stored)
    {
      var b :| b in breaks && b.breakType == SequenceGap && b.relatedSequence == Some(x);
      var i :| 0 <= i < |breaks| && breaks[i] == b;
      assert IsGap(stored, gaps[i]);
    }
  }

  /** The rows a break was found in, and everything it says about them. */
  ghost predicate Founded(
      b: Break, symbol: Symbol, fills: seq<Fill>, positions: seq<Position>, ticks: seq<Tick>, window: int,
      tolerance: int)
  {
    && b.symbol == symbol
    && match b.breakType
       case UnmatchedFill => FoundedOnFill(b, fills, ticks, window)
       case PositionDrift => FoundedOnSnapshot(b, fills, positions, tolerance)
       case SequenceGap => FoundedOnGap(b, ticks)
  }

  ghost predicate FoundedOnFill(b: Break, fills: seq<Fill>, ticks: seq<Tick>, window: int) {
    exists f ::
      && f in fills && !TickWithin(ticks, f.time, window)
      && b.detectedAt == f.time && b.detail == NoTickWithin(window)
      && b.relatedFillId == Some(f.fillId) && b.relatedSequence == None
  }

  ghost predicate FoundedOnSnapshot(b: Break, fills: seq<Fill>, positions: seq<Position>, tolerance: int) {
    exists p ::
      && p in positions && b.detectedAt == p.time
      && b.detail.RecordedVersusExpected? && b.detail.recorded == p.quantity
      && Abs(p.quantity - b.detail.expected) > tolerance
      && (WellKeyed(fills) ==> ExpectedAfter(fills, p.lastFillId, b.detail.expected))
      && p.lastFillId.Some? && b.relatedFillId == p.lastFillId && b.relatedSequence == None
  }

  ghost predicate ExpectedAfter(fills: seq<Fill>, id: Option<FillId>, expected: int) {
    exists f :: f in fills && id == Some(f.fillId) && expected == SumUpTo(fills, f.sequence)
  }

  ghost predicate FoundedOnGap(b: Break, ticks: seq<Tick>) {
    exists g ::
      && IsGap(SequencesOf(ticks), g) && TickAt(ticks, g.curr, b.detectedAt)
      && b.detail == MissingBetween(g.prev, g.curr)
      && b.relatedFillId == None && b.relatedSequence == Some(g.prev + 1)
  }

  lemma SameTicks(ticks: seq<Tick>, stored: seq<Tick>)
    requires Permutation(ticks, stored)
    ensures SequencesOf(ticks) == SequencesOf(stored)
    ensures forall time, window :: TickWithin(ticks, time, window) <==> TickWithin(stored, time, window)
    ensures forall sequence, time :: TickAt(ticks, sequence, time) <==> TickAt(stored, sequence, time)
  {
    SameMembers(ticks, stored);
    forall time, window
      ensures TickWithin(ticks, time, window) <==> TickWithin(stored, time, window)
    {
    }
    forall sequence, time
      ensures TickAt(ticks, sequence, time) <==> TickAt(stored, sequence, time)
    {
    }
  }

  lemma FarIsFounded(
      symbol: Symbol, fills: seq<Fill>, ticks: seq<Tick>, breaks: seq<Break>, window: int,
      storedFills: seq<Fill>, storedTicks: seq<Tick>)
    requires ReportsFar(breaks, fills, ticks, window, symbol)
    requires Permutation(fills, storedFills) && Permutation(ticks, storedTicks)
    ensures forall b | b in breaks :: b.symbol == symbol && FoundedOnFill(b, storedFills, storedTicks, window)
    ensures |breaks| == |Keep(storedFills, FarFrom(storedTicks, window))|
  {
    hide TickWithin, TickAt, Keep;
    var far := Keep(fills, FarFrom(ticks, window));
    SameTicks(ticks, storedTicks);
    SameMembers(fills, storedFills);
    KeepPermutes(fills, storedFills, FarFrom(ticks, window));
    SameMembers(far, Keep(storedFills, FarFrom(ticks, window)));
    KeepSame(storedFills, FarFrom(ticks, window), FarFrom(storedTicks, window));
    forall b | b in breaks
      ensures b.symbol == symbol && FoundedOnFill(b, storedFills, storedTicks, window)
    {
      var i :| 0 <= i < |breaks| && breaks[i] == b;
      KeepSelects(fills, FarFrom(ticks, window), far[i]);
    }
  }

  ghost function OffBySums(fills: seq<Fill>, tolerance: int): Position -> bool {
    (p: Position) =>
      exists f ::
        && f in fills && p.lastFillId == Some(f.fillId)
        && Abs(p.quantity - SumUpTo(fills, f.sequence)) > tolerance
  }

  /** With well-keyed rows the running sums are the sums of the executions. */
  lemma SumsAreExpected(order: seq<Fill>, fills: seq<Fill>)
    requires WellKeyed(fills) && Permutation(order, fills) && InOrder(order, BySequence)
    ensures forall f | f in fills ::
              f.fillId in Cumulative(order) && Cumulative(order)[f.fillId] == SumUpTo(fills, f.sequence)
    ensures forall id | id in Cumulative(order) :: exists f :: f in fills && f.fillId == id
  {
    SameMembers(order, fills);
    WellKeyedPermutes(fills, order);
    forall f | f in fills
      ensures f.fillId in Cumulative(order) && Cumulative(order)[f.fillId] == SumUpTo(fills, f.sequence)
    {
      CumulativeIsSumUpTo(order, f);
      SumUpToPermutes(order, fills, f.sequence);
    }
    forall id | id in Cumulative(order)
      ensures exists f :: f in fills && f.fillId == id
    {
      CumulativeKeys(order, id);
    }
  }

  lemma OffIsFounded(
      symbol: Symbol, fills: seq<Fill>, order: seq<Fill>, positions: seq<Position>, breaks: seq<Break>,
      tolerance: int, storedFills: seq<Fill>, storedPositions: seq<Position>)
    requires ReportsOff(breaks, Cumulative(order), positions, tolerance, symbol)
    requires Permutation(order, fills) && InOrder(order, BySequence)
    requires Permutation(fills, storedFills) && Permutation(positions, storedPositions)
    ensures forall b | b in breaks ::
              b.symbol == symbol && FoundedOnSnapshot(b, storedFills, storedPositions, tolerance)
    ensures WellKeyed(storedFills) ==> |breaks| == |Keep(storedPositions, OffBySums(storedFills, tolerance))|
  {
    hide Keep, Cumulative, WellKeyed, SumUpTo;
    var off := Keep(positions, OffFrom(Cumulative(order), tolerance));
    SameMembers(positions, storedPositions);
    KeepPermutes(positions, storedPositions, OffFrom(Cumulative(order), tolerance));
    SameMembers(off, Keep(storedPositions, OffFrom(Cumulative(order), tolerance)));
    if WellKeyed(storedFills) {
      SumsAreExpected(order, storedFills);
      KeepSame(storedPositions, OffFrom(Cumulative(order), tolerance), OffBySums(storedFills, tolerance));
    }
    forall b | b in breaks
      ensures b.symbol == symbol && FoundedOnSnapshot(b, storedFills, storedPositions, tolerance)
    {
      var i :| 0 <= i < |breaks| && breaks[i] == b;
      KeepSelects(positions, OffFrom(Cumulative(order), tolerance), off[i]);
    }
  }

  lemma GapIsFounded(symbol: Symbol, ticks: seq<Tick>, breaks: seq<Break>, storedTicks: seq<Tick>)
    requires ReportsGaps(breaks, GapList(SequencesOf(ticks)), symbol) && DatedByTicks(breaks, ticks)
    requires Permutation(ticks, storedTicks)
    ensures forall b | b in breaks :: b.symbol == symbol && FoundedOnGap(b, storedTicks)
    ensures |breaks| == |GapList(SequencesOf(storedTicks))|
  {
    hide GapList, SequencesOf, TickAt, TickWithin;
    SameTicks(ticks, storedTicks);
    GapListIsExact(SequencesOf(ticks));
    forall b | b in breaks
      ensures b.symbol == symbol && FoundedOnGap(b, storedTicks)
    {
      var i :| 0 <= i < |breaks| && breaks[i] == b;
      assert GapList(SequencesOf(ticks))[i] in GapList(SequencesOf(ticks));
    }
  }

  /** `Founded` on what one reconciliation reads. */
  ghost predicate FoundedAt(
      b: Break, symbol: Symbol, fills: seq<Fill>, positions: seq<Position>, ticks: seq<Tick>, start: int, end: int,
      window: int, tolerance: int)
  {
    Founded(b, symbol, FillsAt(fills, symbol, start, end, window), PositionsBetween(positions, symbol, start, end),
            TicksAt(ticks, symbol, start, end, window), window, tolerance)
  }

  ghost function CountAt(
      fills: seq<Fill>, positions: seq<Position>, ticks: seq<Tick>, symbol: Symbol, start: int, end: int,
      window: int, tolerance: int): nat
  {
    BreakCount(FillsAt(fills, symbol, start, end, window), PositionsBetween(positions, symbol, start, end),
               TicksAt(ticks, symbol, start, end, window), window, tolerance)
  }

  ghost function CountAll(
      fills: seq<Fill>, positions: seq<Position>, ticks: seq<Tick>, symbols: seq<Symbol>, start: int, end: int,
      window: int, tolerance: int): nat
  {
    if symbols == [] then
      0
    else
      CountAll(fills, positions, ticks, symbols[..|symbols| - 1], start, end, window, tolerance)
      + CountAt(fills, positions, ticks, symbols[|symbols| - 1], start, end, window, tolerance)
  }

  /** The three lists together: every break is founded, they are as many as the rows call for, and the
      sequences they name are the first missing ones. */
  lemma JoinFounded(
      unmatched: seq<Break>, drifted: seq<Break>, gaps: seq<Break>, symbol: Symbol, fills: seq<Fill>,
      positions: seq<Position>, ticks: seq<Tick>, window: int, tolerance: int)
    requires OnlyFlags(unmatched, UnmatchedFill) && OnlyFlags(drifted, PositionDrift) && OnlyFlags(gaps, SequenceGap)
    requires forall b | b in unmatched :: b.symbol == symbol && FoundedOnFill(b, fills, ticks, window)
    requires forall b | b in drifted :: b.symbol == symbol && FoundedOnSnapshot(b, fills, positions, tolerance)
    requires forall b | b in gaps :: b.symbol == symbol && FoundedOnGap(b, ticks)
    requires |unmatched| == |Keep(fills, FarFrom(ticks, window))|
    requires WellKeyed(fills) ==> |drifted| == |Keep(positions, OffBySums(fills, tolerance))|
    requires |gaps| == |GapList(SequencesOf(ticks))|
    ensures var breaks := unmatched + drifted + gaps;
            && (forall b | b in breaks :: Founded(b, symbol, fills, positions, ticks, window, tolerance))
            && (WellKeyed(fills) ==> |breaks| == BreakCount(fills, positions, ticks, window, tolerance))
            && NamedSequences(breaks, symbol) == NamedSequences(gaps, symbol)
  {
    hide FoundedOnFill, FoundedOnSnapshot, FoundedOnGap, WellKeyed, GapList, SequencesOf, Keep;
    var breaks := unmatched + drifted + gaps;
    assert forall b :: b in breaks && b.breakType == SequenceGap <==> b in gaps;
  }

  /** How many breaks the rows call for. */
  ghost function BreakCount(
      fills: seq<Fill>, positions: seq<Position>, ticks: seq<Tick>, window: int, tolerance: int): nat
  {
    |Keep(fills, FarFrom(ticks, window))| + |Keep(positions, OffBySums(fills, tolerance))|
    + |GapList(SequencesOf(ticks))|
  }

  // ---------- What the break lists flag ----------

  lemma FlagsConcat(a: seq<Break>, b: seq<Break>, kind: BreakType, id: FillId)
    ensures Flags(a + b, kind, id) <==> Flags(a, kind, id) || Flags(b, kind, id)
  {
  }

  lemma {:induction false} UnmatchedBreaksFlag(
      symbol: Symbol, fills: seq<Fill>, ticks: seq<Tick>, window: int, kind: BreakType, id: FillId)
    ensures Flags(UnmatchedBreaks(symbol, fills, ticks, window), kind, id)
       <==> kind == UnmatchedFill && Unmatched(fills, ticks, window, id)
  {
    if fills != [] {
      var front, last := fills[..|fills| - 1], fills[|fills| - 1];
      assert fills == front + [last];
      UnmatchedBreaksFlag(symbol, front, ticks, window, kind, id);
      var step := if TickWithin(ticks, last.time, window) then [] else [UnmatchedBreak(symbol, last, window)];
      FlagsConcat(UnmatchedBreaks(symbol, front, ticks, window), step, kind, id);
      assert step != [] ==> step[0] in step;
    }
  }

  ghost predicate DriftedFrom(expected: map<FillId, int>, positions: seq<Position>, tolerance: int, id: FillId) {
    && id in expected
    && exists p :: p in positions && p.lastFillId == Some(id) && Abs(p.quantity - expected[id]) > tolerance
  }

  lemma {:induction false} DriftBreaksFlag(
      symbol: Symbol, expected: map<FillId, int>, positions: seq<Position>, tolerance: int,
      kind: BreakType, id: FillId)
    ensures Flags(DriftBreaks(symbol, expected, positions, tolerance), kind, id)
       <==> kind == PositionDrift && DriftedFrom(expected, positions, tolerance, id)
  {
    if positions != [] {
      var front, last := positions[..|positions| - 1], positions[|positions| - 1];
      assert positions == front + [last];
      DriftBreaksFlag(symbol, expected, front, tolerance, kind, id);
      var before := DriftBreaks(symbol, expected, front, tolerance);
      if && last.lastFillId.Some? && last.lastFillId.value in expected
         && Abs(last.quantity - expected[last.lastFillId.value]) > tolerance {
        var step := [DriftBreak(symbol, last, expected[last.lastFillId.value])];
        FlagsConcat(before, step, kind, id);
        assert step[0] in step;
      } else {
        assert DriftBreaks(symbol, expected, positions, tolerance) == before;
      }
    }
  }

  lemma {:induction false} NothingToCompare(
      symbol: Symbol, expected: map<FillId, int>, positions: seq<Position>, tolerance: int)
    requires expected == map[] || positions == []
    ensures DriftBreaks(symbol, expected, positions, tolerance) == []
  {
    if positions != [] {
      NothingToCompare(symbol, expected, positions[..|positions| - 1], tolerance);
    }
  }

  /** With well-keyed rows the running sums do not depend on how the sort broke ties, and a fill is
      flagged exactly when its snapshot differs from the sum of the executions up to it. */
  lemma DriftedFromSums(
      order: seq<Fill>, fills: seq<Fill>, positions: seq<Position>, tolerance: int, id: FillId)
    requires WellKeyed(fills) && Permutation(order, fills) && InOrder(order, BySequence)
    ensures DriftedFrom(Cumulative(order), positions, tolerance, id)
       <==> Drifted(fills, positions, tolerance, id)
  {
    SumsAreExpected(order, fills);
    if DriftedFrom(Cumulative(order), positions, tolerance, id) {
      var f :| f in fills && f.fillId == id;
      var p :| p in positions && p.lastFillId == Some(id) && Abs(p.quantity - Cumulative(order)[id]) > tolerance;
      assert Drifted(fills, positions, tolerance, id);
    }
  }

  lemma {:induction false} GapsInConcat(a: seq<Break>, b: seq<Break>)
    ensures GapsIn(a + b) == GapsIn(a) + GapsIn(b)
  {
    if b == [] {
      assert a + b == a;
    } else {
      GapsInConcat(a, b[..|b| - 1]);
      assert (a + b)[..|a + b| - 1] == a + b[..|b| - 1];
    }
  }

  lemma {:induction false} NoGapsIn(a: seq<Break>)
    requires forall b :: b in a ==> !b.detail.MissingBetween?
    ensures GapsIn(a) == []
  {
    if a != [] {
      NoGapsIn(a[..|a| - 1]);
    }
  }

  lemma {:induction false} ReportedGapsAreRead(a: seq<Break>, gaps: seq<Gap>, symbol: Symbol)
    requires ReportsGaps(a, gaps, symbol)
    ensures GapsIn(a) == gaps
  {
    if a != [] {
      var n := |a| - 1;
      ReportedGapsAreRead(a[..n], gaps[..n], symbol);
      assert gaps == gaps[..n] + [gaps[n]];
    }
  }

  lemma {:induction false} UnmatchedBreaksKind(symbol: Symbol, fills: seq<Fill>, ticks: seq<Tick>, window: int)
    ensures OnlyFlags(UnmatchedBreaks(symbol, fills, ticks, window), UnmatchedFill)
  {
    if fills != [] {
      UnmatchedBreaksKind(symbol, fills[..|fills| - 1], ticks, window);
    }
  }

  lemma {:induction false} DriftBreaksKind(
      symbol: Symbol, expected: map<FillId, int>, positions: seq<Position>, tolerance: int)
    ensures OnlyFlags(DriftBreaks(symbol, expected, positions, tolerance), PositionDrift)
  {
    if positions != [] {
      DriftBreaksKind(symbol, expected, positions[..|positions| - 1], tolerance);
    }
  }

  // ---------- The reconciler ----------

  class Reconciler {
    const tickStore: TickStore
    const bookStore: BookStore
    const tickMatchWindow: int
    const positionDriftTolerance: int

    constructor (tickStore: TickStore, bookStore: BookStore, tickMatchWindow: int, positionDriftTolerance: int)
      ensures this.tickStore == tickStore && this.bookStore == bookStore
      ensures this.tickMatchWindow == tickMatchWindow
      ensures this.positionDriftTolerance == positionDriftTolerance
    {
      this.tickStore, this.bookStore := tickStore, bookStore;
      this.tickMatchWindow, this.positionDriftTolerance := tickMatchWindow, positionDriftTolerance;
    }

    method NearestDelta(ticks: seq<Tick>, time: int) returns (nearest: Option<int>)
      ensures nearest.None? <==> ticks == []
      ensures nearest.Some? ==> forall w :: TickWithin(ticks, time, w) <==> nearest.value <= w
    {
      nearest := None;
      for i := 0 to |ticks|
        invariant nearest.None? <==> i == 0
        invariant nearest.Some? ==> forall t | t in ticks[..i] :: nearest.value <= Abs(t.time - time)
        invariant nearest.Some? ==> exists t | t in ticks[..i] :: nearest.value == Abs(t.time - time)
      {
        assert ticks[..i + 1] == ticks[..i] + [ticks[i]];
        var delta := Abs(ticks[i].time - time);
        if nearest.None? || delta < nearest.value {
          nearest := Some(delta);
        }
      }
      assert ticks[..|ticks|] == ticks;
    }

    method FindUnmatchedFills(symbol: Symbol, fills: seq<Fill>, ticks: seq<Tick>) returns (breaks: seq<Break>)
      ensures breaks == UnmatchedBreaks(symbol, fills, ticks, tickMatchWindow)
      ensures ReportsFar(breaks, fills, ticks, tickMatchWindow, symbol)
    {
      UnmatchedBreaksReport(symbol, fills, ticks, tickMatchWindow);
      hide ReportsFar;
      breaks := [];
      for i := 0 to |fills|
        invariant breaks == UnmatchedBreaks(symbol, fills[..i], ticks, tickMatchWindow)
      {
        var nearest := NearestDelta(ticks, fills[i].time);
        assert fills[..i + 1][..i] == fills[..i];
        if nearest.None? || nearest.value > tickMatchWindow {
          breaks := breaks + [UnmatchedBreak(symbol, fills[i], tickMatchWindow)];
        }
      }
      assert fills[..|fills|] == fills;
    }

    /** Sorts by execution sequence, never by the (deliberately corrupted) time. */
    method FindPositionDrift(symbol: Symbol, fills: seq<Fill>, positions: seq<Position>) returns (breaks: seq<Break>)
      ensures exists order ::
                && Permutation(order, fills) && InOrder(order, BySequence)
                && breaks == DriftBreaks(symbol, Cumulative(order), positions, positionDriftTolerance)
                && ReportsOff(breaks, Cumulative(order), positions, positionDriftTolerance, symbol)
    {
      breaks := [];
      var sorted := SortBy(fills, BySequence);
      DriftBreaksReport(symbol, Cumulative(sorted), positions, positionDriftTolerance);
      hide ReportsOff;
      if fills == [] || positions == [] {
        NothingToCompare(symbol, Cumulative(sorted), positions, positionDriftTolerance);
        return;
      }
      var running, expected := 0, map[];
      for i := 0 to |sorted|
        invariant running == Sum(sorted[..i])
        invariant expected == Cumulative(sorted[..i])
      {
        assert sorted[..i + 1][..i] == sorted[..i];
        running := running + Signed(sorted[i]);
        expected := expected[sorted[i].fillId := running];
      }
      assert sorted[..|sorted|] == sorted;
      for i := 0 to |positions|
        invariant breaks == DriftBreaks(symbol, expected, positions[..i], positionDriftTolerance)
      {
        var pos := positions[i];
        assert positions[..i + 1][..i] == positions[..i];
        if pos.lastFillId.Some? && pos.lastFillId.value in expected {
          var diff := Abs(pos.quantity - expected[pos.lastFillId.value]);
          if diff > positionDriftTolerance {
            breaks := breaks + [DriftBreak(symbol, pos, expected[pos.lastFillId.value])];
          }
        }
      }
      assert positions[..|positions|] == positions;
    }

    /** `dict(zip(sequence, time))` over the sorted rows. */
    method SequenceTimes(ticks: seq<Tick>) returns (seqTime: map<int, int>)
      ensures seqTime.Keys == SequencesOf(ticks)
      ensures forall q | q in seqTime :: TickAt(ticks, q, seqTime[q])
    {
      var sorted := SortBy(ticks, (t: Tick) => t.sequence);
      SameMembers(sorted, ticks);
      seqTime := map[];
      for i := 0 to |sorted|
        invariant seqTime.Keys == SequencesOf(sorted[..i])
        invariant forall q | q in seqTime :: TickAt(ticks, q, seqTime[q])
      {
        assert sorted[..i + 1] == sorted[..i] + [sorted[i]];
        assert sorted[i] in ticks;
        seqTime := seqTime[sorted[i].sequence := sorted[i].time];
      }
      assert sorted[..|sorted|] == sorted;
    }

    method ScanPairs(symbol: Symbol, seqs: seq<int>, seqTime: map<int, int>) returns (breaks: seq<Break>)
      requires forall q | q in seqs :: q in seqTime
      ensures ReportsGaps(breaks, GapsBetween(seqs), symbol)
      ensures forall b | b in breaks ::
                && b.detail.MissingBetween?
                && b.detail.curr in seqTime && b.detectedAt == seqTime[b.detail.curr]
    {
      breaks := [];
      if |seqs| == 0 {
        return;
      }
      for i := 1 to |seqs|
        invariant ReportsGaps(breaks, GapsBetween(seqs[..i]), symbol)
        invariant forall b | b in breaks ::
                    && b.detail.MissingBetween?
                    && b.detail.curr in seqTime && b.detectedAt == seqTime[b.detail.curr]
      {
        var prev, curr := seqs[i - 1], seqs[i];
        assert seqs[..i + 1][..i] == seqs[..i];
        if curr - prev > 1 {
          breaks := breaks + [GapBreak(symbol, Gap(prev, curr), seqTime[curr])];
        }
      }
      assert seqs[..|seqs|] == seqs;
    }

    method FindSequenceGaps(symbol: Symbol, ticks: seq<Tick>) returns (breaks: seq<Break>)
      ensures ReportsGaps(breaks, GapList(SequencesOf(ticks)), symbol)
      ensures DatedByTicks(breaks, ticks)
      ensures NamedSequences(breaks, symbol) == FirstMissing(SequencesOf(ticks))
    {
      hide GapsBetween, GapList, ReportsGaps;
      var seqTime := SequenceTimes(ticks);
      var seqs := SortedKeys(seqTime.Keys);
      ScanDependsOnlyOnTheSet(seqs);
      assert forall q :: q in seqs ==> q in Elements(seqs);
      breaks := ScanPairs(symbol, seqs, seqTime);
      GapBreaksNameFirst(breaks, SequencesOf(ticks), symbol);
    }

    method ReconcileSymbol(symbol: Symbol, start: int, end: int) returns (breaks: seq<Break>)
      ensures forall id :: Flags(breaks, UnmatchedFill, id)
                      <==> UnmatchedAt(bookStore.fills, tickStore.rows, symbol, start, end, tickMatchWindow, id)
      ensures WellKeyed(FillsAt(bookStore.fills, symbol, start, end, tickMatchWindow)) ==>
                forall id :: Flags(breaks, PositionDrift, id)
                        <==> DriftedAt(bookStore.fills, bookStore.positions, symbol, start, end, tickMatchWindow,
                                       positionDriftTolerance, id)
      ensures GapsIn(breaks) == GapsAt(tickStore.rows, symbol, start, end, tickMatchWindow)
      ensures GapsAreMarked(breaks)
      ensures forall b | b in breaks ::
                FoundedAt(b, symbol, bookStore.fills, bookStore.positions, tickStore.rows, start, end, tickMatchWindow,
                          positionDriftTolerance)
      ensures WellKeyed(FillsAt(bookStore.fills, symbol, start, end, tickMatchWindow)) ==>
                |breaks| == CountAt(bookStore.fills, bookStore.positions, tickStore.rows, symbol, start, end,
                                    tickMatchWindow, positionDriftTolerance)
      ensures NamedSequences(breaks, symbol)
           == FirstMissing(SequencesOf(TicksAt(tickStore.rows, symbol, start, end, tickMatchWindow)))
    {
      hide *;
      var fills := bookStore.ReadFills(symbol, start - tickMatchWindow, end + tickMatchWindow);
      var ticks := tickStore.ReadTicks(symbol, start - tickMatchWindow, end + tickMatchWindow);
      var positions := bookStore.ReadPositions(symbol, start, end);
      var unmatched := FindUnmatchedFills(symbol, fills, ticks);
      var drifted := FindPositionDrift(symbol, fills, positions);
      var gaps := FindSequenceGaps(symbol, ticks);
      breaks := unmatched + drifted + gaps;
      UnmatchedFlagged(symbol, fills, ticks, unmatched, tickMatchWindow,
                       FillsBetween(bookStore.fills, symbol, start - tickMatchWindow, end + tickMatchWindow),
                       TicksBetween(tickStore.rows, symbol, start - tickMatchWindow, end + tickMatchWindow));
      DriftFlagged(symbol, fills, positions, drifted, positionDriftTolerance,
                   FillsBetween(bookStore.fills, symbol, start - tickMatchWindow, end + tickMatchWindow),
                   PositionsBetween(bookStore.positions, symbol, start, end));
      GapsFlagged(symbol, ticks, gaps,
                  TicksBetween(tickStore.rows, symbol, start - tickMatchWindow, end + tickMatchWindow));
      JoinBreaks(unmatched, drifted, gaps);
      FoundedParts(symbol, fills, positions, ticks, unmatched, drifted, gaps, tickMatchWindow, positionDriftTolerance,
                   FillsBetween(bookStore.fills, symbol, start - tickMatchWindow, end + tickMatchWindow),
                   PositionsBetween(bookStore.positions, symbol, start, end),
                   TicksBetween(tickStore.rows, symbol, start - tickMatchWindow, end + tickMatchWindow));
      WhatIsRead(bookStore.fills, bookStore.positions, tickStore.rows, symbol, start, end, tickMatchWindow,
                 positionDriftTolerance);
    }

    method ReconcileAll(symbols: seq<Symbol>, start: int, end: int) returns (breaks: seq<Break>)
      ensures forall id :: Flags(breaks, UnmatchedFill, id)
                      <==> exists symbol | symbol in symbols ::
                             UnmatchedAt(bookStore.fills, tickStore.rows, symbol, start, end, tickMatchWindow, id)
      ensures (forall symbol | symbol in symbols ::
                 WellKeyed(FillsAt(bookStore.fills, symbol, start, end, tickMatchWindow))) ==>
                forall id :: Flags(breaks, PositionDrift, id)
                        <==> exists symbol | symbol in symbols ::
                               DriftedAt(bookStore.fills, bookStore.positions, symbol, start, end, tickMatchWindow,
                                         positionDriftTolerance, id)
      ensures GapsIn(breaks) == AllGaps(tickStore.rows, symbols, start, end, tickMatchWindow)
      ensures GapsAreMarked(breaks)
      ensures forall b | b in breaks ::
                && b.symbol in symbols
                && FoundedAt(b, b.symbol, bookStore.fills, bookStore.positions, tickStore.rows, start, end,
                             tickMatchWindow, positionDriftTolerance)
      ensures (forall symbol | symbol in symbols ::
                 WellKeyed(FillsAt(bookStore.fills, symbol, start, end, tickMatchWindow))) ==>
                |breaks| == CountAll(bookStore.fills, bookStore.positions, tickStore.rows, symbols, start, end,
                                     tickMatchWindow, positionDriftTolerance)
      ensures forall symbol | symbol in symbols ::
                NamedSequences(breaks, symbol)
                == FirstMissing(SequencesOf(TicksAt(tickStore.rows, symbol, start, end, tickMatchWindow)))
    {
      hide UnmatchedAt, DriftedAt, GapsAt, WellKeyed, FillsAt, Flags, GapsIn, FoundedAt, CountAt, FirstMissing, TicksAt;
      hide NamedSequences;
      breaks := [];
      NothingFlagged();
      for i := 0 to |symbols|
        invariant forall id :: Flags(breaks, UnmatchedFill, id)
                          <==> exists symbol | symbol in symbols[..i] ::
                                 UnmatchedAt(bookStore.fills, tickStore.rows, symbol, start, end, tickMatchWindow, id)
        invariant (forall symbol | symbol in symbols[..i] ::
                     WellKeyed(FillsAt(bookStore.fills, symbol, start, end, tickMatchWindow))) ==>
                    forall id :: Flags(breaks, PositionDrift, id)
                            <==> exists symbol | symbol in symbols[..i] ::
                                   DriftedAt(bookStore.fills, bookStore.positions, symbol, start, end, tickMatchWindow,
                                             positionDriftTolerance, id)
        invariant GapsIn(breaks) == AllGaps(tickStore.rows, symbols[..i], start, end, tickMatchWindow)
        invariant GapsAreMarked(breaks)
        invariant forall b | b in breaks ::
                    && b.symbol in symbols[..i]
                    && FoundedAt(b, b.symbol, bookStore.fills, bookStore.positions, tickStore.rows, start, end,
                                 tickMatchWindow, positionDriftTolerance)
        invariant (forall symbol | symbol in symbols[..i] ::
                     WellKeyed(FillsAt(bookStore.fills, symbol, start, end, tickMatchWindow))) ==>
                    |breaks| == CountAll(bookStore.fills, bookStore.positions, tickStore.rows, symbols[..i], start, end,
                                         tickMatchWindow, positionDriftTolerance)
        invariant forall symbol | symbol in symbols[..i] ::
                    NamedSequences(breaks, symbol)
                    == FirstMissing(SequencesOf(TicksAt(tickStore.rows, symbol, start, end, tickMatchWindow)))
      {
        assert symbols[..i + 1][..i] == symbols[..i];
        assert symbols[..i + 1] == symbols[..i] + [symbols[i]];
        var more := ReconcileSymbol(symbols[i], start, end);
        forall kind, id
          ensures Flags(breaks + more, kind, id) <==> Flags(breaks, kind, id) || Flags(more, kind, id)
        {
          FlagsConcat(breaks, more, kind, id);
        }
        GapsInConcat(breaks, more);
        FoundedSymbols(more, symbols[i], bookStore.fills, bookStore.positions, tickStore.rows, start, end,
                       tickMatchWindow, positionDriftTolerance);
        NamedConcat(breaks, more, symbols[..i], symbols[i]);
        breaks := breaks + more;
      }
      assert symbols[..|symbols|] == symbols;
    }
  }

  /** The predicates about one reconciliation, spelled out. */
  lemma WhatIsRead(
      fills: seq<Fill>, positions: seq<Position>, ticks: seq<Tick>, symbol: Symbol, start: int, end: int,
      window: int, tolerance: int)
    ensures FillsAt(fills, symbol, start, end, window) == FillsBetween(fills, symbol, start - window, end + window)
    ensures forall id :: UnmatchedAt(fills, ticks, symbol, start, end, window, id)
                    <==> Unmatched(FillsBetween(fills, symbol, start - window, end + window),
                                   TicksBetween(ticks, symbol, start - window, end + window), window, id)
    ensures forall id :: DriftedAt(fills, positions, symbol, start, end, window, tolerance, id)
                    <==> Drifted(FillsBetween(fills, symbol, start - window, end + window),
                                 PositionsBetween(positions, symbol, start, end), tolerance, id)
    ensures GapsAt(ticks, symbol, start, end, window)
         == GapList(SequencesOf(TicksBetween(ticks, symbol, start - window, end + window)))
    ensures TicksAt(ticks, symbol, start, end, window) == TicksBetween(ticks, symbol, start - window, end + window)
    ensures forall b :: FoundedAt(b, symbol, fills, positions, ticks, start, end, window, tolerance)
                   <==> Founded(b, symbol, FillsBetween(fills, symbol, start - window, end + window),
                                PositionsBetween(positions, symbol, start, end),
                                TicksBetween(ticks, symbol, start - window, end + window), window, tolerance)
    ensures CountAt(fills, positions, ticks, symbol, start, end, window, tolerance)
         == BreakCount(FillsBetween(fills, symbol, start - window, end + window),
                       PositionsBetween(positions, symbol, start, end),
                       TicksBetween(ticks, symbol, start - window, end + window), window, tolerance)
  {
    hide Founded, Unmatched, Drifted, GapList, BreakCount;
  }

  lemma FoundedParts(
      symbol: Symbol, fills: seq<Fill>, positions: seq<Position>, ticks: seq<Tick>, unmatched: seq<Break>,
      drifted: seq<Break>, gaps: seq<Break>, window: int, tolerance: int, storedFills: seq<Fill>,
      storedPositions: seq<Position>, storedTicks: seq<Tick>)
    requires Permutation(fills, storedFills) && Permutation(positions, storedPositions)
    requires Permutation(ticks, storedTicks)
    requires ReportsFar(unmatched, fills, ticks, window, symbol)
    requires exists order ::
               && Permutation(order, fills) && InOrder(order, BySequence)
               && drifted == DriftBreaks(symbol, Cumulative(order), positions, tolerance)
               && ReportsOff(drifted, Cumulative(order), positions, tolerance, symbol)
    requires ReportsGaps(gaps, GapList(SequencesOf(ticks)), symbol) && DatedByTicks(gaps, ticks)
    requires OnlyFlags(unmatched, UnmatchedFill) && OnlyFlags(drifted, PositionDrift) && OnlyFlags(gaps, SequenceGap)
    ensures var breaks := unmatched + drifted + gaps;
            && (forall b | b in breaks ::
                  Founded(b, symbol, storedFills, storedPositions, storedTicks, window, tolerance))
            && (WellKeyed(storedFills) ==>
                  |breaks| == BreakCount(storedFills, storedPositions, storedTicks, window, tolerance))
            && NamedSequences(breaks, symbol) == FirstMissing(SequencesOf(storedTicks))
  {
    hide *;
    var order :|
      && Permutation(order, fills) && InOrder(order, BySequence)
      && drifted == DriftBreaks(symbol, Cumulative(order), positions, tolerance)
      && ReportsOff(drifted, Cumulative(order), positions, tolerance, symbol);
    FarIsFounded(symbol, fills, ticks, unmatched, window, storedFills, storedTicks);
    OffIsFounded(symbol, fills, order, positions, drifted, tolerance, storedFills, storedPositions);
    GapIsFounded(symbol, ticks, gaps, storedTicks);
    GapBreaksNameFirst(gaps, SequencesOf(ticks), symbol);
    SameTicks(ticks, storedTicks);
    JoinFounded(unmatched, drifted, gaps, symbol, storedFills, storedPositions, storedTicks, window, tolerance);
  }

  lemma FoundedSymbols(
      breaks: seq<Break>, symbol: Symbol, fills: seq<Fill>, positions: seq<Position>, ticks: seq<Tick>, start: int,
      end: int, window: int, tolerance: int)
    requires forall b | b in breaks :: FoundedAt(b, symbol, fills, positions, ticks, start, end, window, tolerance)
    ensures forall b | b in breaks :: b.symbol == symbol
  {
  }

  /** Appending another symbol's breaks changes nothing named for the earlier symbols, and the symbol's own
      again names the same. */
  lemma NamedConcat(breaks: seq<Break>, more: seq<Break>, before: seq<Symbol>, symbol: Symbol)
    requires forall b | b in breaks :: b.symbol in before
    requires forall b | b in more :: b.symbol == symbol
    ensures forall other | other != symbol :: NamedSequences(breaks + more, other) == NamedSequences(breaks, other)
    ensures NamedSequences(breaks + more, symbol) == NamedSequences(breaks, symbol) + NamedSequences(more, symbol)
    ensures symbol !in before ==> NamedSequences(breaks, symbol) == {}
  {
    assert forall b :: b in breaks + more <==> b in breaks || b in more;
  }

  lemma NothingFlagged()
    ensures forall kind, id :: !Flags([], kind, id)
    ensures GapsIn([]) == []
  {
  }

  // ---------- Joining the three lists ----------

  lemma UnmatchedFlagged(
      symbol: Symbol, fills: seq<Fill>, ticks: seq<Tick>, breaks: seq<Break>, window: int,
      storedFills: seq<Fill>, storedTicks: seq<Tick>)
    requires breaks == UnmatchedBreaks(symbol, fills, ticks, window)
    requires Permutation(fills, storedFills) && Permutation(ticks, storedTicks)
    ensures OnlyFlags(breaks, UnmatchedFill)
    ensures forall id :: Flags(breaks, UnmatchedFill, id) <==> Unmatched(storedFills, storedTicks, window, id)
  {
    SameMembers(fills, storedFills);
    SameMembers(ticks, storedTicks);
    UnmatchedBreaksKind(symbol, fills, ticks, window);
    forall time
      ensures TickWithin(ticks, time, window) <==> TickWithin(storedTicks, time, window)
    {
    }
    forall id
      ensures Flags(breaks, UnmatchedFill, id) <==> Unmatched(storedFills, storedTicks, window, id)
    {
      UnmatchedBreaksFlag(symbol, fills, ticks, window, UnmatchedFill, id);
    }
  }

  lemma DriftFlagged(
      symbol: Symbol, fills: seq<Fill>, positions: seq<Position>, breaks: seq<Break>, tolerance: int,
      storedFills: seq<Fill>, storedPositions: seq<Position>)
    requires exists order ::
               && Permutation(order, fills) && InOrder(order, BySequence)
               && breaks == DriftBreaks(symbol, Cumulative(order), positions, tolerance)
    requires Permutation(fills, storedFills) && Permutation(positions, storedPositions)
    ensures OnlyFlags(breaks, PositionDrift)
    ensures WellKeyed(storedFills) ==>
              forall id :: Flags(breaks, PositionDrift, id) <==> Drifted(storedFills, storedPositions, tolerance, id)
  {
    var order :|
      && Permutation(order, fills) && InOrder(order, BySequence)
      && breaks == DriftBreaks(symbol, Cumulative(order), positions, tolerance);
    SameMembers(positions, storedPositions);
    DriftBreaksKind(symbol, Cumulative(order), positions, tolerance);
    if WellKeyed(storedFills) {
      forall id
        ensures Flags(breaks, PositionDrift, id) <==> Drifted(storedFills, storedPositions, tolerance, id)
      {
        DriftBreaksFlag(symbol, Cumulative(order), positions, tolerance, PositionDrift, id);
        DriftedFromSums(order, storedFills, positions, tolerance, id);
      }
    }
  }

  lemma GapsFlagged(symbol: Symbol, ticks: seq<Tick>, breaks: seq<Break>, storedTicks: seq<Tick>)
    requires ReportsGaps(breaks, GapList(SequencesOf(ticks)), symbol)
    requires Permutation(ticks, storedTicks)
    ensures OnlyFlags(breaks, SequenceGap)
    ensures GapsIn(breaks) == GapList(SequencesOf(storedTicks))
  {
    SameMembers(ticks, storedTicks);
    assert SequencesOf(ticks) == SequencesOf(storedTicks);
    ReportedGapsAreRead(breaks, GapList(SequencesOf(ticks)), symbol);
  }

  lemma JoinBreaks(unmatched: seq<Break>, drifted: seq<Break>, gaps: seq<Break>)
    requires OnlyFlags(unmatched, UnmatchedFill)
    requires OnlyFlags(drifted, PositionDrift)
    requires OnlyFlags(gaps, SequenceGap)
    ensures var breaks := unmatched + drifted + gaps;
            && (forall id :: Flags(breaks, UnmatchedFill, id) <==> Flags(unmatched, UnmatchedFill, id))
            && (forall id :: Flags(breaks, PositionDrift, id) <==> Flags(drifted, PositionDrift, id))
            && GapsIn(breaks) == GapsIn(gaps)
            && GapsAreMarked(breaks)
  {
    forall id
      ensures Flags(unmatched + drifted + gaps, UnmatchedFill, id) <==> Flags(unmatched, UnmatchedFill, id)
      ensures Flags(unmatched + drifted + gaps, PositionDrift, id) <==> Flags(drifted, PositionDrift, id)
    {
      FlagsConcat(unmatched + drifted, gaps, UnmatchedFill, id);
      FlagsConcat(unmatched + drifted, gaps, PositionDrift, id);
      FlagsConcat(unmatched, drifted, UnmatchedFill, id);
      FlagsConcat(unmatched, drifted, PositionDrift, id);
    }
    GapsInConcat(unmatched + drifted, gaps);
    NoGapsIn(unmatched + drifted);
  }

  method SortedKeys(keys: set<int>) returns (listing: seq<int>)
    ensures Sorted(listing) && Elements(listing) == keys
  {
    listing := [];
    var rest := keys;
    while rest != {}
      invariant rest <= keys
      invariant InOrder(listing, (x: int) => x)
      invariant forall x :: x in listing <==> x in keys - rest
    {
      ghost var member := SomeElement(rest);
      var x :| x in rest;
      var longer := InsertInOrder(x, listing, (y: int) => y);
      assert forall y :: y in longer <==> y in multiset(longer);
      assert forall y :: y in listing <==> y in multiset(listing);
      listing, rest := longer, rest - {x};
    }
    forall i, j | 0 <= i < j < |listing|
      ensures listing[i] <= listing[j]
    {
      assert ((y: int) => y)(listing[i]) <= ((y: int) => y)(listing[j]);
    }
    assert forall x :: x in Elements(listing) <==> x in keys;
  }
}
