/** What the reconciler finds in a book that one simulator instance wrote.

    The main results hold for every run, every read window and every row order: exactly which
    snapshots are reported as drifted, exactly when a planted unmatched fill is found, and when
    the two sets of ids coincide with the ground-truth log.
 */
module AnomalyDetection {
  import opened Models
  import opened Frames
  import opened Ledger
  import opened Stores
  import opened Simulation
  import opened SimulatedBook
  import opened Reconciliation

  function FillOutside(symbol: Symbol, start: int, end: int): Fill -> bool {
    (f: Fill) => f.symbol == symbol && !(start <= f.time <= end)
  }

  /** The symbol's fills that a read window leaves out. */
  function FillsOutside(rows: seq<Fill>, symbol: Symbol, start: int, end: int): seq<Fill> {
    Keep(rows, FillOutside(symbol, start, end))
  }

  // ---------- Splitting the ledger at the read window ----------

  lemma {:induction false} WindowSplitsSum(rows: seq<Fill>, symbol: Symbol, start: int, end: int, k: int)
    ensures SumUpTo(OfSymbol(rows, symbol), k)
         == SumUpTo(FillsBetween(rows, symbol, start, end), k)
            + SumUpTo(FillsOutside(rows, symbol, start, end), k)
  {
    hide SumUpTo;
    SumUpToNone(k);
    if rows != [] {
      var front, last := rows[..|rows| - 1], rows[|rows| - 1];
      var all, inside, outside :=
        OfSymbol(front, symbol), FillsBetween(front, symbol, start, end), FillsOutside(front, symbol, start, end);
      WindowSplitsSum(front, symbol, start, end, k);
      SumUpToOneMore(all, last, k);
      SumUpToOneMore(inside, last, k);
      SumUpToOneMore(outside, last, k);
      assert all + [] == all && inside + [] == inside && outside + [] == outside;
    }
  }

  lemma SumUpToNone(k: int)
    ensures SumUpTo([], k) == 0
  {
  }

  // ---------- The rows read ----------

  lemma {:induction false} NumberedRowsDistinct(fills: seq<Fill>, f: Fill)
    requires Numbered(fills)
    ensures multiset(fills)[f] <= 1
  {
    if fills != [] {
      var front, last := fills[..|fills| - 1], fills[|fills| - 1];
      assert fills == front + [last];
      NumberedRowsDistinct(front, f);
      assert forall i :: 0 <= i < |front| ==> front[i].sequence == i + 1 != last.sequence;
      assert last !in multiset(front);
    }
  }

  lemma FillRead(fills: seq<Fill>, symbol: Symbol, start: int, end: int, f: Fill)
    ensures f in FillsBetween(fills, symbol, start, end)
       <==> f in OfSymbol(fills, symbol) && start <= f.time <= end
  {
    KeepSelects(fills, FillIn(symbol, start, end), f);
    KeepSelects(fills, IsFillOf(symbol), f);
  }

  lemma SnapshotRead(positions: seq<Position>, symbol: Symbol, start: int, end: int, p: Position)
    ensures p in PositionsBetween(positions, symbol, start, end)
       <==> p in SnapshotsOf(positions, symbol) && start <= p.time <= end
  {
    KeepSelects(positions, PositionIn(symbol, start, end), p);
    KeepSelects(positions, IsSnapshotOf(symbol), p);
  }

  /** Whatever window is read, ids and execution sequences each identify a row. */
  lemma ReadIsWellKeyed(s: State, symbol: Symbol, start: int, end: int)
    requires BookInvariant(s, symbol)
    ensures WellKeyed(FillsBetween(s.fills, symbol, start, end))
  {
    hide LogIsExact, LogKnown, Keep, LoggedDrift, Sum, SumUpTo, Paired;
    var fills, kept := OfSymbol(s.fills, symbol), FillsBetween(s.fills, symbol, start, end);
    forall f
      ensures multiset(kept)[f] <= 1
    {
      NumberedRowsDistinct(fills, f);
      KeepCounts(s.fills, FillIn(symbol, start, end), f);
      KeepCounts(s.fills, IsFillOf(symbol), f);
    }
    forall f, g | f in kept && g in kept && (f.fillId == g.fillId || f.sequence == g.sequence)
      ensures f == g
    {
      FillRead(s.fills, symbol, start, end, f);
      FillRead(s.fills, symbol, start, end, g);
      SameRow(fills, f, g);
    }
  }

  // ---------- Snapshots and their fills ----------

  /** A fill that is not unmatched has a snapshot, and what that holds. */
  lemma SnapshotOfFill(fills: seq<Fill>, positions: seq<Position>, planted: seq<Planted>, f: Fill) returns (p: Position)
    requires Consistent(fills, positions, planted) && f in fills && GetsSnapshot(f)
    ensures p in positions && Paired(f, p, fills, LoggedDrift(planted, f.fillId))
  {
    KeepSelects(fills, GetsSnapshot, f);
    var j :| 0 <= j < |Recorded(fills)| && Recorded(fills)[j] == f;
    p := positions[j];
  }

  /** A snapshot that names a fill is that fill's, so the fill is not unmatched. */
  lemma FillOfSnapshot(fills: seq<Fill>, positions: seq<Position>, planted: seq<Planted>, f: Fill, p: Position)
    requires Consistent(fills, positions, planted) && f in fills
    requires p in positions && p.lastFillId == Some(f.fillId)
    ensures GetsSnapshot(f) && Paired(f, p, fills, LoggedDrift(planted, f.fillId))
  {
    hide SumUpTo, LoggedDrift, Keep;
    var j :| 0 <= j < |positions| && positions[j] == p;
    var g := Recorded(fills)[j];
    KeepSelects(fills, GetsSnapshot, g);
    SameRow(fills, f, g);
  }

  // ---------- Drift: exactly which fills are reported ----------

  /** The fill's snapshot against the rows of a read window: the fill has one, both were read, and the
      logged drift together with the dropped earlier fills exceeds the tolerance. */
  ghost predicate SnapshotOff(s: State, symbol: Symbol, start: int, end: int, window: int, tolerance: int, f: Fill) {
    && GetsSnapshot(f)
    && start - window <= f.time <= end + window && start <= f.time <= end
    && Abs(LoggedDrift(s.planted, f.fillId)
           + SumUpTo(FillsOutside(s.fills, symbol, start - window, end + window), f.sequence)) > tolerance
  }

  /** A dropped fill shifts every later expected position by minus its signed quantity, so a fill is
      reported exactly when its snapshot is off by the planted drift plus the dropped earlier fills;
      never when the fill itself was dropped, and never when it is unmatched. */
  lemma DriftReportedExactly(
      s: State, symbol: Symbol, start: int, end: int, window: int, tolerance: int, f: Fill)
    requires BookInvariant(s, symbol) && f in OfSymbol(s.fills, symbol)
    ensures DriftedAt(s.fills, s.positions, symbol, start, end, window, tolerance, f.fillId)
       <==> SnapshotOff(s, symbol, start, end, window, tolerance, f)
  {
    hide LogIsExact, LogKnown, Keep, SumUpTo, LoggedDrift, Numbered, FillsOutside, Sum;
    var fills, snapshots := OfSymbol(s.fills, symbol), SnapshotsOf(s.positions, symbol);
    var kept := FillsBetween(s.fills, symbol, start - window, end + window);
    var read := PositionsBetween(s.positions, symbol, start, end);
    WindowSplitsSum(s.fills, symbol, start - window, end + window, f.sequence);
    FillRead(s.fills, symbol, start - window, end + window, f);
    if DriftedAt(s.fills, s.positions, symbol, start, end, window, tolerance, f.fillId) {
      var g, q :|
        && g in kept && q in read && q.lastFillId == Some(g.fillId) && g.fillId == f.fillId
        && Abs(q.quantity - SumUpTo(kept, g.sequence)) > tolerance;
      FillRead(s.fills, symbol, start - window, end + window, g);
      SnapshotRead(s.positions, symbol, start, end, q);
      SameRow(fills, f, g);
      FillOfSnapshot(fills, snapshots, s.planted, f, q);
    }
    if SnapshotOff(s, symbol, start, end, window, tolerance, f) {
      var p := SnapshotOfFill(fills, snapshots, s.planted, f);
      SnapshotRead(s.positions, symbol, start, end, p);
    }
  }

  /** Whatever the window dropped, an unmatched fill is never reported as a drift. */
  lemma UnmatchedFillNeverDrifts(
      s: State, symbol: Symbol, start: int, end: int, window: int, tolerance: int, f: Fill)
    requires BookInvariant(s, symbol) && f in OfSymbol(s.fills, symbol) && f.anomaly == Some(UnmatchedFill)
    ensures !DriftedAt(s.fills, s.positions, symbol, start, end, window, tolerance, f.fillId)
  {
    DriftReportedExactly(s, symbol, start, end, window, tolerance, f);
  }

  /** No other id is ever reported. */
  lemma OnlyFillsAreReported(
      fills: seq<Fill>, positions: seq<Position>, symbol: Symbol, start: int, end: int, window: int,
      tolerance: int, id: FillId) returns (f: Fill)
    requires DriftedAt(fills, positions, symbol, start, end, window, tolerance, id)
    ensures f in OfSymbol(fills, symbol) && f.fillId == id
  {
    f :| f in FillsBetween(fills, symbol, start - window, end + window) && f.fillId == id;
    FillRead(fills, symbol, start - window, end + window, f);
  }

  /** The window reads every fill and every snapshot of the symbol. */
  ghost predicate CoversBook(s: State, symbol: Symbol, start: int, end: int, window: int) {
    && (forall f | f in s.fills && f.symbol == symbol :: start - window <= f.time <= end + window)
    && (forall p | p in s.positions && p.symbol == symbol :: start <= p.time <= end)
  }

  lemma FilledIffDrifted(s: State, symbol: Symbol, f: Fill)
    requires BookInvariant(s, symbol) && f in OfSymbol(s.fills, symbol)
    ensures Logged(s.planted, symbol, PositionDrift, f.fillId) <==> f.anomaly == Some(PositionDrift)
    ensures Logged(s.planted, symbol, UnmatchedFill, f.fillId) <==> f.anomaly == Some(UnmatchedFill)
    ensures DriftFits(f, LoggedDrift(s.planted, f.fillId))
  {
    var fills := OfSymbol(s.fills, symbol);
    hide Keep, LoggedDrift, Logged, Numbered, LogKnown, Paired, Sum, OfSymbol, SnapshotsOf, Recorded;
    forall kind | kind != SequenceGap
      ensures FilledWith(fills, kind, f.fillId) <==> f.anomaly == Some(kind)
    {
      if FilledWith(fills, kind, f.fillId) {
        var g :| g in fills && g.fillId == f.fillId && g.anomaly == Some(kind);
        SameRow(fills, f, g);
      }
    }
  }

  lemma CoveredDrift(s: State, symbol: Symbol, start: int, end: int, window: int, tolerance: int, f: Fill)
    requires BookInvariant(s, symbol) && CoversBook(s, symbol, start, end, window)
    requires 0 <= tolerance < 10_000 && f in OfSymbol(s.fills, symbol)
    ensures SnapshotOff(s, symbol, start, end, window, tolerance, f)
       <==> Logged(s.planted, symbol, PositionDrift, f.fillId)
  {
    hide LogIsExact, LogKnown, Keep, SumUpTo, LoggedDrift, Numbered, Logged, Sum;
    KeepNone(s.fills, FillOutside(symbol, start - window, end + window));
    SumUpToNone(f.sequence);
    FilledIffDrifted(s, symbol, f);
    KeepSelects(s.fills, IsFillOf(symbol), f);
    if GetsSnapshot(f) {
      var p := SnapshotOfFill(OfSymbol(s.fills, symbol), SnapshotsOf(s.positions, symbol), s.planted, f);
      KeepSelects(s.positions, IsSnapshotOf(symbol), p);
    }
  }

  /** With a window that covers the symbol's book, the reported drifts are exactly the planted
      ones: whatever was traded, whichever timestamps were shifted, in whatever row order. */
  lemma DriftBreaksArePlanted(
      s: State, symbol: Symbol, start: int, end: int, window: int, tolerance: int, id: FillId)
    requires BookInvariant(s, symbol) && CoversBook(s, symbol, start, end, window)
    requires 0 <= tolerance < 10_000
    ensures DriftedAt(s.fills, s.positions, symbol, start, end, window, tolerance, id)
       <==> Logged(s.planted, symbol, PositionDrift, id)
  {
    var fills := OfSymbol(s.fills, symbol);
    assert Logged(s.planted, symbol, PositionDrift, id) <==> FilledWith(fills, PositionDrift, id);
    hide BookInvariant, OfSymbol, DriftedAt, SnapshotOff, Logged, CoversBook;
    if DriftedAt(s.fills, s.positions, symbol, start, end, window, tolerance, id) {
      var f := OnlyFillsAreReported(s.fills, s.positions, symbol, start, end, window, tolerance, id);
      DriftReportedExactly(s, symbol, start, end, window, tolerance, f);
      CoveredDrift(s, symbol, start, end, window, tolerance, f);
    }
    if FilledWith(fills, PositionDrift, id) {
      var f :| f in fills && f.fillId == id;
      DriftReportedExactly(s, symbol, start, end, window, tolerance, f);
      CoveredDrift(s, symbol, start, end, window, tolerance, f);
    }
  }

  // ---------- Over an earlier book ----------

  /** Rows of an earlier book do not matter when none of the symbol's earlier fills is read and no earlier
      snapshot names a new fill: what is reported is what would be reported without them. */
  lemma UnreadBookIsHarmless(
      fills: seq<Fill>, positions: seq<Position>, s: State, ticks: seq<Tick>, symbol: Symbol, start: int, end: int,
      window: int, tolerance: int, id: FillId)
    requires FillsAt(fills, symbol, start, end, window) == []
    requires forall p, f | p in positions && f in s.fills :: p.lastFillId != Some(f.fillId)
    ensures DriftedAt(fills + s.fills, positions + s.positions, symbol, start, end, window, tolerance, id)
       <==> DriftedAt(s.fills, s.positions, symbol, start, end, window, tolerance, id)
    ensures UnmatchedAt(fills + s.fills, ticks, symbol, start, end, window, id)
       <==> UnmatchedAt(s.fills, ticks, symbol, start, end, window, id)
  {
    hide SumUpTo, Keep;
    KeepConcat(fills, s.fills, FillIn(symbol, start - window, end + window));
    var kept := FillsAt(s.fills, symbol, start, end, window);
    assert [] + kept == kept;
    forall p
      ensures p in PositionsBetween(positions + s.positions, symbol, start, end)
         <==> p in PositionsBetween(positions, symbol, start, end)
              || p in PositionsBetween(s.positions, symbol, start, end)
      ensures p in PositionsBetween(positions, symbol, start, end) ==> p in positions
    {
      KeepConcat(positions, s.positions, PositionIn(symbol, start, end));
      KeepSelects(positions, PositionIn(symbol, start, end), p);
    }
    forall f | f in kept
      ensures f in s.fills
    {
      KeepSelects(s.fills, FillIn(symbol, start - window, end + window), f);
    }
  }

  // ---------- Unmatched fills: exactly when a planted one is found ----------

  /** A fill of the symbol is reported exactly when it was read and no read tick is near it. */
  lemma UnmatchedReportedExactly(
      s: State, symbol: Symbol, start: int, end: int, ticks: seq<Tick>, window: int, f: Fill)
    requires BookInvariant(s, symbol) && f in OfSymbol(s.fills, symbol)
    ensures Unmatched(FillsBetween(s.fills, symbol, start, end), ticks, window, f.fillId)
       <==> start <= f.time <= end && !TickWithin(ticks, f.time, window)
  {
    hide LogIsExact, LogKnown, Keep, SumUpTo, LoggedDrift, Numbered, Sum, TickWithin, Paired, Recorded;
    var kept := FillsBetween(s.fills, symbol, start, end);
    FillRead(s.fills, symbol, start, end, f);
    if Unmatched(kept, ticks, window, f.fillId) {
      var g :| g in kept && g.fillId == f.fillId && !TickWithin(ticks, g.time, window);
      FillRead(s.fills, symbol, start, end, g);
      SameRow(OfSymbol(s.fills, symbol), f, g);
    }
  }

  /** No read tick is near the shifted time of a planted fill ... */
  ghost predicate ShiftsLandClear(fills: seq<Fill>, ticks: seq<Tick>, window: int) {
    forall f | f in fills && f.anomaly == Some(UnmatchedFill) :: !TickWithin(ticks, f.time, window)
  }

  /** ... and every other fill still has a tick near it. */
  ghost predicate OthersHaveTicks(fills: seq<Fill>, ticks: seq<Tick>, window: int) {
    forall f | f in fills && f.anomaly != Some(UnmatchedFill) :: TickWithin(ticks, f.time, window)
  }

  /** When all the symbol's fills are read, the reported ids are exactly the planted ones if and
      only if every shift landed clear of ticks and every other fill kept one. */
  lemma UnmatchedBreaksArePlantedIff(
      s: State, symbol: Symbol, start: int, end: int, ticks: seq<Tick>, window: int)
    requires BookInvariant(s, symbol)
    requires forall f | f in s.fills && f.symbol == symbol :: start <= f.time <= end
    ensures (forall id :: Unmatched(FillsBetween(s.fills, symbol, start, end), ticks, window, id)
                     <==> Logged(s.planted, symbol, UnmatchedFill, id))
       <==> ShiftsLandClear(OfSymbol(s.fills, symbol), ticks, window)
            && OthersHaveTicks(OfSymbol(s.fills, symbol), ticks, window)
  {
    var fills, kept := OfSymbol(s.fills, symbol), FillsBetween(s.fills, symbol, start, end);
    assert forall id :: Logged(s.planted, symbol, UnmatchedFill, id) <==> FilledWith(fills, UnmatchedFill, id);
    hide BookInvariant, OfSymbol, FillsBetween, Logged, TickWithin;
    forall f | f in fills
      ensures Unmatched(kept, ticks, window, f.fillId) <==> !TickWithin(ticks, f.time, window)
      ensures Logged(s.planted, symbol, UnmatchedFill, f.fillId) <==> f.anomaly == Some(UnmatchedFill)
    {
      FillOfSymbol(s.fills, symbol, f);
      UnmatchedReportedExactly(s, symbol, start, end, ticks, window, f);
      FilledIffDrifted(s, symbol, f);
    }
    if ShiftsLandClear(fills, ticks, window) && OthersHaveTicks(fills, ticks, window) {
      forall id
        ensures Unmatched(kept, ticks, window, id) <==> Logged(s.planted, symbol, UnmatchedFill, id)
      {
        if Unmatched(kept, ticks, window, id) {
          var f :| f in kept && f.fillId == id;
          FillRead(s.fills, symbol, start, end, f);
        }
        if FilledWith(fills, UnmatchedFill, id) {
          var f :| f in fills && f.fillId == id;
        }
      }
    }
  }

  lemma FillOfSymbol(fills: seq<Fill>, symbol: Symbol, f: Fill)
    ensures f in OfSymbol(fills, symbol) <==> f in fills && f.symbol == symbol
  {
    KeepSelects(fills, IsFillOf(symbol), f);
  }

  /** Every stored tick is closer than fifteen minutes less the window to every tick of the symbol that
      the instance may have traded on. */
  ghost predicate ShortFeed(events: seq<Event>, ticks: seq<Tick>, symbol: Symbol, window: int) {
    forall e, t | e in events && e.Observe? && e.tick.symbol == symbol && t in ticks ::
      Abs(t.time - e.tick.time) < SHIFT - window
  }

  /** A feed that short is clear of every shift. */
  lemma ShortFeedIsClear(stored: seq<Tick>, events: seq<Event>, symbol: Symbol, ticks: seq<Tick>, window: int)
    requires ShortFeed(events, ticks, symbol, window)
    ensures ShiftsLandClear(OfSymbol(RunEvents(Fresh(stored), events).fills, symbol), ticks, window)
  {
    hide RunEvents;
    var s := RunEvents(Fresh(stored), events);
    forall f | f in OfSymbol(s.fills, symbol) && f.anomaly == Some(UnmatchedFill)
      ensures !TickWithin(ticks, f.time, window)
    {
      FillOfSymbol(s.fills, symbol, f);
      FillsComeFromTicks(stored, events, f);
    }
  }

  /** A longer feed can hide one: fifteen minutes after the traded tick, another tick makes the
      planted fill look matched, though it is in the log. */
  lemma LaterTickHidesPlantedFill(tick: Tick, d: Draws, later: Tick, start: int, end: int, window: nat)
    requires Possible(d) && d.anomaly == Some(UnmatchedFill) && d.forward
    requires later.time == tick.time + SHIFT
    ensures var s := RunEvents(Fresh([tick, later]), [Observe(tick, Some(d))]);
            && Logged(s.planted, tick.symbol, UnmatchedFill, d.fillId)
            && !Unmatched(FillsBetween(s.fills, tick.symbol, start, end), [tick, later], window, d.fillId)
  {
    hide Keep, Unmatched, TickWithin;
    var events := [Observe(tick, Some(d))];
    var s := RunEvents(Fresh([tick, later]), events);
    RunOnce(Fresh([tick, later]), events[0]);
    assert s == Trade(Track(Fresh([tick, later]), tick), tick, d);
    assert |s.planted| == 1 && s.planted[0] in s.planted;
    assert |s.fills| == 1 && s.fills[0].time == later.time;
    TickAtFillHides(s.fills[0], later, tick.symbol, start, end, [tick, later], window);
    assert s.fills == [s.fills[0]];
  }

  lemma TickAtFillHides(f: Fill, t: Tick, symbol: Symbol, start: int, end: int, ticks: seq<Tick>, window: nat)
    requires t in ticks && t.time == f.time
    ensures !Unmatched(FillsBetween([f], symbol, start, end), ticks, window, f.fillId)
  {
    hide Keep;
    assert TickWithin(ticks, f.time, window);
    forall g | g in FillsBetween([f], symbol, start, end)
      ensures g == f
    {
      KeepSelects([f], FillIn(symbol, start, end), g);
    }
  }
}
