/** What every run of one simulator instance leaves in the book.

    Per symbol, the fills are numbered 1, 2, 3, ..., and the snapshots belong one to one to the fills
    that are not unmatched: an unmatched fill gets no snapshot. The invariant says what each row
    holds, and that the ground-truth log names exactly the fills that were tampered with.
 */
module SimulatedBook {
  import opened Models
  import opened Frames
  import opened Ledger
  import opened SequenceGaps
  import opened Stores
  import opened Simulation

  function IsFillOf(symbol: Symbol): Fill -> bool {
    (f: Fill) => f.symbol == symbol
  }

  function IsSnapshotOf(symbol: Symbol): Position -> bool {
    (p: Position) => p.symbol == symbol
  }

  function OfSymbol(fills: seq<Fill>, symbol: Symbol): seq<Fill> {
    Keep(fills, IsFillOf(symbol))
  }

  function SnapshotsOf(positions: seq<Position>, symbol: Symbol): seq<Position> {
    Keep(positions, IsSnapshotOf(symbol))
  }

  predicate GetsSnapshot(f: Fill) {
    f.anomaly != Some(UnmatchedFill)
  }

  /** The fills that a snapshot was written for. */
  function Recorded(fills: seq<Fill>): seq<Fill> {
    Keep(fills, GetsSnapshot)
  }

  /** The drift logged for a fill, zero if none was. */
  function LoggedDrift(planted: seq<Planted>, id: FillId): int {
    if planted == [] then
      0
    else
      var last := planted[|planted| - 1];
      if last.anomaly == PositionDrift && last.relatedFillId == Some(id) then
        last.drift
      else
        LoggedDrift(planted[..|planted| - 1], id)
  }

  ghost predicate Logged(planted: seq<Planted>, symbol: Symbol, kind: BreakType, id: FillId) {
    exists p :: p in planted && p.anomaly == kind && p.symbol == symbol && p.relatedFillId == Some(id)
  }

  ghost predicate FilledWith(fills: seq<Fill>, kind: BreakType, id: FillId) {
    exists f :: f in fills && f.fillId == id && f.anomaly == Some(kind)
  }

  /** Fills are numbered in execution order, ids are distinct, and quantities are in range. */
  ghost predicate Numbered(fills: seq<Fill>) {
    && (forall i | 0 <= i < |fills| :: fills[i].sequence == i + 1 && 1_000 <= fills[i].quantity <= 50_000)
    && (forall i, j | 0 <= i < j < |fills| :: fills[i].fillId != fills[j].fillId)
  }

  /** A drift was logged exactly for the fills planted with one, and it is large. */
  ghost predicate DriftFits(f: Fill, drift: int) {
    if f.anomaly == Some(PositionDrift) then 10_000 <= Abs(drift) <= 100_000 else drift == 0
  }

  /** The snapshot written after fill `f`: the position after it plus the logged drift. */
  ghost predicate Paired(f: Fill, p: Position, fills: seq<Fill>, drift: int) {
    && p.lastFillId == Some(f.fillId)
    && p.time == f.time && p.avgPrice == f.price
    && p.quantity == SumUpTo(fills, f.sequence) + drift
  }

  ghost predicate Consistent(fills: seq<Fill>, positions: seq<Position>, planted: seq<Planted>) {
    && Numbered(fills)
    && (forall f | f in fills :: DriftFits(f, LoggedDrift(planted, f.fillId)))
    && |positions| == |Recorded(fills)|
    && (forall j | 0 <= j < |positions| ::
          Paired(Recorded(fills)[j], positions[j], fills, LoggedDrift(planted, Recorded(fills)[j].fillId)))
  }

  ghost predicate LogIsExact(fills: seq<Fill>, planted: seq<Planted>, symbol: Symbol) {
    forall kind, id | kind != SequenceGap ::
      Logged(planted, symbol, kind, id) <==> FilledWith(fills, kind, id)
  }

  ghost predicate LogKnown(fills: seq<Fill>, planted: seq<Planted>) {
    forall p | p in planted && p.relatedFillId.Some? :: Known(fills, p.relatedFillId.value)
  }

  ghost predicate BookInvariant(s: State, symbol: Symbol) {
    var fills := OfSymbol(s.fills, symbol);
    && Consistent(fills, SnapshotsOf(s.positions, symbol), s.planted)
    && LogIsExact(fills, s.planted, symbol)
    && LogKnown(s.fills, s.planted)
    && Get(s.fillSequences, symbol, 0) == |fills|
    && Get(s.truePosition, symbol, 0) == Sum(fills)
  }

  ghost predicate TradesAs(e: Event, id: FillId) {
    e.Observe? && e.draws.Some? && e.draws.value.fillId == id
  }

  /** Choices are in range and no fill id is drawn twice. */
  ghost predicate Feasible(events: seq<Event>) {
    && (forall e | e in events :: e.Observe? && e.draws.Some? ==> Possible(e.draws.value))
    && (forall i, j, id | 0 <= i < j < |events| :: TradesAs(events[i], id) ==> !TradesAs(events[j], id))
  }

  // ---------- Small facts ----------

  lemma {:induction false} NothingLogged(planted: seq<Planted>, id: FillId)
    requires forall p :: p in planted ==> p.relatedFillId != Some(id)
    ensures LoggedDrift(planted, id) == 0
  {
    if planted != [] {
      NothingLogged(planted[..|planted| - 1], id);
    }
  }

  lemma LogOneMore(planted: seq<Planted>, entry: Planted, id: FillId)
    ensures LoggedDrift(planted + [entry], id)
         == if entry.anomaly == PositionDrift && entry.relatedFillId == Some(id) then entry.drift
            else LoggedDrift(planted, id)
  {
  }

  lemma FreshIsUnknown(s: State, id: FillId)
    requires LogKnown(s.fills, s.planted) && !Known(s.fills, id)
    ensures LoggedDrift(s.planted, id) == 0
    ensures forall symbol, kind :: !Logged(s.planted, symbol, kind, id)
  {
    NothingLogged(s.planted, id);
  }

  lemma SumAppend(fills: seq<Fill>, f: Fill)
    ensures Sum(fills + [f]) == Sum(fills) + Signed(f)
  {
  }

  lemma SumUpToOneMore(fills: seq<Fill>, f: Fill, k: int)
    ensures SumUpTo(fills + [f], k) == SumUpTo(fills, k) + Share(f, k)
  {
  }

  /** Within numbered fills a sequence or an id names its row. */
  lemma SameRow(fills: seq<Fill>, f: Fill, g: Fill)
    requires Numbered(fills) && f in fills && g in fills
    requires f.fillId == g.fillId || f.sequence == g.sequence
    ensures f == g
  {
  }

  lemma SequenceInRange(fills: seq<Fill>, f: Fill)
    requires Numbered(fills) && f in fills
    ensures 1 <= f.sequence <= |fills| && fills[f.sequence - 1] == f
  {
  }

  // ---------- Each step keeps the invariant ----------

  /** Log entries about other fills disturb nothing. */
  lemma LogAboutAnother(
      fills: seq<Fill>, positions: seq<Position>, planted: seq<Planted>, entry: Planted, symbol: Symbol)
    requires Consistent(fills, positions, planted) && LogIsExact(fills, planted, symbol)
    requires entry.relatedFillId.Some? ==>
               entry.symbol != symbol && forall f | f in fills :: f.fillId != entry.relatedFillId.value
    ensures Consistent(fills, positions, planted + [entry])
    ensures LogIsExact(fills, planted + [entry], symbol)
  {
    hide SumUpTo, LoggedDrift, Numbered, Keep;
    forall f | f in fills
      ensures LoggedDrift(planted + [entry], f.fillId) == LoggedDrift(planted, f.fillId)
    {
      LogOneMore(planted, entry, f.fillId);
    }
    forall j | 0 <= j < |positions|
      ensures Recorded(fills)[j] in fills
    {
      KeepSelects(fills, GetsSnapshot, Recorded(fills)[j]);
    }
    LogStaysExact(fills, planted, entry, symbol);
  }

  lemma LogStaysExact(fills: seq<Fill>, planted: seq<Planted>, entry: Planted, symbol: Symbol)
    requires LogIsExact(fills, planted, symbol)
    requires entry.relatedFillId.Some? ==> entry.symbol != symbol
    ensures LogIsExact(fills, planted + [entry], symbol)
  {
    forall kind, id | kind != SequenceGap
      ensures Logged(planted + [entry], symbol, kind, id) <==> FilledWith(fills, kind, id)
    {
      assert Logged(planted + [entry], symbol, kind, id) <==> Logged(planted, symbol, kind, id);
    }
  }

  /** The log entries written for one fill: one if it was tampered with, none otherwise. */
  ghost predicate EntriesFor(f: Fill, entries: seq<Planted>, symbol: Symbol, drift: int) {
    if f.anomaly == Some(UnmatchedFill) || f.anomaly == Some(PositionDrift) then
      && |entries| == 1
      && entries[0].anomaly == f.anomaly.value && entries[0].symbol == symbol
      && entries[0].relatedFillId == Some(f.fillId) && entries[0].drift == drift
    else
      entries == [] && drift == 0
  }

  lemma AppendDrift(planted: seq<Planted>, f: Fill, entries: seq<Planted>, symbol: Symbol, drift: int, id: FillId)
    requires EntriesFor(f, entries, symbol, drift) && LoggedDrift(planted, f.fillId) == 0
    requires f.anomaly == Some(UnmatchedFill) ==> drift == 0
    ensures LoggedDrift(planted + entries, id) == if id == f.fillId then drift else LoggedDrift(planted, id)
  {
    if entries == [] {
      assert planted + entries == planted;
    } else {
      assert entries == [entries[0]];
      LogOneMore(planted, entries[0], id);
    }
  }

  lemma AppendNumbered(fills: seq<Fill>, f: Fill)
    requires Numbered(fills) && forall g | g in fills :: g.fillId != f.fillId
    requires f.sequence == |fills| + 1 && 1_000 <= f.quantity <= 50_000
    ensures Numbered(fills + [f])
    ensures forall g | g in fills :: g.sequence < f.sequence
  {
    assert forall i | 0 <= i < |fills| :: fills[i] in fills;
    forall g | g in fills
      ensures g.sequence < f.sequence
    {
      SequenceInRange(fills, g);
    }
  }

  lemma AppendSum(fills: seq<Fill>, f: Fill)
    requires forall g | g in fills :: g.sequence < f.sequence
    ensures SumUpTo(fills + [f], f.sequence) == Sum(fills) + Signed(f)
  {
    AllUpTo(fills, f.sequence);
    SumUpToOneMore(fills, f, f.sequence);
  }

  lemma AppendConsistent(
      fills: seq<Fill>, positions: seq<Position>, planted: seq<Planted>, symbol: Symbol,
      f: Fill, snapshots: seq<Position>, entries: seq<Planted>, drift: int)
    requires Consistent(fills, positions, planted)
    requires forall g | g in fills :: g.fillId != f.fillId
    requires f.sequence == |fills| + 1 && 1_000 <= f.quantity <= 50_000 && DriftFits(f, drift)
    requires if GetsSnapshot(f) then |snapshots| == 1 && Paired(f, snapshots[0], fills + [f], drift)
             else snapshots == []
    requires EntriesFor(f, entries, symbol, drift) && LoggedDrift(planted, f.fillId) == 0
    ensures Consistent(fills + [f], positions + snapshots, planted + entries)
  {
    hide LoggedDrift, EntriesFor, SumUpTo, Numbered, Keep, Sum;
    var fills', positions', planted' := fills + [f], positions + snapshots, planted + entries;
    AppendNumbered(fills, f);
    KeepOneMore(fills, f, GetsSnapshot);
    forall g | g in fills'
      ensures LoggedDrift(planted', g.fillId) == if g == f then drift else LoggedDrift(planted, g.fillId)
    {
      AppendDrift(planted, f, entries, symbol, drift, g.fillId);
    }
    forall j | 0 <= j < |positions'|
      ensures Paired(Recorded(fills')[j], positions'[j], fills', LoggedDrift(planted', Recorded(fills')[j].fillId))
    {
      if j < |positions| {
        var g := Recorded(fills)[j];
        KeepSelects(fills, GetsSnapshot, g);
        assert Paired(g, positions[j], fills, LoggedDrift(planted, g.fillId));
        SumUpToOneMore(fills, f, g.sequence);
      }
    }
  }

  lemma AppendLogIsExact(
      fills: seq<Fill>, planted: seq<Planted>, symbol: Symbol, f: Fill, entries: seq<Planted>, drift: int)
    requires LogIsExact(fills, planted, symbol) && EntriesFor(f, entries, symbol, drift)
    ensures LogIsExact(fills + [f], planted + entries, symbol)
  {
    var fills', planted' := fills + [f], planted + entries;
    assert f in fills';
    assert entries != [] ==> entries[0] in planted';
    forall kind, id | kind != SequenceGap
      ensures Logged(planted', symbol, kind, id) <==> FilledWith(fills', kind, id)
    {
      assert Logged(planted', symbol, kind, id)
        <==> Logged(planted, symbol, kind, id) || (id == f.fillId && f.anomaly == Some(kind));
      assert FilledWith(fills', kind, id)
        <==> FilledWith(fills, kind, id) || (id == f.fillId && f.anomaly == Some(kind));
    }
  }

  /** The log entries and the snapshots that `Record` adds. */
  function Entries(tick: Tick, d: Draws): seq<Planted> {
    if d.anomaly == Some(UnmatchedFill) || d.anomaly == Some(PositionDrift) then
      [Planted(d.anomaly.value, tick.symbol, tick.time, Some(d.fillId), Drift(d), None)]
    else
      []
  }

  function Snapshots(s: State, tick: Tick, d: Draws): seq<Position> {
    if d.anomaly == Some(UnmatchedFill) then [] else [Snapshot(s, tick, d)]
  }

  lemma TradeBooks(s: State, tick: Tick, d: Draws)
    requires !Known(s.fills, d.fillId)
    ensures var f, t := NewFill(s, tick, d), Record(Book(s, NewFill(s, tick, d)), tick, d);
            && t.fills == s.fills + [f]
            && t.positions == s.positions + Snapshots(Book(s, f), tick, d)
            && t.planted == s.planted + Entries(tick, d)
            && t.fillSequences == s.fillSequences[tick.symbol := Get(s.fillSequences, tick.symbol, 0) + 1]
            && t.truePosition == s.truePosition[tick.symbol := Get(s.truePosition, tick.symbol, 0) + Signed(f)]
  {
    hide Signed, Drift, Bump, FillTimeOf;
    var p := Snapshot(Book(s, NewFill(s, tick, d)), tick, d);
    assert s.positions + [] == s.positions && s.planted + [] == s.planted;
  }

  lemma SnapshotsSelected(positions: seq<Position>, more: seq<Position>, symbol: Symbol)
    requires forall p | p in more :: p.symbol == symbol
    ensures SnapshotsOf(positions + more, symbol) == SnapshotsOf(positions, symbol) + more
    ensures forall other | other != symbol :: SnapshotsOf(positions + more, other) == SnapshotsOf(positions, other)
  {
    KeepConcat(positions, more, IsSnapshotOf(symbol));
    KeepWhole(more, IsSnapshotOf(symbol));
    forall other | other != symbol
      ensures SnapshotsOf(positions + more, other) == SnapshotsOf(positions, other)
    {
      KeepConcat(positions, more, IsSnapshotOf(other));
      KeepNone(more, IsSnapshotOf(other));
    }
  }

  lemma RecordKeepsBook(s: State, tick: Tick, d: Draws, symbol: Symbol)
    requires BookInvariant(s, symbol) && Possible(d) && !Known(s.fills, d.fillId)
    ensures BookInvariant(Record(Book(s, NewFill(s, tick, d)), tick, d), symbol)
  {
    hide Consistent, LogIsExact, LogKnown, LoggedDrift, Keep, Sum, SumUpTo, Logged, Record;
    var f := NewFill(s, tick, d);
    var snapshots := Snapshots(Book(s, f), tick, d);
    var fills, positions := OfSymbol(s.fills, symbol), SnapshotsOf(s.positions, symbol);
    TradeBooks(s, tick, d);
    FreshIsUnknown(s, f.fillId);
    KeepOneMore(s.fills, f, IsFillOf(symbol));
    SnapshotsSelected(s.positions, snapshots, tick.symbol);
    forall g | g in fills
      ensures g.fillId != f.fillId
    {
      KeepSelects(s.fills, IsFillOf(symbol), g);
    }
    StillKnown(s, f, Entries(tick, d));
    if tick.symbol == symbol {
      SnapshotIsPaired(s, tick, d);
      AppendConsistent(fills, positions, s.planted, symbol, f, snapshots, Entries(tick, d), Drift(d));
      AppendLogIsExact(fills, s.planted, symbol, f, Entries(tick, d), Drift(d));
      SumAppend(fills, f);
    } else {
      LogsAboutAnother(fills, positions, s.planted, Entries(tick, d), symbol);
      assert fills + [] == fills;
    }
  }

  lemma SnapshotIsPaired(s: State, tick: Tick, d: Draws)
    requires BookInvariant(s, tick.symbol) && Possible(d)
    requires forall g | g in OfSymbol(s.fills, tick.symbol) :: g.fillId != d.fillId
    ensures var f, fills := NewFill(s, tick, d), OfSymbol(s.fills, tick.symbol);
            && f.sequence == |fills| + 1 && 1_000 <= f.quantity <= 50_000 && DriftFits(f, Drift(d))
            && EntriesFor(f, Entries(tick, d), tick.symbol, Drift(d))
            && (GetsSnapshot(f) ==> Paired(f, Snapshot(Book(s, f), tick, d), fills + [f], Drift(d)))
  {
    hide LogIsExact, LogKnown, LoggedDrift, Keep, Sum, SumUpTo, Numbered, Known;
    AppendNumbered(OfSymbol(s.fills, tick.symbol), NewFill(s, tick, d));
    AppendSum(OfSymbol(s.fills, tick.symbol), NewFill(s, tick, d));
  }

  lemma StillKnown(s: State, f: Fill, entries: seq<Planted>)
    requires LogKnown(s.fills, s.planted)
    requires forall e | e in entries :: e.relatedFillId == Some(f.fillId)
    ensures LogKnown(s.fills + [f], s.planted + entries)
  {
  }

  lemma LogsAboutAnother(
      fills: seq<Fill>, positions: seq<Position>, planted: seq<Planted>, entries: seq<Planted>, symbol: Symbol)
    requires Consistent(fills, positions, planted) && LogIsExact(fills, planted, symbol)
    requires |entries| <= 1
    requires forall e | e in entries ::
               e.relatedFillId.Some? ==>
                 e.symbol != symbol && forall f | f in fills :: f.fillId != e.relatedFillId.value
    ensures Consistent(fills, positions, planted + entries)
    ensures LogIsExact(fills, planted + entries, symbol)
  {
    hide Consistent, LogIsExact;
    if entries == [] {
      assert planted + entries == planted;
    } else {
      assert entries == [entries[0]];
      LogAboutAnother(fills, positions, planted, entries[0], symbol);
    }
  }

  /** Planting a gap touches the tick store and the log only, and its one log entry names no fill. */
  lemma PlantingLogsAtMostOne(s: State, at: Symbol, time: int, d: Draws) returns (entries: seq<Planted>)
    ensures var t := PlantGap(s, at, time, d);
            && t.planted == s.planted + entries && |entries| <= 1
            && (forall e | e in entries :: e.relatedFillId == None)
            && t.fills == s.fills && t.positions == s.positions
            && t.fillSequences == s.fillSequences && t.truePosition == s.truePosition
  {
    hide ChosenGap, SortInts, Returning, KeepOthers, Span, Bump;
    entries := PlantGap(s, at, time, d).planted[|s.planted|..];
  }

  lemma PlantGapKeepsBook(s: State, at: Symbol, time: int, d: Draws, symbol: Symbol)
    requires BookInvariant(s, symbol)
    ensures BookInvariant(PlantGap(s, at, time, d), symbol)
  {
    hide PlantGap, Consistent, LogIsExact, Keep, Sum, LoggedDrift;
    var entries := PlantingLogsAtMostOne(s, at, time, d);
    LogsAboutAnother(OfSymbol(s.fills, symbol), SnapshotsOf(s.positions, symbol), s.planted, entries, symbol);
  }

  lemma StepKeepsBook(s: State, e: Event, symbol: Symbol)
    requires BookInvariant(s, symbol)
    requires e.Observe? && e.draws.Some? ==> Possible(e.draws.value) && !Known(s.fills, e.draws.value.fillId)
    ensures BookInvariant(Step(s, e), symbol)
  {
    hide Consistent, LogIsExact, LogKnown, Keep, Sum, PlantGap, Record, Known;
    match e
    case Observe(tick, None) =>
    case Observe(tick, Some(d)) =>
      var tracked := Track(s, tick);
      RecordKeepsBook(tracked, tick, d, symbol);
      if d.anomaly == Some(SequenceGap) {
        PlantGapKeepsBook(Record(Book(tracked, NewFill(tracked, tick, d)), tick, d), tick.symbol, tick.time, d, symbol);
      }
    case Land(ticks) =>
  }

  // ---------- Every run of one instance ----------

  lemma {:induction false} IdsComeFromDraws(s: State, events: seq<Event>, id: FillId)
    requires s.fills == [] && Known(RunEvents(s, events).fills, id)
    ensures exists e :: e in events && TradesAs(e, id)
  {
    if events != [] {
      var front, last := events[..|events| - 1], events[|events| - 1];
      assert events == front + [last];
      var t := RunEvents(s, front);
      if Known(t.fills, id) {
        IdsComeFromDraws(s, front, id);
      } else {
        StepAddsOneFill(t, last, id);
      }
    }
  }

  lemma StepAddsOneFill(s: State, e: Event, id: FillId)
    requires Known(Step(s, e).fills, id) && !Known(s.fills, id)
    ensures TradesAs(e, id)
  {
    if e.Observe? && e.draws.Some? {
      TradeAddsOneFill(Track(s, e.tick), e.tick, e.draws.value);
    }
  }

  lemma RecordingKeepsFills(s: State, tick: Tick, d: Draws)
    ensures Record(s, tick, d).fills == s.fills
  {
    hide Snapshot, Bump;
  }

  lemma TradeAddsOneFill(s: State, tick: Tick, d: Draws)
    ensures Trade(s, tick, d).fills == InsertFill(s.fills, NewFill(s, tick, d))
  {
    hide InsertFill, NewFill, Record, PlantGap;
    var booked := Book(s, NewFill(s, tick, d));
    RecordingKeepsFills(booked, tick, d);
    var _ := PlantingLogsAtMostOne(Record(booked, tick, d), tick.symbol, tick.time, d);
  }

  lemma FeasibleFront(events: seq<Event>)
    requires Feasible(events) && events != []
    ensures Feasible(events[..|events| - 1])
  {
    var front := events[..|events| - 1];
    assert forall i :: 0 <= i < |front| ==> front[i] == events[i];
    assert forall e | e in front :: e in events;
  }

  /** The id that the last event draws is new. */
  lemma LastDrawIsNew(s: State, events: seq<Event>)
    requires s.fills == [] && Feasible(events) && events != []
    ensures var last := events[|events| - 1];
            last.Observe? && last.draws.Some? ==>
              && Possible(last.draws.value)
              && !Known(RunEvents(s, events[..|events| - 1]).fills, last.draws.value.fillId)
  {
    var front, last := events[..|events| - 1], events[|events| - 1];
    assert last in events;
    if last.Observe? && last.draws.Some? {
      var id := last.draws.value.fillId;
      assert TradesAs(events[|events| - 1], id);
      assert forall i | 0 <= i < |front| :: front[i] == events[i] && !TradesAs(events[i], id);
      if Known(RunEvents(s, front).fills, id) {
        IdsComeFromDraws(s, front, id);
        assert false;
      }
    }
  }

  /** A new instance over an empty book, with any ticks already stored. */
  ghost function Fresh(ticks: seq<Tick>): State {
    Begin(ticks, [], [], [])
  }

  lemma FreshKeepsBook(ticks: seq<Tick>, symbol: Symbol)
    ensures BookInvariant(Fresh(ticks), symbol)
  {
  }

  lemma {:induction false} EveryRunKeepsBook(ticks: seq<Tick>, events: seq<Event>, symbol: Symbol)
    requires Feasible(events)
    ensures BookInvariant(RunEvents(Fresh(ticks), events), symbol)
  {
    hide BookInvariant, Step, Feasible, Known;
    if events == [] {
      FreshKeepsBook(ticks, symbol);
    } else {
      FeasibleFront(events);
      EveryRunKeepsBook(ticks, events[..|events| - 1], symbol);
      LastDrawIsNew(Fresh(ticks), events);
      StepKeepsBook(RunEvents(Fresh(ticks), events[..|events| - 1]), events[|events| - 1], symbol);
    }
  }

  // ---------- Where a fill's time comes from ----------

  /** The event whose trade made the fill. */
  ghost predicate TradedAt(e: Event, f: Fill) {
    && e.Observe? && e.draws.Some? && e.tick.symbol == f.symbol
    && e.draws.value.fillId == f.fillId && e.draws.value.anomaly == f.anomaly
    && f.price == e.tick.price && f.quantity == e.draws.value.quantity
    && (if f.anomaly != Some(UnmatchedFill) then f.time == e.tick.time
        else if e.draws.value.forward then f.time == e.tick.time + SHIFT
        else f.time == e.tick.time - SHIFT)
  }

  /** Every fill carries the time of the tick it traded on, fifteen minutes away exactly if it is
      unmatched. */
  lemma {:induction false} FillsComeFromTicks(ticks: seq<Tick>, events: seq<Event>, f: Fill)
    requires f in RunEvents(Fresh(ticks), events).fills
    ensures exists e :: e in events && TradedAt(e, f)
  {
    if events != [] {
      var front, last := events[..|events| - 1], events[|events| - 1];
      assert events == front + [last];
      var t := RunEvents(Fresh(ticks), front);
      if f in t.fills {
        FillsComeFromTicks(ticks, front, f);
      } else {
        StepTrades(t, last, f);
      }
    }
  }

  lemma StepTrades(s: State, e: Event, f: Fill)
    requires f in Step(s, e).fills && f !in s.fills
    ensures TradedAt(e, f)
  {
    hide Trade, Known;
    if e.Observe? && e.draws.Some? {
      TradeAddsOneFill(Track(s, e.tick), e.tick, e.draws.value);
    }
  }

  // ---------- An instance over an earlier book ----------

  /** The rows of `s` behind what was stored before. */
  function Behind(fills: seq<Fill>, positions: seq<Position>, planted: seq<Planted>, s: State): State {
    s.(fills := fills + s.fills, positions := positions + s.positions, planted := planted + s.planted)
  }

  ghost predicate DrawsAreNew(fills: seq<Fill>, events: seq<Event>) {
    forall e | e in events && e.Observe? && e.draws.Some? :: !Known(fills, e.draws.value.fillId)
  }

  lemma BookBehind(fills: seq<Fill>, positions: seq<Position>, planted: seq<Planted>, s: State, f: Fill)
    requires !Known(fills, f.fillId)
    ensures Book(Behind(fills, positions, planted, s), f) == Behind(fills, positions, planted, Book(s, f))
  {
    hide Signed;
    assert Known(fills + s.fills, f.fillId) <==> Known(s.fills, f.fillId);
    assert (fills + s.fills) + [f] == fills + (s.fills + [f]);
  }

  lemma SameSnapshot(
      fills: seq<Fill>, positions: seq<Position>, planted: seq<Planted>, s: State, tick: Tick, d: Draws)
    ensures Snapshot(Behind(fills, positions, planted, s), tick, d) == Snapshot(s, tick, d)
  {
  }

  lemma RecordBehind(
      fills: seq<Fill>, positions: seq<Position>, planted: seq<Planted>, s: State, tick: Tick, d: Draws)
    ensures Record(Behind(fills, positions, planted, s), tick, d)
         == Behind(fills, positions, planted, Record(s, tick, d))
  {
    hide Bump, Drift, Snapshot;
    SameSnapshot(fills, positions, planted, s, tick, d);
    var p := Snapshot(s, tick, d);
    assert (positions + s.positions) + [p] == positions + (s.positions + [p]);
    if d.anomaly.Some? {
      var entry := Planted(d.anomaly.value, tick.symbol, tick.time, Some(d.fillId), Drift(d), None);
      assert (planted + s.planted) + [entry] == planted + (s.planted + [entry]);
    }
  }

  lemma DeleteBehind(
      fills: seq<Fill>, positions: seq<Position>, planted: seq<Planted>, s: State, at: Symbol, time: int,
      chosen: set<int>)
    ensures Delete(Behind(fills, positions, planted, s), at, time, chosen)
         == Behind(fills, positions, planted, Delete(s, at, time, chosen))
  {
    hide Returning, KeepOthers, Bump;
    if Returning(s.ticks, at, chosen) != [] {
      var entry := Planted(SequenceGap, at, time, None, 0, Some(Span(Returning(s.ticks, at, chosen))));
      hide Span;
      assert (planted + s.planted) + [entry] == planted + (s.planted + [entry]);
    }
  }

  lemma SameNewFill(
      fills: seq<Fill>, positions: seq<Position>, planted: seq<Planted>, s: State, tick: Tick, d: Draws)
    ensures NewFill(Behind(fills, positions, planted, s), tick, d) == NewFill(s, tick, d)
    ensures NewFill(s, tick, d).fillId == d.fillId
  {
  }

  lemma TradeBehind(
      fills: seq<Fill>, positions: seq<Position>, planted: seq<Planted>, s: State, tick: Tick, d: Draws)
    requires !Known(fills, d.fillId)
    ensures Trade(Behind(fills, positions, planted, s), tick, d) == Behind(fills, positions, planted, Trade(s, tick, d))
  {
    hide Record, Book, NewFill, Delete, ChosenGap, SortInts, Known, Behind;
    SameNewFill(fills, positions, planted, s, tick, d);
    BookBehind(fills, positions, planted, s, NewFill(s, tick, d));
    RecordBehind(fills, positions, planted, Book(s, NewFill(s, tick, d)), tick, d);
    PlantBehind(fills, positions, planted, Record(Book(s, NewFill(s, tick, d)), tick, d), tick.symbol, tick.time, d);
  }

  lemma PlantBehind(
      fills: seq<Fill>, positions: seq<Position>, planted: seq<Planted>, s: State, symbol: Symbol, at: int, d: Draws)
    ensures PlantGap(Behind(fills, positions, planted, s), symbol, at, d)
         == Behind(fills, positions, planted, PlantGap(s, symbol, at, d))
  {
    hide Delete, ChosenGap, SortInts;
    var seqs := SortInts(Get(s.recent, symbol, []));
    if |seqs| >= 6 {
      DeleteBehind(fills, positions, planted, s, symbol, at, Elements(ChosenGap(seqs, d)));
    }
  }

  lemma StepBehind(fills: seq<Fill>, positions: seq<Position>, planted: seq<Planted>, s: State, e: Event)
    requires DrawsAreNew(fills, [e])
    ensures Step(Behind(fills, positions, planted, s), e) == Behind(fills, positions, planted, Step(s, e))
  {
    hide Trade, Known;
    match e
    case Observe(tick, None) =>
    case Land(ticks) =>
    case Observe(tick, Some(d)) =>
      assert e in [e];
      assert Track(Behind(fills, positions, planted, s), tick) == Behind(fills, positions, planted, Track(s, tick));
      TradeBehind(fills, positions, planted, Track(s, tick), tick, d);
  }

  /** An instance does to an earlier book exactly what it does to an empty one, behind what is there:
      it reads nothing of it. */
  lemma {:induction false} RunBehind(
      fills: seq<Fill>, positions: seq<Position>, planted: seq<Planted>, ticks: seq<Tick>, events: seq<Event>)
    requires DrawsAreNew(fills, events)
    ensures RunEvents(Begin(ticks, fills, positions, planted), events)
         == Behind(fills, positions, planted, RunEvents(Fresh(ticks), events))
  {
    hide Step;
    if events == [] {
      assert fills + [] == fills && positions + [] == positions && planted + [] == planted;
    } else {
      var front, last := events[..|events| - 1], events[|events| - 1];
      assert last in events && forall e | e in front :: e in events;
      RunBehind(fills, positions, planted, ticks, front);
      StepBehind(fills, positions, planted, RunEvents(Fresh(ticks), front), last);
    }
  }
}
