/** The whole round trip: simulate, plant, reconcile, score.

    Over any stored ticks, any messages and any choices, one method runs the simulator class and the
    report on the same stores; its postconditions are what the project promises its report shows.
 */
module PlantedRoundTrip {
  import opened Models
  import opened Frames
  import opened Ledger
  import opened SequenceGaps
  import opened Stores
  import opened Reconciliation
  import opened Simulation
  import opened SimulatedBook
  import opened AnomalyDetection
  import opened PlantedGaps
  import opened BreakReport

  /** Five seconds. */
  const TICK_MATCH_WINDOW := 5_000_000

  /** One micro-unit. */
  const POSITION_DRIFT_TOLERANCE := 1

  /** The report lists every symbol that was traded, and its window reads all their rows. */
  ghost predicate CoversAll(s: State, symbols: seq<Symbol>, start: int, end: int) {
    && (forall p | p in s.planted :: p.symbol in symbols)
    && (forall symbol | symbol in symbols :: CoversBook(s, symbol, start, end, TICK_MATCH_WINDOW))
  }

  /** Every shifted fill is clear of the symbol's ticks, and every other fill has one near it. */
  ghost predicate TicksTellShifts(s: State, symbols: seq<Symbol>, start: int, end: int) {
    forall symbol | symbol in symbols ::
      var ticks := TicksAt(s.ticks, symbol, start, end, TICK_MATCH_WINDOW);
      && ShiftsLandClear(OfSymbol(s.fills, symbol), ticks, TICK_MATCH_WINDOW)
      && OthersHaveTicks(OfSymbol(s.fills, symbol), ticks, TICK_MATCH_WINDOW)
  }

  /** The feed is too short for a shift to land near a tick, and every fill that was not shifted still
      has a stored tick within the window. */
  ghost predicate FeedTellsShifts(
      stored: seq<Tick>, events: seq<Event>, s: State, symbols: seq<Symbol>, start: int, end: int)
  {
    forall symbol | symbol in symbols ::
      && ShortFeed(events, TicksOfSymbol(stored, symbol), symbol, TICK_MATCH_WINDOW)
      && OthersHaveTicks(OfSymbol(s.fills, symbol), TicksAt(s.ticks, symbol, start, end, TICK_MATCH_WINDOW),
                         TICK_MATCH_WINDOW)
  }

  function IsTickOf(symbol: Symbol): Tick -> bool {
    (t: Tick) => t.symbol == symbol
  }

  function TicksOfSymbol(ticks: seq<Tick>, symbol: Symbol): seq<Tick> {
    Keep(ticks, IsTickOf(symbol))
  }

  /** Before the run each listed symbol's ticks form one block that holds what the run observes, in
      sequence; afterwards the window reads all of them. */
  ghost predicate GapsTell(
      stored: seq<Tick>, events: seq<Event>, s: State, symbols: seq<Symbol>, start: int, end: int)
  {
    && (forall i, j | 0 <= i < j < |symbols| :: symbols[i] != symbols[j])
    && (forall symbol | symbol in symbols :: BlockObserved(stored, events, symbol))
    && (forall t | t in s.ticks && t.symbol in symbols ::
          start - TICK_MATCH_WINDOW <= t.time <= end + TICK_MATCH_WINDOW)
  }

  ghost predicate BlockObserved(stored: seq<Tick>, events: seq<Event>, symbol: Symbol) {
    exists lo, hi, first ::
      && lo <= first && first + Observations(events, symbol) <= hi + 1
      && StoredBlock(stored, symbol, lo, hi) && InSequence(events, symbol, first)
  }

  ghost predicate LoggedSomewhere(s: State, symbols: seq<Symbol>, kind: BreakType, id: FillId) {
    exists symbol | symbol in symbols :: Logged(s.planted, symbol, kind, id)
  }

  lemma PlantedIsLogged(s: State, symbols: seq<Symbol>, kind: BreakType, id: FillId)
    requires forall p | p in s.planted :: p.symbol in symbols
    ensures id in PlantedIds(s.planted, kind) <==> LoggedSomewhere(s, symbols, kind, id)
  {
  }

  lemma FeasiblePrefix(events: seq<Event>, prefix: seq<Event>)
    requires Feasible(events) && prefix <= events
    ensures Feasible(prefix)
  {
  }

  lemma ObservedPrefix(done: seq<Message>, all: seq<Message>)
    requires done <= all
    ensures Observed(done) <= Observed(all)
  {
  }

  lemma LoggedIsFilled(s: State, symbol: Symbol, kind: BreakType, id: FillId)
    requires BookInvariant(s, symbol) && kind != SequenceGap && Logged(s.planted, symbol, kind, id)
    ensures exists f :: f in s.fills && f.fillId == id
  {
  }

  /** Reported drifts are the planted ones, over all symbols of the report. */
  lemma DriftsCoincide(s: State, symbols: seq<Symbol>, start: int, end: int)
    requires forall symbol | symbol in symbols :: BookInvariant(s, symbol)
    requires CoversAll(s, symbols, start, end)
    ensures DriftedIds(s.fills, s.positions, symbols, start, end, TICK_MATCH_WINDOW, POSITION_DRIFT_TOLERANCE)
         == PlantedIds(s.planted, PositionDrift)
  {
    hide BookInvariant, Logged, Drifted, PlantedIds, FillsBetween, PositionsBetween, CoversBook;
    forall id
      ensures DriftedSomewhere(
                s.fills, s.positions, symbols, start, end, TICK_MATCH_WINDOW, POSITION_DRIFT_TOLERANCE, id)
         <==> id in PlantedIds(s.planted, PositionDrift)
      ensures id in PlantedIds(s.planted, PositionDrift) ==> exists f :: f in s.fills && f.fillId == id
    {
      PlantedIsLogged(s, symbols, PositionDrift, id);
      forall symbol | symbol in symbols
        ensures DriftedAt(s.fills, s.positions, symbol, start, end, TICK_MATCH_WINDOW, POSITION_DRIFT_TOLERANCE, id)
           <==> Logged(s.planted, symbol, PositionDrift, id)
        ensures Logged(s.planted, symbol, PositionDrift, id) ==> exists f :: f in s.fills && f.fillId == id
      {
        DriftBreaksArePlanted(s, symbol, start, end, TICK_MATCH_WINDOW, POSITION_DRIFT_TOLERANCE, id);
        if Logged(s.planted, symbol, PositionDrift, id) {
          LoggedIsFilled(s, symbol, PositionDrift, id);
        }
      }
    }
  }

  /** Reported unmatched fills are the planted ones, over all symbols of the report. */
  lemma ShiftsCoincide(s: State, symbols: seq<Symbol>, start: int, end: int)
    requires forall symbol | symbol in symbols :: BookInvariant(s, symbol)
    requires CoversAll(s, symbols, start, end) && TicksTellShifts(s, symbols, start, end)
    ensures UnmatchedIds(s.fills, s.ticks, symbols, start, end, TICK_MATCH_WINDOW)
         == PlantedIds(s.planted, UnmatchedFill)
  {
    hide BookInvariant, Logged, Unmatched, PlantedIds, FillsBetween, ShiftsLandClear, OthersHaveTicks;
    forall symbol | symbol in symbols
      ensures forall id :: UnmatchedAt(s.fills, s.ticks, symbol, start, end, TICK_MATCH_WINDOW, id)
                      <==> Logged(s.planted, symbol, UnmatchedFill, id)
    {
      assert CoversBook(s, symbol, start, end, TICK_MATCH_WINDOW);
      UnmatchedBreaksArePlantedIff(s, symbol, start - TICK_MATCH_WINDOW, end + TICK_MATCH_WINDOW,
                                   TicksAt(s.ticks, symbol, start, end, TICK_MATCH_WINDOW), TICK_MATCH_WINDOW);
    }
    forall id
      ensures UnmatchedSomewhere(s.fills, s.ticks, symbols, start, end, TICK_MATCH_WINDOW, id)
         <==> id in PlantedIds(s.planted, UnmatchedFill)
      ensures id in PlantedIds(s.planted, UnmatchedFill) ==> exists f :: f in s.fills && f.fillId == id
    {
      PlantedIsLogged(s, symbols, UnmatchedFill, id);
      if LoggedSomewhere(s, symbols, UnmatchedFill, id) {
        var symbol :| symbol in symbols && Logged(s.planted, symbol, UnmatchedFill, id);
        LoggedIsFilled(s, symbol, UnmatchedFill, id);
      }
    }
  }

  ghost predicate Perfect(score: Score) {
    score.fn == 0 && score.fp == 0 && score.precision == score.recall
    && (score.tp > 0 ==> score.precision == Some(1.0))
  }

  lemma CoincidingIsPerfect(planted: set<FillId>)
    ensures Perfect(Scored(planted, planted)) && Scored(planted, planted).tp == |planted|
  {
    assert planted * planted == planted && planted - planted == {};
    ScoreIsPerfectIff(planted, planted);
  }

  // ---------- Gap events against found runs ----------

  /** Gap events logged for the listed symbols. */
  function LoggedTotal(planted: seq<Planted>, symbols: seq<Symbol>): nat {
    if symbols == [] then
      0
    else
      LoggedTotal(planted, symbols[..|symbols| - 1]) + LoggedGaps(planted, symbols[|symbols| - 1])
  }

  lemma {:induction false} LoggedTotalOneMore(planted: seq<Planted>, entry: Planted, symbols: seq<Symbol>)
    requires forall i, j | 0 <= i < j < |symbols| :: symbols[i] != symbols[j]
    ensures LoggedTotal(planted + [entry], symbols)
         == LoggedTotal(planted, symbols) + if entry.anomaly == SequenceGap && entry.symbol in symbols then 1 else 0
  {
    hide LoggedGaps;
    if symbols != [] {
      var front, last := symbols[..|symbols| - 1], symbols[|symbols| - 1];
      assert symbols == front + [last];
      assert forall i | 0 <= i < |front| :: front[i] == symbols[i];
      assert last !in front;
      LoggedTotalOneMore(planted, entry, front);
      LogGapOrNot(planted, entry, last);
    }
  }

  lemma {:induction false} LoggedTotalBound(planted: seq<Planted>, symbols: seq<Symbol>)
    requires forall i, j | 0 <= i < j < |symbols| :: symbols[i] != symbols[j]
    ensures LoggedTotal(planted, symbols) <= GapEvents(planted)
  {
    hide LoggedTotal;
    if planted == [] {
      NothingInTotal(symbols);
    } else {
      var front, last := planted[..|planted| - 1], planted[|planted| - 1];
      assert planted == front + [last];
      LoggedTotalBound(front, symbols);
      LoggedTotalOneMore(front, last, symbols);
    }
  }

  lemma {:induction false} NothingInTotal(symbols: seq<Symbol>)
    ensures LoggedTotal([], symbols) == 0
  {
    if symbols != [] {
      NothingInTotal(symbols[..|symbols| - 1]);
    }
  }

  lemma SequencesRead(ticks: seq<Tick>, symbol: Symbol, start: int, end: int)
    requires forall t | t in ticks && t.symbol == symbol ::
               start - TICK_MATCH_WINDOW <= t.time <= end + TICK_MATCH_WINDOW
    ensures SequencesOf(TicksAt(ticks, symbol, start, end, TICK_MATCH_WINDOW)) == StoredSequences(ticks, symbol)
  {
    hide Keep;
    var read := TicksAt(ticks, symbol, start, end, TICK_MATCH_WINDOW);
    forall t
      ensures t in read <==> t in ticks && t.symbol == symbol
    {
      KeepSelects(ticks, TickIn(symbol, start - TICK_MATCH_WINDOW, end + TICK_MATCH_WINDOW), t);
    }
    assert forall n :: n in SequencesOf(read) <==> n in StoredSequences(ticks, symbol);
  }

  lemma {:induction false} RunsAreLogged(s: State, symbols: seq<Symbol>, start: int, end: int)
    requires forall symbol | symbol in symbols ::
               |GapsAt(s.ticks, symbol, start, end, TICK_MATCH_WINDOW)| <= LoggedGaps(s.planted, symbol)
    ensures |AllGaps(s.ticks, symbols, start, end, TICK_MATCH_WINDOW)| <= LoggedTotal(s.planted, symbols)
  {
    hide LoggedGaps, GapsAt;
    if symbols != [] {
      assert forall symbol | symbol in symbols[..|symbols| - 1] :: symbol in symbols;
      RunsAreLogged(s, symbols[..|symbols| - 1], start, end);
    }
  }

  /** Found runs never outnumber planted gap events. */
  lemma RunsWithinEvents(stored: seq<Tick>, events: seq<Event>, symbols: seq<Symbol>, start: int, end: int)
    requires GapsTell(stored, events, RunEvents(Fresh(stored), events), symbols, start, end)
    ensures var s := RunEvents(Fresh(stored), events);
            |AllGaps(s.ticks, symbols, start, end, TICK_MATCH_WINDOW)| <= GapEvents(s.planted)
  {
    hide RunEvents, LoggedGaps, StoredSequences, StoredBlock, InSequence, GapList, Observations, AllGaps, Accounted;
    var s := RunEvents(Fresh(stored), events);
    forall symbol | symbol in symbols
      ensures |GapsAt(s.ticks, symbol, start, end, TICK_MATCH_WINDOW)| <= LoggedGaps(s.planted, symbol)
    {
      assert BlockObserved(stored, events, symbol);
      var lo, hi, first :|
        && lo <= first && first + Observations(events, symbol) <= hi + 1
        && StoredBlock(stored, symbol, lo, hi) && InSequence(events, symbol, first);
      BlockIsOrdered(stored, symbol, lo, hi);
      PlantedGapsAreReported(Fresh(stored), events, symbol, lo, hi, first);
      SequencesRead(s.ticks, symbol, start, end);
    }
    RunsAreLogged(s, symbols, start, end);
    LoggedTotalBound(s.planted, symbols);
  }

  lemma BlockIsOrdered(ticks: seq<Tick>, symbol: Symbol, lo: int, hi: int)
    requires StoredBlock(ticks, symbol, lo, hi)
    ensures lo <= hi
  {
  }

  // ---------- The span of the feed ----------

  lemma {:induction false} RunOnlyDeletes(stored: seq<Tick>, events: seq<Event>, t: Tick)
    requires forall e | e in events :: e.Observe?
    requires t in RunEvents(Fresh(stored), events).ticks
    ensures t in stored
  {
    if events != [] {
      var front, last := events[..|events| - 1], events[|events| - 1];
      assert last in events && forall e | e in front :: e in events;
      StepOnlyDeletes(RunEvents(Fresh(stored), front), last, t);
      RunOnlyDeletes(stored, front, t);
    }
  }

  lemma StepOnlyDeletes(s: State, e: Event, t: Tick)
    requires e.Observe? && t in Step(s, e).ticks
    ensures t in s.ticks
  {
    hide PlantGap, Record, Book, NewFill;
    if e.draws.Some? {
      var s1 := Track(s, e.tick);
      var s2 := Record(Book(s1, NewFill(s1, e.tick, e.draws.value)), e.tick, e.draws.value);
      RecordingKeepsTicks(s1, e.tick, e.draws.value);
      PlantingOnlyDeletes(s2, e.tick.symbol, e.tick.time, e.draws.value, t);
    }
  }

  lemma PlantingOnlyDeletes(s: State, at: Symbol, time: int, d: Draws, t: Tick)
    ensures t in PlantGap(s, at, time, d).ticks ==> t in s.ticks
  {
    hide Keep, ChosenGap, Returning, SortInts, Bump, Span;
    var seqs := SortInts(Get(s.recent, at, []));
    if |seqs| >= 6 {
      KeepSelects(s.ticks, NotAmong(at, Elements(ChosenGap(seqs, d))), t);
    }
  }

  lemma RecordingKeepsTicks(s: State, tick: Tick, d: Draws)
    ensures Record(Book(s, NewFill(s, tick, d)), tick, d).ticks == s.ticks
  {
    hide Snapshot, Bump, NewFill, InsertFill;
  }

  lemma ShortSpanIsClear(
      stored: seq<Tick>, events: seq<Event>, symbols: seq<Symbol>, start: int, end: int)
    requires forall e | e in events :: e.Observe?
    requires FeedTellsShifts(stored, events, RunEvents(Fresh(stored), events), symbols, start, end)
    ensures TicksTellShifts(RunEvents(Fresh(stored), events), symbols, start, end)
  {
    hide RunEvents, OthersHaveTicks, ShiftsLandClear, Keep;
    var s := RunEvents(Fresh(stored), events);
    forall symbol | symbol in symbols
      ensures ShiftsLandClear(OfSymbol(s.fills, symbol), TicksAt(s.ticks, symbol, start, end, TICK_MATCH_WINDOW),
                              TICK_MATCH_WINDOW)
    {
      var read := TicksAt(s.ticks, symbol, start, end, TICK_MATCH_WINDOW);
      forall t | t in read
        ensures t in TicksOfSymbol(stored, symbol)
      {
        KeepSelects(s.ticks, TickIn(symbol, start - TICK_MATCH_WINDOW, end + TICK_MATCH_WINDOW), t);
        RunOnlyDeletes(stored, events, t);
        KeepSelects(stored, IsTickOf(symbol), t);
      }
      ShortFeedIsClear(stored, events, symbol, read, TICK_MATCH_WINDOW);
    }
  }

  lemma AllObserved(done: seq<Message>)
    ensures forall e | e in Observed(done) :: e.Observe?
  {
  }

  // ---------- The round trip ----------

  /** One simulator instance over an empty book trades on the given messages; then the report runs.
      When it covers the book, every planted drift is found and nothing else is called a drift; when the
      ticks, or the span of the feed, tell the shifts too, the same holds of unmatched fills; and when
      the feed was whole, found gap runs never outnumber planted gap events. */
  method SimulateAndReport(
      tickStore: TickStore, batches: seq<seq<Message>>, maxFills: Option<nat>, maxIdleReads: Option<nat>,
      symbols: seq<Symbol>, start: int, end: int)
    returns (report: Report, ghost done: seq<Message>)
    requires Feasible(Observed(Flat(batches)))
    modifies tickStore
    ensures done <= Flat(batches)
    ensures var s := RunEvents(Fresh(old(tickStore.rows)), Observed(done));
            && tickStore.rows == s.ticks
            && (report.scoring.None? <==> s.planted == [])
            && (report.scoring.Some? ==>
                  ScoredAsPlanted(report.scoring.value, old(tickStore.rows), Observed(done), s, symbols, start, end))
  {
    hide *;
    var bookStore := new BookStore();
    var simulator := new TradeBookSimulator(tickStore, bookStore);
    StartsFresh(tickStore.rows);
    var emitted, acked, seen;
    emitted, acked, done, seen := simulator.Run(batches, maxFills, maxIdleReads);
    ghost var s := RunEvents(Fresh(old(tickStore.rows)), Observed(done));
    CurrentIs(simulator, s);
    var reconciler := new Reconciler(tickStore, bookStore, TICK_MATCH_WINDOW, POSITION_DRIFT_TOLERANCE);
    report := GenerateBreakReport(reconciler, symbols, start, end);
    RunIsFeasible(batches, done);
    forall symbol
      ensures BookInvariant(s, symbol)
      ensures WellKeyed(FillsAt(s.fills, symbol, start, end, TICK_MATCH_WINDOW))
    {
      EveryRunKeepsBook(old(tickStore.rows), Observed(done), symbol);
      BookIsWellKeyed(s, symbol, start, end);
    }
    AllKeyed(s, symbols, start, end);
    AllObserved(done);
    if report.scoring.Some? {
      ScoresArePlanted(report.scoring.value, old(tickStore.rows), Observed(done), symbols, start, end);
    }
  }

  /** What the report promises about its scores. */
  ghost predicate ScoredAsPlanted(
      scoring: Scoring, stored: seq<Tick>, events: seq<Event>, s: State, symbols: seq<Symbol>, start: int, end: int)
  {
    && (CoversAll(s, symbols, start, end) ==>
          Perfect(scoring.drift) && scoring.drift.tp == |PlantedIds(s.planted, PositionDrift)|)
    && (CoversAll(s, symbols, start, end)
          && (TicksTellShifts(s, symbols, start, end) || FeedTellsShifts(stored, events, s, symbols, start, end)) ==>
          Perfect(scoring.unmatched) && scoring.unmatched.tp == |PlantedIds(s.planted, UnmatchedFill)|)
    && scoring.plantedGapEvents == GapEvents(s.planted)
    && (GapsTell(stored, events, s, symbols, start, end) ==> scoring.foundGapRuns <= scoring.plantedGapEvents)
  }

  lemma ScoresArePlanted(
      scoring: Scoring, stored: seq<Tick>, events: seq<Event>, symbols: seq<Symbol>, start: int, end: int)
    requires forall e | e in events :: e.Observe?
    requires var s := RunEvents(Fresh(stored), events);
             && (forall symbol :: BookInvariant(s, symbol))
             && scoring.unmatched == Scored(PlantedIds(s.planted, UnmatchedFill),
                                            UnmatchedIds(s.fills, s.ticks, symbols, start, end, TICK_MATCH_WINDOW))
             && scoring.drift == Scored(PlantedIds(s.planted, PositionDrift),
                                        DriftedIds(s.fills, s.positions, symbols, start, end, TICK_MATCH_WINDOW,
                                                   POSITION_DRIFT_TOLERANCE))
             && scoring.plantedGapEvents == GapEvents(s.planted)
             && scoring.foundGapRuns == |AllGaps(s.ticks, symbols, start, end, TICK_MATCH_WINDOW)|
    ensures ScoredAsPlanted(scoring, stored, events, RunEvents(Fresh(stored), events), symbols, start, end)
  {
    hide RunEvents, BookInvariant, Scored, PlantedIds, UnmatchedIds, DriftedIds, AllGaps, GapEvents, Perfect;
    hide CoversAll, TicksTellShifts, FeedTellsShifts, GapsTell;
    var s := RunEvents(Fresh(stored), events);
    CoincidingIsPerfect(PlantedIds(s.planted, PositionDrift));
    CoincidingIsPerfect(PlantedIds(s.planted, UnmatchedFill));
    if GapsTell(stored, events, s, symbols, start, end) {
      RunsWithinEvents(stored, events, symbols, start, end);
    }
    if CoversAll(s, symbols, start, end) {
      DriftsCoincide(s, symbols, start, end);
      if FeedTellsShifts(stored, events, s, symbols, start, end) {
        ShortSpanIsClear(stored, events, symbols, start, end);
      }
      if TicksTellShifts(s, symbols, start, end) {
        ShiftsCoincide(s, symbols, start, end);
      }
    }
  }

  lemma StartsFresh(ticks: seq<Tick>)
    ensures Begin(ticks, [], [], []) == Fresh(ticks)
  {
  }

  lemma CurrentIs(simulator: TradeBookSimulator, s: State)
    requires simulator.Current() == s
    ensures simulator.bookStore.fills == s.fills && simulator.bookStore.positions == s.positions
    ensures simulator.bookStore.planted == s.planted && simulator.tickStore.rows == s.ticks
  {
  }

  lemma RunIsFeasible(batches: seq<seq<Message>>, done: seq<Message>)
    requires Feasible(Observed(Flat(batches))) && done <= Flat(batches)
    ensures Feasible(Observed(done))
  {
    ObservedPrefix(done, Flat(batches));
    FeasiblePrefix(Observed(Flat(batches)), Observed(done));
  }

  lemma BookIsWellKeyed(s: State, symbol: Symbol, start: int, end: int)
    requires BookInvariant(s, symbol)
    ensures WellKeyed(FillsAt(s.fills, symbol, start, end, TICK_MATCH_WINDOW))
  {
    hide BookInvariant, WellKeyed, FillsBetween;
    ReadIsWellKeyed(s, symbol, start - TICK_MATCH_WINDOW, end + TICK_MATCH_WINDOW);
  }

  lemma AllKeyed(s: State, symbols: seq<Symbol>, start: int, end: int)
    requires forall symbol :: WellKeyed(FillsAt(s.fills, symbol, start, end, TICK_MATCH_WINDOW))
    ensures AllWellKeyed(s.fills, symbols, start, end, TICK_MATCH_WINDOW)
  {
  }
}
