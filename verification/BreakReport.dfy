/** The break report: scores the reconciler's findings against the ground-truth log.

    A rate with an empty denominator, which the source reports as NaN, is `None`.
 */
module BreakReport {
  import opened Models
  import opened Frames
  import opened Ledger
  import opened Stores
  import opened Reconciliation

  datatype Score = Score(tp: nat, fn: nat, fp: nat, precision: Option<real>, recall: Option<real>)

  /** The scoring section is absent when nothing was planted. */
  datatype Report = Report(total: nat, scoring: Option<Scoring>)

  datatype Scoring = Scoring(unmatched: Score, drift: Score, plantedGapEvents: nat, foundGapRuns: nat)

  function PlantedIds(log: seq<Planted>, kind: BreakType): set<FillId> {
    set p | p in log && p.anomaly == kind && p.relatedFillId.Some? :: p.relatedFillId.value
  }

  function FoundIds(breaks: seq<Break>, kind: BreakType): set<FillId> {
    set b | b in breaks && b.breakType == kind && b.relatedFillId.Some? :: b.relatedFillId.value
  }

  function Rate(hits: nat, misses: nat): Option<real> {
    if hits + misses > 0 then Some(hits as real / (hits + misses) as real) else None
  }

  function Scored(planted: set<FillId>, found: set<FillId>): Score {
    var tp, fn, fp := |planted * found|, |planted - found|, |found - planted|;
    Score(tp, fn, fp, Rate(tp, fp), Rate(tp, fn))
  }

  // ---------- What the scores mean ----------

  lemma ScoreAddsUp(planted: set<FillId>, found: set<FillId>)
    ensures var s := Scored(planted, found);
            s.tp + s.fn == |planted| && s.tp + s.fp == |found|
  {
  }

  lemma RateIsOneIff(hits: nat, misses: nat)
    ensures Rate(hits, misses) == Some(1.0) <==> misses == 0 && hits > 0
  {
    if hits + misses > 0 {
      var whole := (hits + misses) as real;
      assert hits as real / whole == 1.0 <==> hits as real == whole;
    }
  }

  lemma EmptyDifference(a: set<FillId>, b: set<FillId>)
    ensures |a - b| == 0 <==> a <= b
  {
    if a - b == {} {
      forall x | x in a
        ensures x in b
      {
        assert x !in a - b;
      }
    }
  }

  /** Precision is 1 exactly when something was found and all of it was planted; recall is 1 exactly
      when something was planted and all of it was found; both exactly when the two sets are one and
      not empty. Nothing found makes precision NaN, nothing planted makes recall NaN. */
  lemma ScoreIsPerfectIff(planted: set<FillId>, found: set<FillId>)
    ensures var s := Scored(planted, found);
            && (s.precision == Some(1.0) <==> found != {} && found <= planted)
            && (s.recall == Some(1.0) <==> planted != {} && planted <= found)
            && (s.precision == Some(1.0) && s.recall == Some(1.0) <==> planted == found && planted != {})
            && (s.precision == None <==> found == {})
            && (s.recall == None <==> planted == {})
  {
    var s := Scored(planted, found);
    ScoreAddsUp(planted, found);
    RateIsOneIff(s.tp, s.fp);
    RateIsOneIff(s.tp, s.fn);
    EmptyDifference(planted, found);
    EmptyDifference(found, planted);
    assert |planted| == 0 <==> planted == {};
    assert |found| == 0 <==> found == {};
  }

  /** Precision is the share of the found ids that were planted, recall the share of the planted ids that
      were found. */
  lemma RatesAreShares(planted: set<FillId>, found: set<FillId>)
    ensures var s := Scored(planted, found);
            && s.tp == |planted * found| && s.fn == |planted - found| && s.fp == |found - planted|
            && (found != {} ==>
                  s.precision.Some? && s.precision.value * |found| as real == |planted * found| as real)
            && (planted != {} ==>
                  s.recall.Some? && s.recall.value * |planted| as real == |planted * found| as real)
  {
    var s := Scored(planted, found);
    ScoreAddsUp(planted, found);
    assert found != {} ==> |found| > 0;
    assert planted != {} ==> |planted| > 0;
  }

  lemma FoundIsFlagged(breaks: seq<Break>, kind: BreakType, id: FillId)
    ensures id in FoundIds(breaks, kind) <==> Flags(breaks, kind, id)
  {
  }

  function GapEvents(log: seq<Planted>): nat {
    if log == [] then
      0
    else
      GapEvents(log[..|log| - 1]) + if log[|log| - 1].anomaly == SequenceGap then 1 else 0
  }

  function GapBreaks(breaks: seq<Break>): nat {
    if breaks == [] then
      0
    else
      GapBreaks(breaks[..|breaks| - 1]) + if breaks[|breaks| - 1].breakType == SequenceGap then 1 else 0
  }

  lemma {:induction false} GapBreaksAreGaps(breaks: seq<Break>)
    requires GapsAreMarked(breaks)
    ensures GapBreaks(breaks) == |GapsIn(breaks)|
  {
    if breaks != [] {
      assert breaks[|breaks| - 1] in breaks;
      GapBreaksAreGaps(breaks[..|breaks| - 1]);
    }
  }

  /** Each logged gap event counts once. */
  lemma {:induction false} GapEventsAreCounted(log: seq<Planted>)
    ensures GapEvents(log) == |set i | 0 <= i < |log| && log[i].anomaly == SequenceGap|
  {
    var all := set i | 0 <= i < |log| && log[i].anomaly == SequenceGap;
    if log == [] {
      assert all == {};
    } else {
      var front := log[..|log| - 1];
      var before := set i | 0 <= i < |front| && front[i].anomaly == SequenceGap;
      GapEventsAreCounted(front);
      assert all == before + if log[|front|].anomaly == SequenceGap then {|front|} else {};
    }
  }

  method CountGapEvents(log: seq<Planted>) returns (n: nat)
    ensures n == GapEvents(log)
  {
    n := 0;
    for i := 0 to |log|
      invariant n == GapEvents(log[..i])
    {
      assert log[..i + 1][..i] == log[..i];
      if log[i].anomaly == SequenceGap {
        n := n + 1;
      }
    }
    assert log[..|log|] == log;
  }

  method CountGapBreaks(breaks: seq<Break>) returns (n: nat)
    ensures n == GapBreaks(breaks)
  {
    n := 0;
    for i := 0 to |breaks|
      invariant n == GapBreaks(breaks[..i])
    {
      assert breaks[..i + 1][..i] == breaks[..i];
      if breaks[i].breakType == SequenceGap {
        n := n + 1;
      }
    }
    assert breaks[..|breaks|] == breaks;
  }

  // ---------- The ids a report over several symbols finds ----------

  /** The fills that some listed symbol's reconciliation calls unmatched. */
  ghost function UnmatchedIds(
      fills: seq<Fill>, ticks: seq<Tick>, symbols: seq<Symbol>, start: int, end: int, window: int): set<FillId>
  {
    set f | f in fills && UnmatchedSomewhere(fills, ticks, symbols, start, end, window, f.fillId) :: f.fillId
  }

  ghost predicate UnmatchedSomewhere(
      fills: seq<Fill>, ticks: seq<Tick>, symbols: seq<Symbol>, start: int, end: int, window: int, id: FillId)
  {
    exists symbol | symbol in symbols :: UnmatchedAt(fills, ticks, symbol, start, end, window, id)
  }

  /** The fills whose snapshot some listed symbol's reconciliation calls drifted. */
  ghost function DriftedIds(
      fills: seq<Fill>, positions: seq<Position>, symbols: seq<Symbol>, start: int, end: int, window: int,
      tolerance: int): set<FillId>
  {
    set f |
      f in fills && DriftedSomewhere(fills, positions, symbols, start, end, window, tolerance, f.fillId) ::
      f.fillId
  }

  ghost predicate DriftedSomewhere(
      fills: seq<Fill>, positions: seq<Position>, symbols: seq<Symbol>, start: int, end: int, window: int,
      tolerance: int, id: FillId)
  {
    exists symbol | symbol in symbols :: DriftedAt(fills, positions, symbol, start, end, window, tolerance, id)
  }

  lemma OnlyStoredFillsAreFound(
      fills: seq<Fill>, positions: seq<Position>, ticks: seq<Tick>, symbol: Symbol, start: int, end: int,
      window: int, tolerance: int, id: FillId)
    requires UnmatchedAt(fills, ticks, symbol, start, end, window, id)
          || DriftedAt(fills, positions, symbol, start, end, window, tolerance, id)
    ensures exists f :: f in fills && f.fillId == id
  {
    var kept := FillsBetween(fills, symbol, start - window, end + window);
    var f :| f in kept && f.fillId == id;
    KeepSelects(fills, FillIn(symbol, start - window, end + window), f);
  }

  lemma FoundAreUnmatched(
      breaks: seq<Break>, fills: seq<Fill>, ticks: seq<Tick>, symbols: seq<Symbol>, start: int, end: int, window: int)
    requires forall id :: Flags(breaks, UnmatchedFill, id)
                     <==> UnmatchedSomewhere(fills, ticks, symbols, start, end, window, id)
    ensures FoundIds(breaks, UnmatchedFill) == UnmatchedIds(fills, ticks, symbols, start, end, window)
  {
    hide UnmatchedAt, Flags, FoundIds;
    forall id
      ensures id in FoundIds(breaks, UnmatchedFill) <==> id in UnmatchedIds(fills, ticks, symbols, start, end, window)
    {
      FoundIsFlagged(breaks, UnmatchedFill, id);
      if UnmatchedSomewhere(fills, ticks, symbols, start, end, window, id) {
        var symbol :| symbol in symbols && UnmatchedAt(fills, ticks, symbol, start, end, window, id);
        OnlyStoredFillsAreFound(fills, [], ticks, symbol, start, end, window, 0, id);
      }
    }
  }

  lemma FoundAreDrifted(
      breaks: seq<Break>, fills: seq<Fill>, positions: seq<Position>, symbols: seq<Symbol>, start: int, end: int,
      window: int, tolerance: int)
    requires forall id :: Flags(breaks, PositionDrift, id)
                     <==> DriftedSomewhere(fills, positions, symbols, start, end, window, tolerance, id)
    ensures FoundIds(breaks, PositionDrift) == DriftedIds(fills, positions, symbols, start, end, window, tolerance)
  {
    hide DriftedAt, Flags, FoundIds;
    forall id
      ensures id in FoundIds(breaks, PositionDrift)
         <==> id in DriftedIds(fills, positions, symbols, start, end, window, tolerance)
    {
      FoundIsFlagged(breaks, PositionDrift, id);
      if DriftedSomewhere(fills, positions, symbols, start, end, window, tolerance, id) {
        var symbol :| symbol in symbols && DriftedAt(fills, positions, symbol, start, end, window, tolerance, id);
        OnlyStoredFillsAreFound(fills, positions, [], symbol, start, end, window, tolerance, id);
      }
    }
  }

  ghost predicate AllWellKeyed(fills: seq<Fill>, symbols: seq<Symbol>, start: int, end: int, window: int) {
    forall symbol | symbol in symbols :: WellKeyed(FillsAt(fills, symbol, start, end, window))
  }

  method GenerateBreakReport(reconciler: Reconciler, symbols: seq<Symbol>, start: int, end: int)
    returns (report: Report)
    ensures AllWellKeyed(reconciler.bookStore.fills, symbols, start, end, reconciler.tickMatchWindow) ==>
              report.total == CountAll(reconciler.bookStore.fills, reconciler.bookStore.positions,
                                       reconciler.tickStore.rows, symbols, start, end, reconciler.tickMatchWindow,
                                       reconciler.positionDriftTolerance)
    ensures report.scoring.None? <==> reconciler.bookStore.planted == []
    ensures report.scoring.Some? ==>
              var window, book, ticks := reconciler.tickMatchWindow, reconciler.bookStore, reconciler.tickStore.rows;
              var scoring := report.scoring.value;
              && scoring.unmatched
                 == Scored(PlantedIds(book.planted, UnmatchedFill),
                           UnmatchedIds(book.fills, ticks, symbols, start, end, window))
              && (AllWellKeyed(book.fills, symbols, start, end, window) ==>
                    scoring.drift
                    == Scored(PlantedIds(book.planted, PositionDrift),
                              DriftedIds(book.fills, book.positions, symbols, start, end, window,
                                         reconciler.positionDriftTolerance)))
              && scoring.plantedGapEvents == GapEvents(book.planted)
              && scoring.foundGapRuns == |AllGaps(ticks, symbols, start, end, window)|
  {
    hide UnmatchedAt, DriftedAt, WellKeyed, FillsAt, Flags, GapsIn, AllGaps, Scored, UnmatchedIds, DriftedIds, FoundIds;
    var breaks := reconciler.ReconcileAll(symbols, start, end);
    var log := reconciler.bookStore.planted;
    if log == [] {
      return Report(|breaks|, None);
    }
    FoundAreUnmatched(breaks, reconciler.bookStore.fills, reconciler.tickStore.rows, symbols, start, end,
                      reconciler.tickMatchWindow);
    if AllWellKeyed(reconciler.bookStore.fills, symbols, start, end, reconciler.tickMatchWindow) {
      FoundAreDrifted(breaks, reconciler.bookStore.fills, reconciler.bookStore.positions, symbols, start, end,
                      reconciler.tickMatchWindow, reconciler.positionDriftTolerance);
    }
    var scoreUnmatched := Scored(PlantedIds(log, UnmatchedFill), FoundIds(breaks, UnmatchedFill));
    var scoreDrift := Scored(PlantedIds(log, PositionDrift), FoundIds(breaks, PositionDrift));
    var events := CountGapEvents(log);
    var runs := CountGapBreaks(breaks);
    GapBreaksAreGaps(breaks);
    report := Report(|breaks|, Some(Scoring(scoreUnmatched, scoreDrift, events, runs)));
  }
}
