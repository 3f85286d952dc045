/** What the simulator decides and writes over a whole run: which fills, at which side, price and time,
    what it logs, and which ticks it deletes.
 */
module SimulatedTrades {
  import opened Models
  import opened Frames
  import opened Ledger
  import opened SequenceGaps
  import opened Stores
  import opened Simulation
  import opened SimulatedBook

  // ---------- One fill per trade, in order ----------

  predicate IsTrade(e: Event) {
    e.Observe? && e.draws.Some?
  }

  function TradesOf(events: seq<Event>): seq<Event> {
    Keep(events, IsTrade)
  }

  /** The i-th trade made the i-th fill, which has order number i + 1, and the counters say how many. */
  ghost predicate TradesMatch(s: State, trades: seq<Event>) {
    && |s.fills| == |trades| == s.ordersIssued == s.fillsEmitted
    && forall i | 0 <= i < |trades| :: TradedAt(trades[i], s.fills[i]) && s.fills[i].orderId == i + 1
  }

  lemma TradeMatches(s: State, trades: seq<Event>, tick: Tick, d: Draws)
    requires TradesMatch(s, trades) && !Known(s.fills, d.fillId)
    ensures TradesMatch(Trade(s, tick, d), trades + [Observe(tick, Some(d))])
  {
    hide Record, PlantGap, Signed, Known;
    var f := NewFill(s, tick, d);
    TradeAddsOneFill(s, tick, d);
    TradeCounts(s, tick, d);
    assert InsertFill(s.fills, f) == s.fills + [f];
    assert TradedAt(Observe(tick, Some(d)), f);
  }

  lemma TradeCounts(s: State, tick: Tick, d: Draws)
    ensures var t := Trade(s, tick, d);
            && t.ordersIssued == s.ordersIssued + 1 && t.fillsEmitted == s.fillsEmitted + 1
            && t.lastPrice == s.lastPrice[tick.symbol := tick.price]
            && t.recent == s.recent
  {
    hide PlantGap, Record, InsertFill, Signed;
    var booked := Book(s, NewFill(s, tick, d));
    RecordKeepsCounts(booked, tick, d);
    PlantKeepsCounts(Record(booked, tick, d), tick.symbol, tick.time, d);
  }

  ghost predicate SameCounts(s: State, t: State) {
    && t.ordersIssued == s.ordersIssued && t.fillsEmitted == s.fillsEmitted
    && t.lastPrice == s.lastPrice && t.recent == s.recent
  }

  lemma RecordKeepsCounts(s: State, tick: Tick, d: Draws)
    ensures SameCounts(s, Record(s, tick, d))
  {
    hide Snapshot, Bump;
  }

  lemma PlantKeepsCounts(s: State, symbol: Symbol, at: int, d: Draws)
    ensures SameCounts(s, PlantGap(s, symbol, at, d))
  {
    hide ChosenGap, SortInts, Returning, KeepOthers, Span, Bump;
  }

  /** Every run makes one fill per trade, in the order of the trades: with the symbol and price of the tick,
      the drawn id, quantity and anomaly, and orders numbered from 1. */
  lemma {:induction false} EveryRunTrades(ticks: seq<Tick>, events: seq<Event>)
    requires Feasible(events)
    ensures TradesMatch(RunEvents(Fresh(ticks), events), TradesOf(events))
  {
    hide TradesMatch, Trade, Feasible, Known;
    if events == [] {
      NothingTraded(ticks);
    } else {
      var front, last := events[..|events| - 1], events[|events| - 1];
      var s := RunEvents(Fresh(ticks), front);
      FeasibleFront(events);
      LastDrawIsNew(Fresh(ticks), events);
      EveryRunTrades(ticks, front);
      assert TradesOf(front) + [] == TradesOf(front);
      match last
      case Observe(tick, Some(d)) =>
        TrackKeepsMatch(s, TradesOf(front), tick);
        TradeMatches(Track(s, tick), TradesOf(front), tick, d);
      case Observe(tick, None) => TrackKeepsMatch(s, TradesOf(front), tick);
      case Land(landed) => LandKeepsMatch(s, TradesOf(front), landed);
    }
  }

  lemma NothingTraded(ticks: seq<Tick>)
    ensures TradesMatch(Fresh(ticks), [])
  {
  }

  lemma TrackKeepsMatch(s: State, trades: seq<Event>, tick: Tick)
    requires TradesMatch(s, trades)
    ensures TradesMatch(Track(s, tick), trades) && Track(s, tick).fills == s.fills
  {
  }

  lemma LandKeepsMatch(s: State, trades: seq<Event>, landed: seq<Tick>)
    requires TradesMatch(s, trades)
    ensures TradesMatch(Step(s, Land(landed)), trades)
  {
  }

  // ---------- The strategy ----------

  /** The first fill buys; every later one buys exactly if its price is not below the one before. */
  ghost predicate FollowsPrices(fills: seq<Fill>) {
    forall i | 0 <= i < |fills| :: fills[i].side == Buy <==> i == 0 || fills[i].price >= fills[i - 1].price
  }

  ghost predicate PriceKept(s: State, symbol: Symbol) {
    var fills := OfSymbol(s.fills, symbol);
    && FollowsPrices(fills)
    && (symbol in s.lastPrice <==> fills != [])
    && (fills != [] ==> s.lastPrice[symbol] == fills[|fills| - 1].price)
  }

  lemma TradeKeepsPrice(s: State, tick: Tick, d: Draws, symbol: Symbol)
    requires PriceKept(s, symbol) && !Known(s.fills, d.fillId)
    ensures PriceKept(Trade(s, tick, d), symbol)
  {
    hide Keep, Trade, Known, FollowsPrices;
    var f, fills := NewFill(s, tick, d), OfSymbol(s.fills, symbol);
    TradeAddsOneFill(s, tick, d);
    TradeCounts(s, tick, d);
    KeepOneMore(s.fills, f, IsFillOf(symbol));
    assert fills + [] == fills;
    if tick.symbol == symbol {
      FollowsOneMore(fills, f);
    }
  }

  lemma FollowsOneMore(fills: seq<Fill>, f: Fill)
    requires FollowsPrices(fills)
    requires f.side == Buy <==> fills == [] || f.price >= fills[|fills| - 1].price
    ensures FollowsPrices(fills + [f])
  {
  }

  /** Over every run, per symbol, the simulator buys at its first trade and whenever the price has not
      fallen since the trade before, and sells otherwise. */
  lemma {:induction false} EveryRunFollowsPrices(ticks: seq<Tick>, events: seq<Event>, symbol: Symbol)
    requires Feasible(events)
    ensures FollowsPrices(OfSymbol(RunEvents(Fresh(ticks), events).fills, symbol))
    ensures PriceKept(RunEvents(Fresh(ticks), events), symbol)
  {
    hide Trade, Feasible, Known, Keep, FollowsPrices;
    if events == [] {
      NoPriceYet(ticks, symbol);
    } else {
      var front, last := events[..|events| - 1], events[|events| - 1];
      var s := RunEvents(Fresh(ticks), front);
      FeasibleFront(events);
      LastDrawIsNew(Fresh(ticks), events);
      EveryRunFollowsPrices(ticks, front, symbol);
      match last
      case Observe(tick, Some(d)) => TradeKeepsPrice(Track(s, tick), tick, d, symbol);
      case Observe(tick, None) =>
      case Land(landed) =>
    }
  }

  lemma NoPriceYet(ticks: seq<Tick>, symbol: Symbol)
    ensures PriceKept(Fresh(ticks), symbol)
  {
  }

  // ---------- What it remembers ----------

  /** The sequences of the symbol's ticks that were observed, in order. */
  function ObservedSequences(events: seq<Event>, symbol: Symbol): seq<int> {
    if events == [] then
      []
    else
      var last := events[|events| - 1];
      ObservedSequences(events[..|events| - 1], symbol)
      + if last.Observe? && last.tick.symbol == symbol then [last.tick.sequence] else []
  }

  /** What a simulator that has observed `xs` remembers: all of them, or the newest fifty. */
  ghost predicate Remembers(seqs: seq<int>, xs: seq<int>) {
    && |seqs| == Min(|xs|, 50)
    && seqs == xs[|xs| - |seqs|..]
  }

  lemma RememberNewest(seqs: seq<int>, xs: seq<int>, x: int)
    requires Remembers(seqs, xs)
    ensures Remembers(Remember(seqs, x), xs + [x])
  {
    var longer, all := seqs + [x], xs + [x];
    assert longer == all[|all| - |longer|..];
    if |longer| > 50 {
      assert longer[|longer| - 50..] == all[|all| - 50..];
    }
  }

  lemma {:induction false} EveryRunRemembers(ticks: seq<Tick>, events: seq<Event>, symbol: Symbol)
    ensures Remembers(Get(RunEvents(Fresh(ticks), events).recent, symbol, []), ObservedSequences(events, symbol))
  {
    hide Trade, Remembers, Remember;
    if events == [] {
      NothingRemembered();
    } else {
      var front, last := events[..|events| - 1], events[|events| - 1];
      var s, xs := RunEvents(Fresh(ticks), front), ObservedSequences(front, symbol);
      EveryRunRemembers(ticks, front, symbol);
      assert xs + [] == xs;
      if last.Observe? {
        RememberNewest(Get(s.recent, symbol, []), xs, last.tick.sequence);
        if last.draws.Some? {
          TradeCounts(Track(s, last.tick), last.tick, last.draws.value);
        }
      }
    }
  }

  lemma NothingRemembered()
    ensures Remembers([], [])
  {
  }

  // ---------- What it logs ----------

  /** The log entry says what the event planted. */
  ghost predicate LoggedBy(p: Planted, e: Event) {
    && IsTrade(e) && p.symbol == e.tick.symbol && p.plantedAt == e.tick.time
    && e.draws.value.anomaly == Some(p.anomaly)
    && match p.anomaly
       case UnmatchedFill =>
         p.relatedFillId == Some(e.draws.value.fillId) && p.drift == 0 && p.relatedSequences == None
       case PositionDrift =>
         && p.relatedFillId == Some(e.draws.value.fillId) && p.relatedSequences == None
         && p.drift == (if e.draws.value.driftUp then e.draws.value.driftSize else -e.draws.value.driftSize)
       case SequenceGap =>
         p.relatedFillId == None && p.drift == 0 && p.relatedSequences.Some?
  }

  function OfKind(kind: BreakType): Planted -> bool {
    (p: Planted) => p.anomaly == kind
  }

  /** The counter of each kind says how many entries of it were logged. */
  ghost predicate Counted(s: State) {
    forall kind :: kind in s.anomaliesPlanted && s.anomaliesPlanted[kind] == |Keep(s.planted, OfKind(kind))|
  }

  lemma BumpKeepsCounted(s: State, t: State, entry: Planted)
    requires Counted(s) && t.planted == s.planted + [entry]
    requires t.anomaliesPlanted == Bump(s.anomaliesPlanted, entry.anomaly)
    ensures Counted(t)
  {
    hide Keep;
    forall kind
      ensures kind in t.anomaliesPlanted && t.anomaliesPlanted[kind] == |Keep(t.planted, OfKind(kind))|
    {
      KeepOneMore(s.planted, entry, OfKind(kind));
    }
  }

  lemma RecordLogs(s: State, tick: Tick, d: Draws)
    requires Counted(s)
    ensures var t := Record(s, tick, d);
            && Counted(t) && s.planted <= t.planted
            && (forall p | p in t.planted[|s.planted|..] :: LoggedBy(p, Observe(tick, Some(d))))
            && |t.planted| == |s.planted|
                              + if d.anomaly == Some(UnmatchedFill) || d.anomaly == Some(PositionDrift) then 1 else 0
  {
    hide Snapshot, Bump, Counted;
    var t := Record(s, tick, d);
    if d.anomaly == Some(UnmatchedFill) || d.anomaly == Some(PositionDrift) {
      BumpKeepsCounted(s, t, Planted(d.anomaly.value, tick.symbol, tick.time, Some(d.fillId), Drift(d), None));
    } else {
      SameCounted(s, t);
    }
  }

  lemma SameCounted(s: State, t: State)
    requires Counted(s) && t.planted == s.planted && t.anomaliesPlanted == s.anomaliesPlanted
    ensures Counted(t)
  {
  }

  lemma PlantLogs(s: State, tick: Tick, d: Draws)
    requires Counted(s) && d.anomaly == Some(SequenceGap)
    ensures var t := PlantGap(s, tick.symbol, tick.time, d);
            && Counted(t) && s.planted <= t.planted
            && (forall p | p in t.planted[|s.planted|..] :: LoggedBy(p, Observe(tick, Some(d))))
  {
    hide ChosenGap, SortInts, Returning, KeepOthers, Span, Bump, Counted;
    var t := PlantGap(s, tick.symbol, tick.time, d);
    if t.planted == s.planted {
      SameCounted(s, t);
    } else {
      BumpKeepsCounted(s, t, t.planted[|s.planted|]);
    }
  }

  /** Every entry of the log is about a trade of the run, and the counters add up. */
  ghost predicate LogKept(s: State, events: seq<Event>) {
    Counted(s) && forall p | p in s.planted :: exists e :: e in events && LoggedBy(p, e)
  }

  lemma TradeKeepsLog(s: State, events: seq<Event>, tick: Tick, d: Draws)
    requires LogKept(s, events)
    ensures LogKept(Trade(s, tick, d), events + [Observe(tick, Some(d))])
  {
    hide Counted, LoggedBy, Record, PlantGap, Book, NewFill;
    var e, booked := Observe(tick, Some(d)), Book(s, NewFill(s, tick, d));
    BookingLogsNothing(s, NewFill(s, tick, d));
    SameCounted(s, booked);
    RecordLogs(booked, tick, d);
    var recorded, t := Record(booked, tick, d), Trade(s, tick, d);
    if d.anomaly == Some(SequenceGap) {
      PlantLogs(recorded, tick, d);
    }
    assert e in events + [e];
    forall p | p in t.planted
      ensures exists other :: other in events + [e] && LoggedBy(p, other)
    {
      if p in s.planted {
        var other :| other in events && LoggedBy(p, other);
        assert other in events + [e];
      } else {
        assert p in recorded.planted[|booked.planted|..] || p in t.planted[|recorded.planted|..];
        assert LoggedBy(p, e);
      }
    }
  }

  lemma BookingLogsNothing(s: State, f: Fill)
    ensures Book(s, f).planted == s.planted && Book(s, f).anomaliesPlanted == s.anomaliesPlanted
  {
    hide InsertFill, Signed;
  }

  /** Over every run each log entry tells what one trade planted, dated by its tick, and the counter of each
      kind of anomaly is the number of its entries. */
  lemma {:induction false} EveryRunLogsTrades(ticks: seq<Tick>, events: seq<Event>)
    ensures LogKept(RunEvents(Fresh(ticks), events), events)
  {
    hide Trade, LoggedBy, Counted;
    if events == [] {
      NothingCounted(ticks);
    } else {
      var front, last := events[..|events| - 1], events[|events| - 1];
      assert events == front + [last];
      var s, t := RunEvents(Fresh(ticks), front), RunEvents(Fresh(ticks), events);
      EveryRunLogsTrades(ticks, front);
      match last
      case Observe(tick, Some(d)) =>
        SameCounted(s, Track(s, tick));
        TradeKeepsLog(Track(s, tick), front, tick, d);
      case Observe(tick, None) => SameCounted(s, t);
      case Land(landed) => SameCounted(s, t);
    }
  }

  lemma NothingCounted(ticks: seq<Tick>)
    ensures Counted(Fresh(ticks))
  {
    forall kind
      ensures kind in Fresh(ticks).anomaliesPlanted && Fresh(ticks).anomaliesPlanted[kind] == 0
    {
      match kind
      case UnmatchedFill =>
      case PositionDrift =>
      case SequenceGap =>
    }
  }

  // ---------- What it deletes ----------

  /** `chosen` is a stretch of one to three neighbours among `seqs` that leaves out the last. */
  ghost predicate IsStretch(seqs: seq<int>, chosen: seq<int>) {
    exists start :: StretchAt(seqs, chosen, start)
  }

  ghost predicate StretchAt(seqs: seq<int>, chosen: seq<int>, start: int) {
    0 <= start <= |seqs| - 4 && 1 <= |chosen| <= 3 && chosen == seqs[start..start + |chosen|]
  }

  /** Exactly the stored rows of the chosen sequences are gone, and if there was one, the log got one entry
      with the smallest and the largest of their sequences. */
  ghost predicate Deletes(s: State, t: State, symbol: Symbol, at: int, chosen: seq<int>) {
    && (forall tick :: tick in t.ticks
                  <==> tick in s.ticks && !(tick.symbol == symbol && tick.sequence in chosen))
    && if forall tick | tick in s.ticks :: !(tick.symbol == symbol && tick.sequence in chosen) then
         t.planted == s.planted
       else
         exists lo, hi ::
           && t.planted == s.planted + [Planted(SequenceGap, symbol, at, None, 0, Some((lo, hi)))]
           && GoesAway(s.ticks, symbol, chosen, lo) && GoesAway(s.ticks, symbol, chosen, hi)
           && forall tick | tick in s.ticks && tick.symbol == symbol && tick.sequence in chosen ::
                lo <= tick.sequence <= hi
  }

  ghost predicate GoesAway(ticks: seq<Tick>, symbol: Symbol, chosen: seq<int>, q: int) {
    q in chosen && exists tick :: tick in ticks && tick.symbol == symbol && tick.sequence == q
  }

  lemma ChosenIsStretch(seqs: seq<int>, d: Draws)
    requires |seqs| >= 6 && Possible(d)
    ensures IsStretch(seqs, ChosenGap(seqs, d))
  {
    var start := GapStart(d, |seqs|);
    assert StretchAt(seqs, ChosenGap(seqs, d), start);
  }

  /** And every stretch can be chosen: the choice of where it starts and how long it is is free. */
  lemma EveryStretchCanBeChosen(seqs: seq<int>, start: nat, k: nat)
    requires |seqs| >= 6 && start <= |seqs| - 4 && 1 <= k <= 3
    ensures exists d :: Possible(d) && ChosenGap(seqs, d) == seqs[start..start + k]
  {
    var d := Draws("", 1_000, Some(SequenceGap), true, 10_000, true, start, k);
    SmallRemainder(start, |seqs| - 3);
    assert Possible(d) && ChosenGap(seqs, d) == seqs[start..start + k];
  }

  lemma SmallRemainder(a: nat, b: nat)
    requires a < b
    ensures a % b == a
  {
  }

  /** A plant with fewer than six remembered sequences changes nothing; any other deletes the stored rows of
      one stretch of the remembered sequences, in order. */
  lemma PlantDeletesStretch(s: State, symbol: Symbol, at: int, d: Draws)
    requires Possible(d)
    ensures var t, seqs := PlantGap(s, symbol, at, d), SortInts(Get(s.recent, symbol, []));
            && (|seqs| < 6 ==> t == s)
            && (|seqs| >= 6 ==> exists chosen :: IsStretch(seqs, chosen) && Deletes(s, t, symbol, at, chosen))
  {
    hide SortInts, ChosenGap, IsStretch, Deletes, Delete;
    var seqs := SortInts(Get(s.recent, symbol, []));
    if |seqs| >= 6 {
      ChosenIsStretch(seqs, d);
      DeleteDeletes(s, symbol, at, ChosenGap(seqs, d));
    }
  }

  /** A trade that plants a gap chooses among the newest fifty sequences observed, the current one included;
      any other trade deletes nothing. */
  lemma TradeDeletesStretch(s: State, tick: Tick, d: Draws, xs: seq<int>)
    requires Possible(d) && Remembers(Get(s.recent, tick.symbol, []), xs)
    ensures var t := Step(s, Observe(tick, Some(d)));
            var seqs := Get(t.recent, tick.symbol, []);
            && Remembers(seqs, xs + [tick.sequence])
            && (d.anomaly != Some(SequenceGap) || |seqs| < 6 ==> t.ticks == s.ticks)
            && (d.anomaly == Some(SequenceGap) && |seqs| >= 6 ==>
                  exists chosen ::
                    && IsStretch(SortInts(seqs), chosen)
                    && forall row :: row in t.ticks
                                <==> row in s.ticks && !(row.symbol == tick.symbol && row.sequence in chosen))
  {
    hide SortInts, IsStretch, Remembers, Remember, PlantGap, Record, Book, NewFill;
    var tracked := Track(s, tick);
    RememberNewest(Get(s.recent, tick.symbol, []), xs, tick.sequence);
    TradeCounts(tracked, tick, d);
    var booked := Book(tracked, NewFill(tracked, tick, d));
    var recorded := Record(booked, tick, d);
    RecordingKeepsRows(tracked, tick, d);
    SortedLength(Get(recorded.recent, tick.symbol, []));
    PlantDeletesStretch(recorded, tick.symbol, tick.time, d);
    if d.anomaly == Some(SequenceGap) && |Get(tracked.recent, tick.symbol, [])| >= 6 {
      var chosen :|
        && IsStretch(SortInts(Get(recorded.recent, tick.symbol, [])), chosen)
        && Deletes(recorded, PlantGap(recorded, tick.symbol, tick.time, d), tick.symbol, tick.time, chosen);
    }
  }

  lemma RecordingKeepsRows(s: State, tick: Tick, d: Draws)
    ensures var t := Record(Book(s, NewFill(s, tick, d)), tick, d);
            t.ticks == s.ticks && t.recent == s.recent
  {
    hide Snapshot, Bump, NewFill, InsertFill, Signed;
  }

  lemma SortedLength(xs: seq<int>)
    ensures |SortInts(xs)| == |xs|
  {
    SortIntsSorts(xs);
    assert |multiset(SortInts(xs))| == |SortInts(xs)| && |multiset(xs)| == |xs|;
  }

  lemma DeleteDeletes(s: State, symbol: Symbol, at: int, chosen: seq<int>)
    ensures Deletes(s, Delete(s, symbol, at, Elements(chosen)), symbol, at, chosen)
  {
    hide Returning, KeepOthers, Bump;
    var deleted := Returning(s.ticks, symbol, Elements(chosen));
    DeletedAre(s.ticks, symbol, chosen);
    if deleted == [] {
      forall tick | tick in s.ticks
        ensures !(tick.symbol == symbol && tick.sequence in chosen)
      {
        assert tick.sequence !in deleted;
      }
    } else {
      var (lo, hi) := Span(deleted);
      assert lo in deleted && hi in deleted;
      assert GoesAway(s.ticks, symbol, chosen, lo) && GoesAway(s.ticks, symbol, chosen, hi);
    }
  }
}
