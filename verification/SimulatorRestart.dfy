/** Several simulator instances over one book. Positions and execution sequences start again at zero
    with every instance, while the book keeps what earlier instances wrote.

    The main result says exactly when the reconciler reports the drifts that any number of instances
    planted and nothing else, however its sort breaks the ties between their equal sequences.
 */
module SimulatorRestart {
  import opened Models
  import opened Frames
  import opened Ledger
  import opened Stores
  import opened Simulation
  import opened SimulatedBook
  import opened Reconciliation
  import opened AnomalyDetection
  import opened SharedBook

  // ---------- One instance over an earlier book that is not read ----------

  /** The results about one instance hold over any earlier book as long as no earlier fill of the symbol
      is read and no earlier snapshot names a fill of this instance. */
  lemma {:induction false} DriftOverEarlierBook(
      ticks: seq<Tick>, fills: seq<Fill>, positions: seq<Position>, planted: seq<Planted>, events: seq<Event>,
      symbol: Symbol, start: int, end: int, window: int, tolerance: int, id: FillId)
    requires Feasible(events) && DrawsAreNew(fills, events)
    requires FillsAt(fills, symbol, start, end, window) == []
    requires forall p, e | p in positions && e in events && p.lastFillId.Some? :: !TradesAs(e, p.lastFillId.value)
    requires CoversBook(RunEvents(Fresh(ticks), events), symbol, start, end, window) && 0 <= tolerance < 10_000
    ensures var s := RunEvents(Begin(ticks, fills, positions, planted), events);
            (DriftedAt(s.fills, s.positions, symbol, start, end, window, tolerance, id)
             <==> Logged(RunEvents(Fresh(ticks), events).planted, symbol, PositionDrift, id))
  {
    hide RunEvents, DriftedAt, Logged, BookInvariant, CoversBook, Feasible, FillsAt;
    var own := RunEvents(Fresh(ticks), events);
    RunBehind(fills, positions, planted, ticks, events);
    EveryRunKeepsBook(ticks, events, symbol);
    forall p, f | p in positions && f in own.fills
      ensures p.lastFillId != Some(f.fillId)
    {
      FillsComeFromTicks(ticks, events, f);
    }
    UnreadBookIsHarmless(fills, positions, own, [], symbol, start, end, window, tolerance, id);
    DriftBreaksArePlanted(own, symbol, start, end, window, tolerance, id);
  }

  // ---------- The instances themselves ----------

  /** The stores after the instances ran one after another. */
  function Chain(ticks: seq<Tick>, instances: seq<seq<Event>>): State {
    if instances == [] then
      Begin(ticks, [], [], [])
    else
      var s := Chain(ticks, instances[..|instances| - 1]);
      RunEvents(Begin(s.ticks, s.fills, s.positions, s.planted), instances[|instances| - 1])
  }

  /** What the last instance did, by itself. */
  ghost function Own(ticks: seq<Tick>, instances: seq<seq<Event>>): State
    requires instances != []
  {
    RunEvents(Fresh(Chain(ticks, instances[..|instances| - 1]).ticks), instances[|instances| - 1])
  }

  function AllEvents(instances: seq<seq<Event>>): seq<Event> {
    if instances == [] then [] else AllEvents(instances[..|instances| - 1]) + instances[|instances| - 1]
  }

  ghost function Traders(ticks: seq<Tick>, instances: seq<seq<Event>>, symbol: Symbol): seq<Trader> {
    if instances == [] then
      []
    else
      var own := Own(ticks, instances);
      Traders(ticks, instances[..|instances| - 1], symbol)
      + [Trader(OfSymbol(own.fills, symbol), SnapshotsOf(own.positions, symbol), own.planted)]
  }

  predicate NoDrift(e: Event) {
    e.Observe? && e.draws.Some? ==> e.draws.value.anomaly != Some(PositionDrift)
  }

  lemma FeasibleParts(a: seq<Event>, b: seq<Event>)
    requires Feasible(a + b)
    ensures Feasible(a) && Feasible(b)
    ensures forall d, e, id | d in a && e in b && TradesAs(d, id) :: !TradesAs(e, id)
  {
    var all := a + b;
    assert forall i | 0 <= i < |a| :: all[i] == a[i];
    assert forall i | 0 <= i < |b| :: all[|a| + i] == b[i];
    forall e | e in a || e in b
      ensures e in all
    {
    }
    forall d, e, id | d in a && e in b && TradesAs(d, id)
      ensures !TradesAs(e, id)
    {
      var i :| 0 <= i < |a| && a[i] == d;
      var j :| 0 <= j < |b| && b[j] == e;
      assert all[i] == d && all[|a| + j] == e;
    }
  }

  lemma ChainGrows(ticks: seq<Tick>, instances: seq<seq<Event>>)
    requires instances != []
    requires DrawsAreNew(Chain(ticks, instances[..|instances| - 1]).fills, instances[|instances| - 1])
    ensures var s, own := Chain(ticks, instances[..|instances| - 1]), Own(ticks, instances);
            Chain(ticks, instances) == Behind(s.fills, s.positions, s.planted, own)
  {
    hide RunEvents;
    var s := Chain(ticks, instances[..|instances| - 1]);
    RunBehind(s.fills, s.positions, s.planted, s.ticks, instances[|instances| - 1]);
  }

  /** Every stored fill id was drawn by some event. */
  lemma {:induction false} ChainIds(ticks: seq<Tick>, instances: seq<seq<Event>>, f: Fill)
    requires Feasible(AllEvents(instances)) && f in Chain(ticks, instances).fills
    ensures exists e :: e in AllEvents(instances) && TradesAs(e, f.fillId)
    decreases |instances|, 1
  {
    hide RunEvents, Feasible;
    if instances != [] {
      var front, last := instances[..|instances| - 1], instances[|instances| - 1];
      FeasibleParts(AllEvents(front), last);
      LastDrawsAreNew(ticks, instances);
      ChainGrows(ticks, instances);
      if f in Chain(ticks, front).fills {
        ChainIds(ticks, front, f);
      } else {
        FillsComeFromTicks(Chain(ticks, front).ticks, last, f);
        var e :| e in last && TradedAt(e, f);
        assert TradesAs(e, f.fillId);
      }
    }
  }

  lemma LastDrawsAreNew(ticks: seq<Tick>, instances: seq<seq<Event>>)
    requires Feasible(AllEvents(instances)) && instances != []
    ensures DrawsAreNew(Chain(ticks, instances[..|instances| - 1]).fills, instances[|instances| - 1])
    decreases |instances|, 0
  {
    hide RunEvents, Feasible, Chain;
    var front, last := instances[..|instances| - 1], instances[|instances| - 1];
    FeasibleParts(AllEvents(front), last);
    forall e | e in last && e.Observe? && e.draws.Some?
      ensures !Known(Chain(ticks, front).fills, e.draws.value.fillId)
    {
      var id := e.draws.value.fillId;
      forall f | f in Chain(ticks, front).fills
        ensures f.fillId != id
      {
        ChainIds(ticks, front, f);
        var d :| d in AllEvents(front) && TradesAs(d, f.fillId);
        assert TradesAs(e, id);
      }
    }
  }

  /** The tables of a symbol are the instances' parts, one after another. */
  lemma {:induction false} ChainIsTraders(ticks: seq<Tick>, instances: seq<seq<Event>>, symbol: Symbol)
    requires Feasible(AllEvents(instances))
    ensures OfSymbol(Chain(ticks, instances).fills, symbol) == AllFills(Traders(ticks, instances, symbol))
    ensures SnapshotsOf(Chain(ticks, instances).positions, symbol) == AllSnapshots(Traders(ticks, instances, symbol))
  {
    hide RunEvents, Feasible, Keep;
    if instances == [] {
      NothingKept(symbol);
    } else {
      var front, last := instances[..|instances| - 1], instances[|instances| - 1];
      FeasibleParts(AllEvents(front), last);
      ChainIsTraders(ticks, front, symbol);
      LastDrawsAreNew(ticks, instances);
      ChainGrows(ticks, instances);
      var s, own := Chain(ticks, front), Own(ticks, instances);
      KeepConcat(s.fills, own.fills, IsFillOf(symbol));
      KeepConcat(s.positions, own.positions, IsSnapshotOf(symbol));
      var before := Traders(ticks, front, symbol);
      assert Traders(ticks, instances, symbol)[..|before|] == before;
    }
  }

  lemma NothingKept(symbol: Symbol)
    ensures OfSymbol([], symbol) == [] && SnapshotsOf([], symbol) == []
  {
  }

  lemma OwnIsKept(ticks: seq<Tick>, events: seq<Event>, symbol: Symbol)
    requires Feasible(events)
    ensures var own := RunEvents(Fresh(ticks), events);
            && Kept(Trader(OfSymbol(own.fills, symbol), SnapshotsOf(own.positions, symbol), own.planted))
            && LogIsExact(OfSymbol(own.fills, symbol), own.planted, symbol)
  {
    hide RunEvents, Consistent, LogIsExact, LogKnown, Sum;
    EveryRunKeepsBook(ticks, events, symbol);
  }

  lemma {:induction false} TradersAreBook(ticks: seq<Tick>, instances: seq<seq<Event>>, symbol: Symbol)
    requires Feasible(AllEvents(instances))
    ensures Shared(Traders(ticks, instances, symbol))
  {
    hide RunEvents, Feasible, Keep, Kept, Chain, LogIsExact;
    if instances != [] {
      var front, last := instances[..|instances| - 1], instances[|instances| - 1];
      FeasibleParts(AllEvents(front), last);
      TradersAreBook(ticks, front, symbol);
      OwnIsKept(Chain(ticks, front).ticks, last, symbol);
      var before, traders := Traders(ticks, front, symbol), Traders(ticks, instances, symbol);
      assert traders[..|before|] == before;
      forall j, f, g | 0 <= j < |before| && f in before[j].fills && g in traders[|before|].fills
        ensures f.fillId != g.fillId
      {
        IdsDiffer(ticks, instances, symbol, j, f, g);
      }
      BookOneMore(before, traders[|before|]);
    }
  }

  lemma BookOneMore(before: seq<Trader>, t: Trader)
    requires Shared(before) && Kept(t)
    requires forall j, f, g | 0 <= j < |before| && f in before[j].fills && g in t.fills :: f.fillId != g.fillId
    ensures Shared(before + [t])
  {
    hide Kept;
  }

  lemma IdsDiffer(
      ticks: seq<Tick>, instances: seq<seq<Event>>, symbol: Symbol, j: nat, f: Fill, g: Fill)
    requires instances != [] && Feasible(AllEvents(instances))
    requires var front := instances[..|instances| - 1];
             j < |Traders(ticks, front, symbol)| && f in Traders(ticks, front, symbol)[j].fills
    requires g in OfSymbol(Own(ticks, instances).fills, symbol)
    ensures f.fillId != g.fillId
  {
    hide RunEvents, Feasible, Keep, Chain, Traders, AllFills;
    var front, last := instances[..|instances| - 1], instances[|instances| - 1];
    FeasibleParts(AllEvents(front), last);
    InAllFills(Traders(ticks, front, symbol), f);
    ChainIsTraders(ticks, front, symbol);
    FillOfSymbol(Chain(ticks, front).fills, symbol, f);
    ChainIds(ticks, front, f);
    FillOfSymbol(Own(ticks, instances).fills, symbol, g);
    FillsComeFromTicks(Chain(ticks, front).ticks, last, g);
  }

  /** What a covering window reads. */
  lemma CoveredRead(s: State, symbol: Symbol, start: int, end: int, window: int)
    requires CoversBook(s, symbol, start, end, window)
    ensures FillsAt(s.fills, symbol, start, end, window) == OfSymbol(s.fills, symbol)
    ensures PositionsBetween(s.positions, symbol, start, end) == SnapshotsOf(s.positions, symbol)
  {
    KeepSame(s.fills, FillIn(symbol, start - window, end + window), IsFillOf(symbol));
    KeepSame(s.positions, PositionIn(symbol, start, end), IsSnapshotOf(symbol));
  }

  lemma LoggedInBoth(a: seq<Planted>, b: seq<Planted>, symbol: Symbol, kind: BreakType, id: FillId)
    ensures Logged(a + b, symbol, kind, id) <==> Logged(a, symbol, kind, id) || Logged(b, symbol, kind, id)
  {
    assert forall p :: p in a + b <==> p in a || p in b;
  }

  lemma FilledInBoth(a: seq<Fill>, b: seq<Fill>, kind: BreakType, id: FillId)
    ensures FilledWith(a + b, kind, id) <==> FilledWith(a, kind, id) || FilledWith(b, kind, id)
  {
    assert forall f :: f in a + b <==> f in a || f in b;
  }

  lemma NothingPlanted(symbol: Symbol, id: FillId)
    ensures !Logged([], symbol, PositionDrift, id) && !FilledWith([], PositionDrift, id)
  {
  }

  /** A drift was logged by some instance exactly for the fills planted with one. */
  lemma {:induction false} ChainLogIsExact(ticks: seq<Tick>, instances: seq<seq<Event>>, symbol: Symbol, id: FillId)
    requires Feasible(AllEvents(instances))
    ensures Logged(Chain(ticks, instances).planted, symbol, PositionDrift, id)
       <==> FilledWith(AllFills(Traders(ticks, instances, symbol)), PositionDrift, id)
  {
    hide RunEvents, Feasible, Keep, Logged, FilledWith, Kept;
    if instances == [] {
      NothingPlanted(symbol, id);
    } else {
      var front, last := instances[..|instances| - 1], instances[|instances| - 1];
      FeasibleParts(AllEvents(front), last);
      ChainLogIsExact(ticks, front, symbol, id);
      LastDrawsAreNew(ticks, instances);
      ChainGrows(ticks, instances);
      var s, own := Chain(ticks, front), Own(ticks, instances);
      OwnIsKept(s.ticks, last, symbol);
      LoggedInBoth(s.planted, own.planted, symbol, PositionDrift, id);
      var before, traders := Traders(ticks, front, symbol), Traders(ticks, instances, symbol);
      assert traders[..|before|] == before;
      FilledInBoth(AllFills(before), OfSymbol(own.fills, symbol), PositionDrift, id);
    }
  }

  /** Any number of instances and anything they planted, with a window over the whole book: every sort
      reports exactly the drifts that the instances logged if and only if no fill with a snapshot can be
      taken for another kind by what the other instances had sorted before it. */
  lemma RestartReportsPlantedIff(
      ticks: seq<Tick>, instances: seq<seq<Event>>, symbol: Symbol, start: int, end: int, window: int, tolerance: int)
    requires Feasible(AllEvents(instances))
    requires CoversBook(Chain(ticks, instances), symbol, start, end, window)
    ensures var s := Chain(ticks, instances);
            (ReportsLogged(FillsAt(s.fills, symbol, start, end, window),
                           PositionsBetween(s.positions, symbol, start, end), s.planted, symbol, tolerance)
             <==> AlwaysToldApart(Traders(ticks, instances, symbol), tolerance))
  {
    hide Chain, Traders, AlwaysToldApart, Shared, Feasible, CoversBook, FillsAt, Logged, FilledWith, DriftedFrom, Sorts;
    hide AllFills, AllSnapshots, Cumulative;
    var s, traders := Chain(ticks, instances), Traders(ticks, instances, symbol);
    CoveredRead(s, symbol, start, end, window);
    ChainIsTraders(ticks, instances, symbol);
    TradersAreBook(ticks, instances, symbol);
    OnlyPlantedIff(traders, tolerance);
    forall id
      ensures Logged(s.planted, symbol, PositionDrift, id) <==> FilledWith(AllFills(traders), PositionDrift, id)
    {
      ChainLogIsExact(ticks, instances, symbol, id);
    }
  }

  /** Whatever sort is picked, a drift is reported exactly for the ids logged with one. */
  ghost predicate ReportsLogged(
      fills: seq<Fill>, snapshots: seq<Position>, planted: seq<Planted>, symbol: Symbol, tolerance: int)
  {
    forall order, id | Sorts(order, fills) ::
      DriftedFrom(Cumulative(order), snapshots, tolerance, id) <==> Logged(planted, symbol, PositionDrift, id)
  }

  lemma {:induction false} NothingDrifts(ticks: seq<Tick>, instances: seq<seq<Event>>, symbol: Symbol)
    requires forall e | e in AllEvents(instances) :: NoDrift(e)
    ensures Undrifted(Traders(ticks, instances, symbol))
  {
    hide RunEvents, Keep, Chain;
    if instances != [] {
      var front, last := instances[..|instances| - 1], instances[|instances| - 1];
      assert forall e | e in AllEvents(front) || e in last :: e in AllEvents(instances);
      NothingDrifts(ticks, front, symbol);
      var own := Own(ticks, instances);
      forall f | f in OfSymbol(own.fills, symbol)
        ensures f.anomaly != Some(PositionDrift)
      {
        FillOfSymbol(own.fills, symbol, f);
        FillsComeFromTicks(Chain(ticks, front).ticks, last, f);
      }
    }
  }

  /** Any number of instances, any trades, unmatched fills and gaps, no planted drift, and a window over
      the whole book: no sort reports a drift if and only if the instances' trades of the symbol never
      mix. */
  lemma RestartIsSilentIff(
      ticks: seq<Tick>, instances: seq<seq<Event>>, symbol: Symbol, start: int, end: int, window: int, tolerance: int)
    requires Feasible(AllEvents(instances)) && forall e | e in AllEvents(instances) :: NoDrift(e)
    requires CoversBook(Chain(ticks, instances), symbol, start, end, window) && 0 <= tolerance < 500
    ensures var s := Chain(ticks, instances);
            (Silent(FillsAt(s.fills, symbol, start, end, window),
                    PositionsBetween(s.positions, symbol, start, end), tolerance)
             <==> NeverMixed(Traders(ticks, instances, symbol), tolerance))
  {
    hide Chain, Traders, Silent, NeverMixed, Shared, Feasible, CoversBook, FillsAt, Undrifted;
    CoveredRead(Chain(ticks, instances), symbol, start, end, window);
    ChainIsTraders(ticks, instances, symbol);
    TradersAreBook(ticks, instances, symbol);
    NothingDrifts(ticks, instances, symbol);
    SilentIff(Traders(ticks, instances, symbol), tolerance);
  }

  /** No sort reports a drift over any number of instances that each wrote a snapshot if and only if at
      most one of them traded the symbol. */
  lemma RestartLooksLikeDriftIff(
      ticks: seq<Tick>, instances: seq<seq<Event>>, symbol: Symbol, start: int, end: int, window: int, tolerance: int)
    requires Feasible(AllEvents(instances)) && forall e | e in AllEvents(instances) :: NoDrift(e)
    requires CoversBook(Chain(ticks, instances), symbol, start, end, window) && 0 <= tolerance < 500
    requires TradersRecorded(Traders(ticks, instances, symbol))
    ensures var s := Chain(ticks, instances);
            (Silent(FillsAt(s.fills, symbol, start, end, window),
                    PositionsBetween(s.positions, symbol, start, end), tolerance)
             <==> AtMostOneTraded(Traders(ticks, instances, symbol)))
  {
    hide *;
    RestartIsSilentIff(ticks, instances, symbol, start, end, window, tolerance);
    TradersAreBook(ticks, instances, symbol);
    OneTraderIff(Traders(ticks, instances, symbol), tolerance);
  }

  // ---------- Two trades of two instances ----------

  predicate Plain(d: Draws) {
    Possible(d) && d.anomaly == None
  }

  /** A plain first trade of an instance is a buy with sequence 1, whatever the book held before. */
  lemma FirstTradeOf(
      ticks: seq<Tick>, fills: seq<Fill>, positions: seq<Position>, planted: seq<Planted>, tick: Tick, d: Draws)
    requires Plain(d) && !Known(fills, d.fillId)
    ensures var s := RunEvents(Begin(ticks, fills, positions, planted), [Observe(tick, Some(d))]);
            && s.ticks == ticks && s.planted == planted
            && s.fills == fills + [Fill(d.fillId, 1, tick.symbol, 1, tick.price, d.quantity, Buy, tick.time, None)]
            && s.positions == positions + [Position(tick.symbol, d.quantity, tick.price, tick.time, Some(d.fillId))]
  {
  }

  lemma TwoFillOrders(order: seq<Fill>, f: Fill, g: Fill)
    requires Permutation(order, [f, g])
    ensures order == [f, g] || order == [g, f]
  {
    SameMembers(order, [f, g]);
    assert order[0] in [f, g] && order[1] in [f, g];
    assert order == [order[0], order[1]];
    assert multiset([f, g])[f] == multiset(order)[f] && multiset([f, g])[g] == multiset(order)[g];
  }

  lemma LaterOfTwoLooksDrifted(f: Fill, g: Fill, positions: seq<Position>, p: Position, tolerance: int)
    requires f.fillId != g.fillId && f.side == Buy && f.quantity > tolerance
    requires p in positions && p.lastFillId == Some(g.fillId) && p.quantity == Signed(g)
    ensures DriftedFrom(Cumulative([f, g]), positions, tolerance, g.fillId)
  {
    assert [f, g][..1] == [f] && [f][..0] == [];
    assert Sum([f]) == Signed(f);
    assert Sum([f, g]) == Signed(f) + Signed(g);
  }

  function TwoInstances(first: Tick, d: Draws, second: Tick, e: Draws): seq<seq<Event>> {
    [[Observe(first, Some(d))], [Observe(second, Some(e))]]
  }

  lemma TwoInstancesEnd(ticks: seq<Tick>, first: Tick, d: Draws, second: Tick, e: Draws) returns (f: Fill, g: Fill)
    requires Plain(d) && Plain(e) && d.fillId != e.fillId
    ensures var s := Chain(ticks, TwoInstances(first, d, second, e));
            && s.planted == [] && s.fills == [f, g]
            && s.positions == [Position(first.symbol, d.quantity, first.price, first.time, Some(d.fillId)),
                               Position(second.symbol, e.quantity, second.price, second.time, Some(e.fillId))]
    ensures f == Fill(d.fillId, 1, first.symbol, 1, first.price, d.quantity, Buy, first.time, None)
    ensures g == Fill(e.fillId, 1, second.symbol, 1, second.price, e.quantity, Buy, second.time, None)
  {
    hide RunEvents;
    var instances := TwoInstances(first, d, second, e);
    assert instances[..1] == [[Observe(first, Some(d))]] && instances[..1][..0] == [];
    assert Chain(ticks, []) == Begin(ticks, [], [], []);
    FirstTradeOf(ticks, [], [], [], first, d);
    var s := Chain(ticks, instances[..1]);
    assert s == RunEvents(Begin(ticks, [], [], []), [Observe(first, Some(d))]);
    f := Fill(d.fillId, 1, first.symbol, 1, first.price, d.quantity, Buy, first.time, None);
    g := Fill(e.fillId, 1, second.symbol, 1, second.price, e.quantity, Buy, second.time, None);
    assert s.fills == [f];
    FirstTradeOf(ticks, s.fills, s.positions, s.planted, second, e);
  }

  lemma TwoInstancesAreFeasible(first: Tick, d: Draws, second: Tick, e: Draws)
    requires Plain(d) && Plain(e) && d.fillId != e.fillId
    ensures Feasible(AllEvents(TwoInstances(first, d, second, e)))
    ensures forall event | event in AllEvents(TwoInstances(first, d, second, e)) :: NoDrift(event)
  {
    var instances := TwoInstances(first, d, second, e);
    assert instances[..1] == [[Observe(first, Some(d))]] && instances[..1][..0] == [];
    assert AllEvents(instances[..1]) == [Observe(first, Some(d))];
    assert AllEvents(instances) == [Observe(first, Some(d)), Observe(second, Some(e))];
  }

  ghost predicate EverySortReports(fills: seq<Fill>, snapshots: seq<Position>, tolerance: int) {
    forall order | Sorts(order, fills) :: exists id :: DriftedFrom(Cumulative(order), snapshots, tolerance, id)
  }

  /** Two plain trades of two instances on one symbol, read whole: nothing was planted, and yet every sort
      reports one of them as a drift. */
  lemma TwoTradesLookLikeDrift(
      ticks: seq<Tick>, first: Tick, d: Draws, second: Tick, e: Draws, start: int, end: int, window: int,
      tolerance: int)
    requires Plain(d) && Plain(e) && d.fillId != e.fillId && first.symbol == second.symbol
    requires start <= first.time <= end && start <= second.time <= end && window >= 0
    requires 0 <= tolerance < 1_000
    ensures var s := Chain(ticks, TwoInstances(first, d, second, e));
            && Feasible(AllEvents(TwoInstances(first, d, second, e)))
            && CoversBook(s, first.symbol, start, end, window) && s.planted == []
            && EverySortReports(FillsAt(s.fills, first.symbol, start, end, window),
                                PositionsBetween(s.positions, first.symbol, start, end), tolerance)
  {
    hide Chain, TwoInstances, Cumulative, DriftedFrom, FillsAt, PositionsBetween, Keep;
    var s := Chain(ticks, TwoInstances(first, d, second, e));
    TwoInstancesAreFeasible(first, d, second, e);
    var f, g := TwoInstancesEnd(ticks, first, d, second, e);
    CoveredRead(s, first.symbol, start, end, window);
    KeepWhole(s.fills, IsFillOf(first.symbol));
    KeepWhole(s.positions, IsSnapshotOf(first.symbol));
    forall order | Sorts(order, s.fills)
      ensures exists id :: DriftedFrom(Cumulative(order), s.positions, tolerance, id)
    {
      assert Permutation(order, [f, g]);
      TwoFillOrders(order, f, g);
      if order == [f, g] {
        LaterOfTwoLooksDrifted(f, g, s.positions, s.positions[1], tolerance);
        assert DriftedFrom(Cumulative(order), s.positions, tolerance, g.fillId);
      } else {
        LaterOfTwoLooksDrifted(g, f, s.positions, s.positions[0], tolerance);
        assert DriftedFrom(Cumulative(order), s.positions, tolerance, f.fillId);
      }
    }
  }
}
