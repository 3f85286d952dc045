/** The trade book simulator: a toy strategy that fills against the tick stream and plants known
    anomalies.

    `State` and `Step` describe one event as a function; the class performs it field by field on
    the two stores and is proved to do exactly that. Random choices and fresh ids are inputs.
 */
module Simulation {
  import opened Models
  import opened Ledger
  import opened SequenceGaps
  import opened Stores

  /** Fifteen minutes, in microseconds. */
  const SHIFT := 900_000_000

  /** How many sequences per symbol the simulator remembers. */
  const RECENT_LIMIT := 50

  /** The random choices behind one fill. `gapStart` stands for a uniform index choice. */
  datatype Draws = Draws(
    fillId: FillId,
    quantity: int,
    anomaly: Option<BreakType>,
    forward: bool,
    driftSize: int,
    driftUp: bool,
    gapStart: nat,
    gapLength: nat)

  predicate Possible(d: Draws) {
    && 1_000 <= d.quantity <= 50_000
    && 10_000 <= d.driftSize <= 100_000
    && 1 <= d.gapLength <= 3
  }

  /** What happens around the simulator: it observes a tick, and perhaps trades on it; or the
      workers land ticks in the table. */
  datatype Event =
    | Observe(tick: Tick, draws: Option<Draws>)
    | Land(ticks: seq<Tick>)

  datatype State = State(
    truePosition: map<Symbol, int>,
    avgPrice: map<Symbol, real>,
    lastPrice: map<Symbol, real>,
    recent: map<Symbol, seq<int>>,
    fillSequences: map<Symbol, nat>,
    ordersIssued: nat,
    fillsEmitted: nat,
    anomaliesPlanted: map<BreakType, nat>,
    fills: seq<Fill>,
    positions: seq<Position>,
    planted: seq<Planted>,
    ticks: seq<Tick>)

  function Get<V>(m: map<Symbol, V>, symbol: Symbol, default: V): V {
    if symbol in m then m[symbol] else default
  }

  function Bump(counts: map<BreakType, nat>, kind: BreakType): map<BreakType, nat> {
    counts[kind := (if kind in counts then counts[kind] else 0) + 1]
  }

  // ---------- One event, as a function of the state ----------

  function Remember(seqs: seq<int>, sequence: int): seq<int> {
    var longer := seqs + [sequence];
    if |longer| > RECENT_LIMIT then longer[|longer| - RECENT_LIMIT..] else longer
  }

  function Track(s: State, tick: Tick): State {
    s.(recent := s.recent[tick.symbol := Remember(Get(s.recent, tick.symbol, []), tick.sequence)])
  }

  function FillTimeOf(tick: Tick, d: Draws): int {
    if d.anomaly == Some(UnmatchedFill) then
      tick.time + if d.forward then SHIFT else -SHIFT
    else
      tick.time
  }

  function NewFill(s: State, tick: Tick, d: Draws): Fill {
    Fill(
      d.fillId,
      s.ordersIssued + 1,
      tick.symbol,
      Get(s.fillSequences, tick.symbol, 0) + 1,
      tick.price,
      d.quantity,
      if tick.price >= Get(s.lastPrice, tick.symbol, tick.price) then Buy else Sell,
      FillTimeOf(tick, d),
      d.anomaly)
  }

  function Book(s: State, fill: Fill): State {
    s.(lastPrice := s.lastPrice[fill.symbol := fill.price],
       ordersIssued := s.ordersIssued + 1,
       fillSequences := s.fillSequences[fill.symbol := Get(s.fillSequences, fill.symbol, 0) + 1],
       fills := InsertFill(s.fills, fill),
       truePosition := s.truePosition[fill.symbol := Get(s.truePosition, fill.symbol, 0) + Signed(fill)],
       avgPrice := s.avgPrice[fill.symbol := fill.price],
       fillsEmitted := s.fillsEmitted + 1)
  }

  function Drift(d: Draws): int {
    if d.anomaly == Some(PositionDrift) then (if d.driftUp then d.driftSize else -d.driftSize) else 0
  }

  function Snapshot(s: State, tick: Tick, d: Draws): Position {
    Position(tick.symbol, Get(s.truePosition, tick.symbol, 0) + Drift(d),
             Get(s.avgPrice, tick.symbol, 0.0), tick.time, Some(d.fillId))
  }

  /** Logs an unmatched fill or a drift. An unmatched fill gets no snapshot; every other fill gets one,
      and a drift is in that snapshot only: the true position is not drifted. */
  function Record(s: State, tick: Tick, d: Draws): State {
    var logged :=
      if d.anomaly == Some(UnmatchedFill) || d.anomaly == Some(PositionDrift) then
        s.(planted := s.planted + [Planted(d.anomaly.value, tick.symbol, tick.time, Some(d.fillId), Drift(d), None)],
           anomaliesPlanted := Bump(s.anomaliesPlanted, d.anomaly.value))
      else
        s;
    if d.anomaly == Some(UnmatchedFill) then logged
    else logged.(positions := s.positions + [Snapshot(s, tick, d)])
  }

  /** Where the deleted stretch starts: any index but the last three. */
  function GapStart(d: Draws, n: nat): (start: nat)
    requires n >= 6
    ensures start <= n - 4
  {
    d.gapStart % (n - 3)
  }

  /** The sequences a `sequence_gap` anomaly deletes: up to three neighbours among the remembered ones. */
  function ChosenGap(seqs: seq<int>, d: Draws): seq<int>
    requires |seqs| >= 6
  {
    var start := GapStart(d, |seqs|);
    seqs[start..Min(start + d.gapLength, |seqs|)]
  }

  function Delete(s: State, symbol: Symbol, at: int, chosen: set<int>): State {
    var deleted := Returning(s.ticks, symbol, chosen);
    var gone := s.(ticks := KeepOthers(s.ticks, symbol, chosen));
    if deleted == [] then
      gone
    else
      gone.(planted := s.planted + [Planted(SequenceGap, symbol, at, None, 0, Some(Span(deleted)))],
            anomaliesPlanted := Bump(s.anomaliesPlanted, SequenceGap))
  }

  function PlantGap(s: State, symbol: Symbol, at: int, d: Draws): State {
    var seqs := SortInts(Get(s.recent, symbol, []));
    if |seqs| < 6 then s else Delete(s, symbol, at, Elements(ChosenGap(seqs, d)))
  }

  function Span(xs: seq<int>): (r: (int, int))
    requires xs != []
    ensures forall x | x in xs :: r.0 <= x <= r.1
    ensures r.0 in xs && r.1 in xs
  {
    if |xs| == 1 then
      (xs[0], xs[0])
    else
      var rest := Span(xs[1..]);
      assert forall x | x in xs :: x == xs[0] || x in xs[1..];
      (Min(xs[0], rest.0), if xs[0] >= rest.1 then xs[0] else rest.1)
  }

  function Trade(s: State, tick: Tick, d: Draws): State {
    var recorded := Record(Book(s, NewFill(s, tick, d)), tick, d);
    if d.anomaly == Some(SequenceGap) then PlantGap(recorded, tick.symbol, tick.time, d) else recorded
  }

  function Step(s: State, e: Event): State {
    match e
    case Observe(tick, None) => Track(s, tick)
    case Observe(tick, Some(d)) => Trade(Track(s, tick), tick, d)
    case Land(ticks) => s.(ticks := s.ticks + ticks)
  }

  function RunEvents(s: State, events: seq<Event>): State {
    if events == [] then s else Step(RunEvents(s, events[..|events| - 1]), events[|events| - 1])
  }

  // ---------- What the simulator reads ----------

  /** A stream message, with the choices the simulator will make about it. */
  datatype Message = Message(id: nat, tick: Tick, draws: Option<Draws>)

  function Flat(batches: seq<seq<Message>>): seq<Message> {
    if batches == [] then [] else Flat(batches[..|batches| - 1]) + batches[|batches| - 1]
  }

  /** On how many of the messages the simulator trades. */
  function TradeCount(messages: seq<Message>): nat {
    if messages == [] then
      0
    else
      TradeCount(messages[..|messages| - 1]) + if messages[|messages| - 1].draws.Some? then 1 else 0
  }

  lemma {:induction false} TradeCountConcat(a: seq<Message>, b: seq<Message>)
    ensures TradeCount(a + b) == TradeCount(a) + TradeCount(b)
  {
    if b == [] {
      assert a + b == a;
    } else {
      TradeCountConcat(a, b[..|b| - 1]);
      assert (a + b)[..|a + b| - 1] == a + b[..|b| - 1];
    }
  }

  /** The last message was traded on and with it the limit was reached. */
  ghost predicate HitsLimit(before: nat, done: seq<Message>, maxFills: Option<nat>) {
    && maxFills.Some? && done != [] && done[|done| - 1].draws.Some?
    && before + TradeCount(done) >= maxFills.value
  }

  /** None of the first `n` messages made the simulator reach the limit. */
  ghost predicate BelowLimit(before: nat, done: seq<Message>, n: int, maxFills: Option<nat>) {
    forall k | 1 <= k <= n && k <= |done| :: !HitsLimit(before, done[..k], maxFills)
  }

  /** The `k`-th read was empty, and so were as many before it as the limit says. */
  ghost predicate IdleAt(batches: seq<seq<Message>>, k: nat, maxIdleReads: Option<nat>) {
    && maxIdleReads.Some? && 1 <= k <= |batches| && maxIdleReads.value <= k
    && batches[k - 1] == []
    && forall i | 0 <= i < |batches| && k - maxIdleReads.value <= i < k :: batches[i] == []
  }

  function Ids(messages: seq<Message>): seq<nat> {
    seq(|messages|, i requires 0 <= i < |messages| => messages[i].id)
  }

  function Observed(messages: seq<Message>): seq<Event> {
    seq(|messages|, i requires 0 <= i < |messages| => Observe(messages[i].tick, messages[i].draws))
  }

  lemma {:induction false} RunInTwo(s: State, a: seq<Event>, b: seq<Event>)
    ensures RunEvents(s, a + b) == RunEvents(RunEvents(s, a), b)
  {
    hide Step;
    if b == [] {
      assert a + b == a;
    } else {
      RunInTwo(s, a, b[..|b| - 1]);
      assert (a + b)[..|a + b| - 1] == a + b[..|b| - 1];
    }
  }

  lemma RunOnce(s: State, e: Event)
    ensures RunEvents(s, [e]) == Step(s, e)
  {
    hide Step;
    assert [e][..0] == [];
  }

  lemma RunOneMore(s: State, done: seq<Message>, message: Message)
    ensures Ids(done + [message]) == Ids(done) + [message.id]
    ensures RunEvents(s, Observed(done + [message]))
         == Step(RunEvents(s, Observed(done)), Observe(message.tick, message.draws))
  {
    var events := Observed(done + [message]);
    assert events[..|events| - 1] == Observed(done);
  }

  lemma ObservedInTwo(a: seq<Message>, b: seq<Message>)
    ensures Ids(a + b) == Ids(a) + Ids(b)
    ensures Observed(a + b) == Observed(a) + Observed(b)
  {
  }

  lemma {:induction false} FlatPrefix(batches: seq<seq<Message>>, i: nat)
    requires i < |batches|
    ensures Flat(batches[..i]) + batches[i] <= Flat(batches)
  {
    if i + 1 < |batches| {
      FlatPrefix(batches[..|batches| - 1], i);
      assert batches[..|batches| - 1][..i] == batches[..i];
    }
  }

  lemma FlatOneMore(batches: seq<seq<Message>>, batch: seq<Message>)
    ensures Flat(batches + [batch]) == Flat(batches) + batch
  {
    assert (batches + [batch])[..|batches|] == batches;
  }

  lemma OneMoreBatch(batches: seq<seq<Message>>, i: nat)
    requires i < |batches|
    ensures Flat(batches[..i + 1]) == Flat(batches[..i]) + batches[i]
    ensures Flat(batches[..i + 1]) <= Flat(batches)
  {
    hide Flat;
    FlatPrefix(batches, i);
    FlatOneMore(batches[..i], batches[i]);
    assert batches[..i + 1] == batches[..i] + [batches[i]];
  }

  // ---------- The simulator itself ----------

  class TradeBookSimulator {
    const tickStore: TickStore
    const bookStore: BookStore
    var truePosition: map<Symbol, int>
    var avgPrice: map<Symbol, real>
    var lastPrice: map<Symbol, real>
    var recentSequences: map<Symbol, seq<int>>
    var fillSequences: map<Symbol, nat>
    var ordersIssued: nat
    var fillsEmitted: nat
    var anomaliesPlanted: map<BreakType, nat>

    ghost function Current(): State
      reads this, tickStore, bookStore
    {
      State(
        truePosition, avgPrice, lastPrice, recentSequences, fillSequences, ordersIssued, fillsEmitted,
        anomaliesPlanted, bookStore.fills, bookStore.positions, bookStore.planted, tickStore.rows)
    }

    constructor (tickStore: TickStore, bookStore: BookStore)
      ensures this.tickStore == tickStore && this.bookStore == bookStore
      ensures Current() == Begin(tickStore.rows, bookStore.fills, bookStore.positions, bookStore.planted)
    {
      this.tickStore, this.bookStore := tickStore, bookStore;
      truePosition, avgPrice, lastPrice := map[], map[], map[];
      recentSequences, fillSequences := map[], map[];
      ordersIssued, fillsEmitted := 0, 0;
      anomaliesPlanted := NONE_PLANTED;
    }

    method TrackSequence(tick: Tick)
      modifies this`recentSequences
      ensures Current() == Track(old(Current()), tick)
    {
      var seqs := if tick.symbol in recentSequences then recentSequences[tick.symbol] else [];
      seqs := seqs + [tick.sequence];
      if |seqs| > RECENT_LIMIT {
        seqs := seqs[|seqs| - RECENT_LIMIT..];
      }
      recentSequences := recentSequences[tick.symbol := seqs];
    }

    method ApplyFill(fill: Fill)
      modifies this`truePosition, this`avgPrice
      ensures truePosition == old(truePosition)[fill.symbol := Get(old(truePosition), fill.symbol, 0) + Signed(fill)]
      ensures avgPrice == old(avgPrice)[fill.symbol := fill.price]
    {
      var delta := if fill.side == Buy then fill.quantity else -fill.quantity;
      var before := if fill.symbol in truePosition then truePosition[fill.symbol] else 0;
      truePosition := truePosition[fill.symbol := before + delta];
      avgPrice := avgPrice[fill.symbol := fill.price];
    }

    method WritePosition(symbol: Symbol, time: int, fillId: FillId, quantityOverride: Option<int>)
      requires symbol in truePosition
      modifies bookStore`positions
      ensures bookStore.positions
           == old(bookStore.positions)
              + [Position(symbol, if quantityOverride.Some? then quantityOverride.value else truePosition[symbol],
                          Get(avgPrice, symbol, 0.0), time, Some(fillId))]
    {
      var quantity := if quantityOverride.Some? then quantityOverride.value else truePosition[symbol];
      var price := if symbol in avgPrice then avgPrice[symbol] else 0.0;
      bookStore.WritePosition(Position(symbol, quantity, price, time, Some(fillId)));
    }

    method PlantSequenceGap(symbol: Symbol, at: int, d: Draws)
      modifies this`anomaliesPlanted, bookStore`planted, tickStore
      ensures Current() == PlantGap(old(Current()), symbol, at, d)
    {
      var seqs := SortInts(if symbol in recentSequences then recentSequences[symbol] else []);
      if |seqs| < 6 {
        return;
      }
      var start := GapStart(d, |seqs|);
      var gapSeqs := seqs[start..Min(start + d.gapLength, |seqs|)];
      assert gapSeqs == ChosenGap(seqs, d);
      var deleted := tickStore.DeleteSequences(symbol, gapSeqs);
      if deleted != [] {
        bookStore.LogPlanted(Planted(SequenceGap, symbol, at, None, 0, Some(Span(deleted))));
        anomaliesPlanted := Bump(anomaliesPlanted, SequenceGap);
      }
      assert Current() == Delete(old(Current()), symbol, at, Elements(gapSeqs));
    }

    method MakeFill(tick: Tick, d: Draws) returns (fill: Fill)
      modifies this`lastPrice, this`ordersIssued, this`fillSequences
      ensures fill == NewFill(old(Current()), tick, d)
      ensures lastPrice == old(lastPrice)[tick.symbol := tick.price]
      ensures ordersIssued == old(ordersIssued) + 1
      ensures fillSequences == old(fillSequences)[tick.symbol := Get(old(fillSequences), tick.symbol, 0) + 1]
    {
      var priorPrice := if tick.symbol in lastPrice then lastPrice[tick.symbol] else tick.price;
      var side := if tick.price >= priorPrice then Buy else Sell;
      lastPrice := lastPrice[tick.symbol := tick.price];
      ordersIssued := ordersIssued + 1;
      var sequence := (if tick.symbol in fillSequences then fillSequences[tick.symbol] else 0) + 1;
      fillSequences := fillSequences[tick.symbol := sequence];
      var time := tick.time;
      if d.anomaly == Some(UnmatchedFill) {
        time := tick.time + if d.forward then SHIFT else -SHIFT;
      }
      fill := Fill(d.fillId, ordersIssued, tick.symbol, sequence, tick.price, d.quantity, side, time, d.anomaly);
    }

    method WriteFill(tick: Tick, d: Draws)
      modifies this, bookStore`fills
      ensures Current() == Book(old(Current()), NewFill(old(Current()), tick, d))
      ensures fillsEmitted == old(fillsEmitted) + 1
    {
      var fill := MakeFill(tick, d);
      bookStore.WriteFill(fill);
      ApplyFill(fill);
      fillsEmitted := fillsEmitted + 1;
    }

    method WriteSnapshot(tick: Tick, d: Draws)
      requires tick.symbol in truePosition
      modifies this`anomaliesPlanted, bookStore`planted, bookStore`positions
      ensures Current() == Record(old(Current()), tick, d)
    {
      if d.anomaly == Some(UnmatchedFill) {
        bookStore.LogPlanted(Planted(UnmatchedFill, tick.symbol, tick.time, Some(d.fillId), 0, None));
        anomaliesPlanted := Bump(anomaliesPlanted, UnmatchedFill);
      } else if d.anomaly == Some(PositionDrift) {
        var drift := if d.driftUp then d.driftSize else -d.driftSize;
        var drifted := truePosition[tick.symbol] + drift;
        bookStore.LogPlanted(Planted(PositionDrift, tick.symbol, tick.time, Some(d.fillId), drift, None));
        anomaliesPlanted := Bump(anomaliesPlanted, PositionDrift);
        WritePosition(tick.symbol, tick.time, d.fillId, Some(drifted));
      } else {
        WritePosition(tick.symbol, tick.time, d.fillId, None);
      }
    }

    method GenerateFill(tick: Tick, d: Draws)
      modifies this, bookStore, tickStore
      ensures Current() == Trade(old(Current()), tick, d)
      ensures fillsEmitted == old(fillsEmitted) + 1
    {
      WriteFill(tick, d);
      ghost var booked := Current();
      assert tick.symbol in booked.truePosition;
      WriteSnapshot(tick, d);
      if d.anomaly == Some(SequenceGap) {
        PlantSequenceGap(tick.symbol, tick.time, d);
      }
    }

    method HandleMessage(msg: Message)
      modifies this, bookStore, tickStore
      ensures Current() == Step(old(Current()), Observe(msg.tick, msg.draws))
      ensures fillsEmitted == old(fillsEmitted) + if msg.draws.Some? then 1 else 0
    {
      TrackSequence(msg.tick);
      if msg.draws.Some? {
        GenerateFill(msg.tick, msg.draws.value);
      }
    }

    /** Stops right after the trade that reaches the fill limit, and not before. */
    method HandleBatch(batch: seq<Message>, maxFills: Option<nat>)
      returns (acked: seq<nat>, stop: bool, ghost done: seq<Message>)
      modifies this, bookStore, tickStore
      ensures done <= batch && (stop || done == batch)
      ensures acked == Ids(done)
      ensures Current() == RunEvents(old(Current()), Observed(done))
      ensures fillsEmitted == old(fillsEmitted) + TradeCount(done)
      ensures stop ==> maxFills.Some? && HitsLimit(old(fillsEmitted), done, maxFills)
      ensures BelowLimit(old(fillsEmitted), done, if stop then |done| - 1 else |done|, maxFills)
    {
      hide Step;
      acked, stop, done := [], false, [];
      for j := 0 to |batch|
        invariant done == batch[..j] && acked == Ids(done)
        invariant Current() == RunEvents(old(Current()), Observed(done))
        invariant fillsEmitted == old(fillsEmitted) + TradeCount(done)
        invariant BelowLimit(old(fillsEmitted), done, |done|, maxFills)
      {
        var msg := batch[j];
        acked := acked + [msg.id];
        RunOneMore(old(Current()), done, msg);
        BelowBefore(old(fillsEmitted), done, msg, maxFills);
        done := done + [msg];
        assert done[..|done| - 1] == batch[..j];
        HandleMessage(msg);
        if msg.draws.Some? && maxFills.Some? && fillsEmitted >= maxFills.value {
          stop := true;
          return;
        }
        assert done[..|done|] == done;
      }
    }

    /** Handles a batch after the messages of `before`. */
    method ContinueWith(batch: seq<Message>, maxFills: Option<nat>, ghost start: State, ghost before: seq<Message>)
      returns (acked: seq<nat>, stop: bool, ghost done: seq<Message>)
      requires Current() == RunEvents(start, Observed(before))
      requires fillsEmitted == start.fillsEmitted + TradeCount(before)
      requires BelowLimit(start.fillsEmitted, before, |before|, maxFills)
      modifies this, bookStore, tickStore
      ensures before <= done <= before + batch && (stop || done == before + batch)
      ensures Ids(before) + acked == Ids(done)
      ensures Current() == RunEvents(start, Observed(done))
      ensures fillsEmitted == start.fillsEmitted + TradeCount(done)
      ensures stop ==> maxFills.Some? && HitsLimit(start.fillsEmitted, done, maxFills)
      ensures BelowLimit(start.fillsEmitted, done, if stop then |done| - 1 else |done|, maxFills)
    {
      hide Step, HitsLimit, BelowLimit, TradeCount, Ids, Observed;
      ghost var handled;
      acked, stop, handled := HandleBatch(batch, maxFills);
      done := before + handled;
      ObservedInTwo(before, handled);
      RunInTwo(start, Observed(before), Observed(handled));
      TradeCountConcat(before, handled);
      LimitsConcat(start.fillsEmitted, before, handled, if stop then |handled| - 1 else |handled|, maxFills);
    }

    /** Processes messages one at a time, acknowledging each before acting on it, until the fill
        limit or the idle limit is reached or the given batches run out; the fills emitted are returned.
        Messages of the last batch that were not reached stay unacknowledged. */
    method Run(batches: seq<seq<Message>>, maxFills: Option<nat>, maxIdleReads: Option<nat>)
      returns (emitted: nat, acked: seq<nat>, ghost done: seq<Message>, seen: nat)
      modifies this, bookStore, tickStore
      ensures seen <= |batches| && done <= Flat(batches[..seen]) <= Flat(batches)
      ensures acked == Ids(done)
      ensures Current() == RunEvents(old(Current()), Observed(done))
      ensures emitted == fillsEmitted == old(fillsEmitted) + TradeCount(done)
      ensures BelowLimit(old(fillsEmitted), done, |done| - 1, maxFills)
      ensures forall k | 0 <= k < seen :: !IdleAt(batches, k, maxIdleReads)
      ensures || HitsLimit(old(fillsEmitted), done, maxFills)
              || (done == Flat(batches[..seen]) && (seen == |batches| || IdleAt(batches, seen, maxIdleReads)))
      ensures maxFills == None && maxIdleReads == None ==> done == Flat(batches)
    {
      hide Step, HitsLimit, IdleAt, BelowLimit, TradeCount, Ids, Observed, RunEvents, Flat;
      NothingYet(old(fillsEmitted), batches, maxFills, maxIdleReads);
      acked, done, seen := [], [], 0;
      var idle := 0;
      while seen < |batches|
        invariant seen <= |batches| && done == Flat(batches[..seen]) && acked == Ids(done)
        invariant Current() == RunEvents(old(Current()), Observed(done))
        invariant fillsEmitted == old(fillsEmitted) + TradeCount(done)
        invariant BelowLimit(old(fillsEmitted), done, |done|, maxFills)
        invariant idle <= seen && forall i | seen - idle <= i < seen :: batches[i] == []
        invariant idle < seen ==> batches[seen - idle - 1] != []
        invariant forall k | 0 <= k <= seen :: !IdleAt(batches, k, maxIdleReads)
      {
        OneMoreBatch(batches, seen);
        if batches[seen] == [] {
          idle, seen := idle + 1, seen + 1;
          IdleIs(batches, seen, idle, maxIdleReads);
          assert done + [] == done;
          if maxIdleReads.Some? && idle >= maxIdleReads.value {
            FewerBelow(old(fillsEmitted), done, maxFills);
            return fillsEmitted, acked, done, seen;
          }
        } else {
          var ids, stop;
          ids, stop, done := ContinueWith(batches[seen], maxFills, old(Current()), done);
          idle, seen := 0, seen + 1;
          IdleIs(batches, seen, idle, maxIdleReads);
          acked := acked + ids;
          if stop {
            return fillsEmitted, acked, done, seen;
          }
        }
      }
      emitted := fillsEmitted;
      FewerBelow(old(fillsEmitted), done, maxFills);
      assert batches[..|batches|] == batches;
    }
  }

  lemma NothingYet(
      before: nat, batches: seq<seq<Message>>, maxFills: Option<nat>, maxIdleReads: Option<nat>)
    ensures BelowLimit(before, [], 0, maxFills) && TradeCount([]) == 0 && !IdleAt(batches, 0, maxIdleReads)
    ensures Ids([]) == [] && Flat(batches[..0]) == [] && forall s :: RunEvents(s, Observed([])) == s
  {
  }

  lemma FewerBelow(before: nat, done: seq<Message>, maxFills: Option<nat>)
    requires BelowLimit(before, done, |done|, maxFills)
    ensures BelowLimit(before, done, |done| - 1, maxFills)
  {
  }

  lemma BelowBefore(before: nat, done: seq<Message>, message: Message, maxFills: Option<nat>)
    requires BelowLimit(before, done, |done|, maxFills)
    ensures BelowLimit(before, done + [message], |done|, maxFills)
    ensures TradeCount(done + [message]) == TradeCount(done) + if message.draws.Some? then 1 else 0
  {
    hide HitsLimit;
    var longer := done + [message];
    assert longer[..|done|] == done;
    forall k | 1 <= k <= |done|
      ensures !HitsLimit(before, longer[..k], maxFills)
    {
      assert longer[..k] == done[..k];
    }
  }

  lemma {:induction false} HitsSuffix(before: nat, a: seq<Message>, b: seq<Message>, maxFills: Option<nat>)
    requires b != []
    ensures HitsLimit(before, a + b, maxFills) <==> HitsLimit(before + TradeCount(a), b, maxFills)
  {
    hide TradeCount;
    TradeCountConcat(a, b);
    assert (a + b)[|a + b| - 1] == b[|b| - 1];
  }

  lemma {:induction false} LimitsConcat(before: nat, a: seq<Message>, b: seq<Message>, n: int, maxFills: Option<nat>)
    requires BelowLimit(before, a, |a|, maxFills) && n <= |b|
    requires BelowLimit(before + TradeCount(a), b, n, maxFills)
    ensures BelowLimit(before, a + b, |a| + n, maxFills)
    ensures HitsLimit(before + TradeCount(a), b, maxFills) ==> HitsLimit(before, a + b, maxFills)
  {
    HitsNonempty(before + TradeCount(a), b, maxFills);
    hide HitsLimit, TradeCount;
    if b != [] {
      HitsSuffix(before, a, b, maxFills);
    }
    forall k | 1 <= k <= |a| + n && k <= |a + b|
      ensures !HitsLimit(before, (a + b)[..k], maxFills)
    {
      if k <= |a| {
        assert (a + b)[..k] == a[..k];
      } else {
        assert (a + b)[..k] == a + b[..k - |a|];
        HitsSuffix(before, a, b[..k - |a|], maxFills);
      }
    }
  }

  lemma HitsNonempty(before: nat, done: seq<Message>, maxFills: Option<nat>)
    ensures HitsLimit(before, done, maxFills) ==> done != []
  {
  }

  /** How many of the reads so far were empty in a row decides whether the idle limit is reached. */
  lemma IdleIs(batches: seq<seq<Message>>, seen: nat, idle: nat, maxIdleReads: Option<nat>)
    requires seen <= |batches| && idle <= seen
    requires forall i | seen - idle <= i < seen :: batches[i] == []
    requires idle < seen ==> batches[seen - idle - 1] != []
    ensures IdleAt(batches, seen, maxIdleReads) <==> maxIdleReads.Some? && idle >= 1 && idle >= maxIdleReads.value
  {
  }

  const NONE_PLANTED: map<BreakType, nat> := map[UnmatchedFill := 0, PositionDrift := 0, SequenceGap := 0]

  /** A new instance starts its positions and its numbering from nothing, over whatever is stored. */
  function Begin(ticks: seq<Tick>, fills: seq<Fill>, positions: seq<Position>, planted: seq<Planted>): State {
    State(map[], map[], map[], map[], map[], 0, 0, NONE_PLANTED, fills, positions, planted, ticks)
  }
}
