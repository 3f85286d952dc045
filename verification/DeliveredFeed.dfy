/** End to end: what the reconciler says about ticks that the delivery protocol stored.

    For every run, with any number of groups and workers, crashes, reclaims, truncated batches and
    restarted ingestors, the numbers it reports missing are exactly those given out of which no message
    was written.
 */
module DeliveredFeed {
  import opened Models
  import opened Frames
  import opened SequenceGaps
  import opened Stores
  import opened Reconciliation
  import opened Delivery
  import opened DeliverySafety
  import opened DeliveryCounts
  import opened DeliveryOrder

  /** The symbol's stored sequences. */
  ghost function Stored(s: System, symbol: Symbol): set<int> {
    set row | row in s.table && row.tick.symbol == symbol :: row.tick.sequence
  }

  predicate Carries(stream: seq<Tick>, id: nat, symbol: Symbol, n: int) {
    id < |stream| && stream[id].symbol == symbol && stream[id].sequence == n
  }

  ghost predicate Written(s: System, id: nat) {
    exists row :: row in s.table && row.id == id
  }

  ghost predicate SomeoneWrote(s: System, symbol: Symbol, n: int) {
    exists id: nat :: Carries(s.stream, id, symbol, n) && Written(s, id)
  }

  /** Some message of the symbol carries number `n`, and of those that do no worker of any group has
      written one. */
  ghost predicate NeverWritten(s: System, symbol: Symbol, n: int) {
    && (exists id: nat :: Carries(s.stream, id, symbol, n))
    && (forall id: nat | Carries(s.stream, id, symbol, n) :: !Written(s, id))
  }

  /** What holds of every reachable state. */
  ghost predicate Sound(s: System, starts: seq<nat>) {
    Invariant(s) && NumberedFrom(s.stream, starts)
  }

  lemma EveryRunIsSound(trace: seq<Step>)
    ensures Sound(Run(EMPTY, trace), Starts(trace))
  {
    EveryRunKeepsInvariant(trace);
    EveryRunNumbers(trace);
  }

  lemma SoundIsNumbered(s: System, starts: seq<nat>)
    requires Sound(s, starts)
    ensures NumberedFrom(s.stream, starts) && Invariant(s)
  {
  }

  lemma RowMessage(s: System, row: Row)
    requires Invariant(s) && row in s.table
    ensures row.id < |s.stream| && row.tick == s.stream[row.id]
  {
    assert RowOk(s, row);
  }

  lemma WrittenRow(s: System, id: nat)
    requires Invariant(s) && Written(s, id) && id < |s.stream|
    ensures exists row :: row in s.table && row.tick == s.stream[id]
  {
    var row :| row in s.table && row.id == id;
    RowMessage(s, row);
  }

  /** A number is stored exactly when a message that carries it was written. */
  lemma StoredIffWritten(s: System, symbol: Symbol, n: int)
    requires Invariant(s)
    ensures n in Stored(s, symbol) <==> SomeoneWrote(s, symbol, n)
  {
    hide Invariant;
    if n in Stored(s, symbol) {
      var row :| row in s.table && row.tick.symbol == symbol && row.tick.sequence == n;
      RowMessage(s, row);
      assert Carries(s.stream, row.id, symbol, n) && Written(s, row.id);
    }
    if id: nat :| Carries(s.stream, id, symbol, n) && Written(s, id) {
      WrittenRow(s, id);
    }
  }

  lemma StoredMessage(s: System, symbol: Symbol, n: int) returns (id: nat)
    requires Invariant(s) && n in Stored(s, symbol)
    ensures Carries(s.stream, id, symbol, n) && Written(s, id)
  {
    hide Invariant, Stored, Written;
    StoredIffWritten(s, symbol, n);
    id :| Carries(s.stream, id, symbol, n) && Written(s, id);
  }

  lemma NumberIsPositive(stream: seq<Tick>, starts: seq<nat>, id: nat)
    requires NumberedFrom(stream, starts) && id < |stream|
    ensures 1 <= stream[id].sequence
  {
    hide NumberedStream;
    LastNumberIsCount(stream[starts[id]..id + 1]);
  }

  /** Up to any number that was given out, one is missing exactly when no message that carries it was
      written. */
  lemma AbsentIffNeverWritten(s: System, starts: seq<nat>, symbol: Symbol, n: int, top: nat)
    requires Sound(s, starts) && top < |s.stream| && s.stream[top].symbol == symbol
    requires 1 <= n <= s.stream[top].sequence
    ensures n !in Stored(s, symbol) <==> NeverWritten(s, symbol, n)
  {
    hide Sound, Stored, Written, NumberedFrom, Invariant;
    SoundIsNumbered(s, starts);
    var id := LowerNumbersCameBefore(s.stream, starts, top, n);
    assert Carries(s.stream, id, symbol, n);
    StoredIffWritten(s, symbol, n);
  }

  /** The never-written numbers strictly between the smallest and the largest stored one. */
  ghost function MissingBetweenStored(s: System, symbol: Symbol): set<int>
    requires Stored(s, symbol) != {}
  {
    set n | Least(Stored(s, symbol)) < n < Greatest(Stored(s, symbol)) && NeverWritten(s, symbol, n)
  }

  /** After any run, the total the reconciler reports missing is how many numbers of the symbol were given
      out, between the smallest and the largest stored one, of which no message was written; and these
      are the numbers inside its gaps. */
  lemma MissingIsNeverWritten(trace: seq<Step>, symbol: Symbol)
    requires Stored(Run(EMPTY, trace), symbol) != {}
    ensures var s := Run(EMPTY, trace);
            && TotalMissing(GapList(Stored(s, symbol))) == |MissingBetweenStored(s, symbol)|
            && MissingBetweenStored(s, symbol) == Interior(Stored(s, symbol))
  {
    hide Sound, Stored, NeverWritten, GapList, TotalMissing, Run, Invariant, NumberedFrom, Written;
    var s, starts := Run(EMPTY, trace), Starts(trace);
    var stored := Stored(s, symbol);
    EveryRunIsSound(trace);
    SoundIsNumbered(s, starts);
    var low := StoredMessage(s, symbol, Least(stored));
    var top := StoredMessage(s, symbol, Greatest(stored));
    NumberIsPositive(s.stream, starts, low);
    forall n | Least(stored) < n < Greatest(stored)
      ensures n !in stored <==> NeverWritten(s, symbol, n)
    {
      AbsentIffNeverWritten(s, starts, symbol, n, top);
    }
    assert MissingBetweenStored(s, symbol) == Interior(stored);
    ReportedMissingIsInterior(stored);
  }

  // ---------- Where the missing messages are ----------

  lemma AckedIsWritten(s: System, name: string, id: nat)
    requires Invariant(s) && name in s.groups && id in s.groups[name].acked
    ensures Written(s, id)
  {
  }

  lemma UnwrittenIsOutstanding(s: System, name: string, id: nat)
    requires Invariant(s) && name in s.groups && id < |s.stream| && !Written(s, id)
    ensures id !in s.groups[name].acked
    ensures id >= s.groups[name].cursor || id in s.groups[name].pending
  {
    if id in s.groups[name].acked {
      AckedIsWritten(s, name, id);
    }
    assert GroupSplit(s.groups[name], |s.stream|);
  }

  /** What the reconciler misses is outstanding in every group: every message that carries the number is
      not delivered yet, or pending. */
  lemma MissingIsOutstanding(trace: seq<Step>, symbol: Symbol, n: int, name: string)
    requires NeverWritten(Run(EMPTY, trace), symbol, n) && name in Run(EMPTY, trace).groups
    ensures var s := Run(EMPTY, trace);
            && (exists id: nat :: Carries(s.stream, id, symbol, n))
            && forall id: nat | Carries(s.stream, id, symbol, n) ::
                 && id !in s.groups[name].acked
                 && (id >= s.groups[name].cursor || id in s.groups[name].pending)
  {
    hide Run, Invariant, Written;
    var s := Run(EMPTY, trace);
    EveryRunKeepsInvariant(trace);
    forall id: nat | Carries(s.stream, id, symbol, n)
      ensures id !in s.groups[name].acked && (id >= s.groups[name].cursor || id in s.groups[name].pending)
    {
      UnwrittenIsOutstanding(s, name, id);
    }
  }

  lemma RowIsDelivered(s: System, row: Row)
    requires Invariant(s) && row in s.table
    ensures row.worker < |s.workers| && s.workers[row.worker].group in s.groups
    ensures row.id < s.groups[s.workers[row.worker].group].cursor
  {
    assert RowOk(s, row);
  }

  /** Lag alone never shows: when one group feeds the table, every number inside a gap belongs to a
      delivered message that is pending, held by a worker or stranded. */
  lemma GapsArePendingEntries(trace: seq<Step>, symbol: Symbol, n: int, name: string)
    requires var s := Run(EMPTY, trace);
             && name in s.groups
             && (forall row | row in s.table :: row.worker < |s.workers| && s.workers[row.worker].group == name)
             && Stored(s, symbol) != {} && n in Interior(Stored(s, symbol))
    ensures var s := Run(EMPTY, trace);
            exists id: nat :: Carries(s.stream, id, symbol, n) && id in s.groups[name].pending
  {
    hide Run, NumberedFrom, Invariant, Sound, Stored, NeverWritten;
    var s, starts := Run(EMPTY, trace), Starts(trace);
    EveryRunIsSound(trace);
    SoundIsNumbered(s, starts);
    MissingIsNeverWritten(trace, symbol);
    assert NeverWritten(s, symbol, n);
    var low := StoredMessage(s, symbol, Least(Stored(s, symbol)));
    NumberIsPositive(s.stream, starts, low);
    var top := StoredMessage(s, symbol, Greatest(Stored(s, symbol)));
    var row :| row in s.table && row.id == top;
    RowIsDelivered(s, row);
    var id := LowerNumbersCameBefore(s.stream, starts, top, n);
    MissingIsOutstanding(trace, symbol, n, name);
    assert Carries(s.stream, id, symbol, n);
  }

  /** The highest number of the symbol in the stream. */
  function Highest(stream: seq<Tick>, symbol: Symbol): int {
    if stream == [] then
      0
    else
      var rest, last := Highest(stream[..|stream| - 1], symbol), stream[|stream| - 1];
      if last.symbol == symbol && last.sequence > rest then last.sequence else rest
  }

  lemma {:induction false} HighestIsCarried(stream: seq<Tick>, symbol: Symbol)
    ensures forall id: nat | id < |stream| && stream[id].symbol == symbol ::
              stream[id].sequence <= Highest(stream, symbol)
    ensures Highest(stream, symbol) > 0 ==> exists id: nat :: Carries(stream, id, symbol, Highest(stream, symbol))
  {
    if stream != [] {
      var front, last := stream[..|stream| - 1], stream[|stream| - 1];
      HighestIsCarried(front, symbol);
      assert forall id: nat | id < |front| :: stream[id] == front[id];
      if Highest(stream, symbol) > 0 {
        if Highest(stream, symbol) == Highest(front, symbol) {
          var id: nat :| Carries(front, id, symbol, Highest(front, symbol));
          assert Carries(stream, id, symbol, Highest(stream, symbol));
        } else {
          assert Carries(stream, |front|, symbol, Highest(stream, symbol));
        }
      }
    }
  }

  /** A fully drained group means a whole feed: the stored numbers are 1 up to the highest one given out
      for the symbol, and the reconciler reports no gap. */
  lemma DrainedFeedHasNoGap(trace: seq<Step>, symbol: Symbol, name: string)
    requires name in Run(EMPTY, trace).groups
    requires Lag(Run(EMPTY, trace), name) == 0 && PendingCount(Run(EMPTY, trace), name) == 0
    ensures var s := Run(EMPTY, trace);
            && Stored(s, symbol) == Between(1, Highest(s.stream, symbol))
            && GapList(Stored(s, symbol)) == []
  {
    hide Run, NumberedFrom, GapList, Stored, Sound, NeverWritten, Invariant, Written;
    var s, starts := Run(EMPTY, trace), Starts(trace);
    var highest := Highest(s.stream, symbol);
    EveryRunIsSound(trace);
    SoundIsNumbered(s, starts);
    HighestIsCarried(s.stream, symbol);
    forall n
      ensures n in Stored(s, symbol) <==> 1 <= n <= highest
    {
      if n in Stored(s, symbol) {
        var id := StoredMessage(s, symbol, n);
        NumberIsPositive(s.stream, starts, id);
      } else if 1 <= n <= highest {
        var top: nat :| Carries(s.stream, top, symbol, highest);
        AbsentIffNeverWritten(s, starts, symbol, n, top);
        MissingIsOutstanding(trace, symbol, n, name);
        assert false;
      }
    }
    BlockIsWhole(Stored(s, symbol), highest);
  }

  lemma BlockIsWhole(stored: set<int>, count: int)
    requires forall n :: n in stored <==> 1 <= n <= count
    ensures stored == Between(1, count) && GapList(stored) == []
  {
    hide GapList;
    forall g
      ensures !IsGap(stored, g)
    {
      assert IsGap(stored, g) ==> g.prev + 1 !in stored;
    }
    NoGapNothingReported(stored);
  }

  /** Writing again what is already stored, as after a crash between write and acknowledgement,
      adds rows but no break. */
  lemma RedeliveryAddsNoBreak(s: System, w: nat, symbol: Symbol)
    requires Invariant(s) && Enabled(s, Write(w))
    requires forall e | e in s.workers[w].phase.batch :: Written(s, e.id)
    ensures Stored(DoWrite(s, w), symbol) == Stored(s, symbol)
    ensures GapList(Stored(DoWrite(s, w), symbol)) == GapList(Stored(s, symbol))
  {
  }

  // ---------- Which losses are reported ----------

  /** The number lies inside a gap that the reconciler reports. */
  ghost predicate Reported(s: System, symbol: Symbol, n: int) {
    exists g :: g in GapList(Stored(s, symbol)) && g.prev < n < g.curr
  }

  ghost predicate BetweenStored(s: System, symbol: Symbol, n: int) {
    (exists m :: m in Stored(s, symbol) && m < n) && (exists m :: m in Stored(s, symbol) && n < m)
  }

  lemma ReportedIffHole(s: System, symbol: Symbol, n: int)
    ensures Reported(s, symbol, n) <==> n !in Stored(s, symbol) && BetweenStored(s, symbol, n)
  {
    hide Stored, GapList;
    var stored := Stored(s, symbol);
    GapListIsExact(stored);
    if g :| g in GapList(stored) && g.prev < n < g.curr {
      assert IsGap(stored, g);
    }
    if n !in stored && BetweenStored(s, symbol, n) {
      var g := HoleLiesInAGap(stored, n);
      assert g in GapList(stored);
    }
  }

  /** A message of the symbol that was never written, with a number strictly between stored ones. */
  ghost predicate LostInside(s: System, symbol: Symbol, id: nat) {
    && id < |s.stream| && s.stream[id].symbol == symbol && !Written(s, id)
    && BetweenStored(s, symbol, s.stream[id].sequence)
  }

  /** A lost message is reported exactly when no other ingestor's message with its number was written:
      otherwise that one hides it. */
  lemma LossIsReportedIff(trace: seq<Step>, symbol: Symbol, id: nat)
    requires LostInside(Run(EMPTY, trace), symbol, id)
    ensures var s, starts := Run(EMPTY, trace), Starts(trace);
            && (Reported(s, symbol, s.stream[id].sequence) <==> !SomeoneWrote(s, symbol, s.stream[id].sequence))
            && |starts| == |s.stream|
            && (forall other: nat | Carries(s.stream, other, symbol, s.stream[id].sequence) && Written(s, other) ::
                  starts[other] != starts[id])
  {
    hide Run, NumberedFrom, Stored, Written, Invariant, GapList;
    var s, starts := Run(EMPTY, trace), Starts(trace);
    EveryRunKeepsInvariant(trace);
    EveryRunNumbers(trace);
    AsManyStarts(s.stream, starts);
    ReportedIffHole(s, symbol, s.stream[id].sequence);
    StoredIffWritten(s, symbol, s.stream[id].sequence);
    forall other: nat | Carries(s.stream, other, symbol, s.stream[id].sequence) && Written(s, other)
      ensures starts[other] != starts[id]
    {
      if starts[other] == starts[id] {
        OneCarrier(s.stream, starts, id, other);
      }
    }
  }

  lemma AsManyStarts(stream: seq<Tick>, starts: seq<nat>)
    requires NumberedFrom(stream, starts)
    ensures |starts| == |stream|
  {
  }

  /** Among one ingestor's messages of a symbol, a number names its message. */
  lemma OneCarrier(stream: seq<Tick>, starts: seq<nat>, i: nat, j: nat)
    requires NumberedFrom(stream, starts) && i < |stream| && j < |stream| && starts[i] == starts[j]
    requires stream[i].symbol == stream[j].symbol && stream[i].sequence == stream[j].sequence
    ensures i == j
  {
    hide NumberedStream;
    if i < j {
      NumbersGrowPerIngestor(stream, starts, i, j);
    } else if j < i {
      NumbersGrowPerIngestor(stream, starts, j, i);
    }
  }

  /** So every loss between stored numbers shows if and only if none of them shares its number with a
      message that was written. */
  lemma EveryLossShowsIff(trace: seq<Step>, symbol: Symbol)
    ensures var s := Run(EMPTY, trace);
            (forall id: nat | LostInside(s, symbol, id) :: Reported(s, symbol, s.stream[id].sequence))
            <==> (forall id: nat | LostInside(s, symbol, id) :: !SomeoneWrote(s, symbol, s.stream[id].sequence))
  {
    hide Run, Reported, LostInside, SomeoneWrote;
    var s := Run(EMPTY, trace);
    forall id: nat | LostInside(s, symbol, id)
      ensures id < |s.stream|
      ensures Reported(s, symbol, s.stream[id].sequence) <==> !SomeoneWrote(s, symbol, s.stream[id].sequence)
    {
      LostIsPublished(s, symbol, id);
      LossIsReportedIff(trace, symbol, id);
    }
  }

  lemma LostIsPublished(s: System, symbol: Symbol, id: nat)
    requires LostInside(s, symbol, id)
    ensures id < |s.stream|
  {
  }

  /** An ingestor that is never replaced hides nothing. */
  lemma OneIngestorShowsEveryLoss(trace: seq<Step>, symbol: Symbol, id: nat)
    requires NoRestart(trace) && LostInside(Run(EMPTY, trace), symbol, id)
    ensures Reported(Run(EMPTY, trace), symbol, Run(EMPTY, trace).stream[id].sequence)
  {
    hide Run, Reported, Written, BetweenStored;
    var s, starts := Run(EMPTY, trace), Starts(trace);
    OneIngestor(trace);
    LossIsReportedIff(trace, symbol, id);
    assert forall other: nat | other < |starts| :: starts[other] in starts;
  }

  /** The reconciler reports nothing at all exactly when every number between the smallest and the largest
      stored one was written by somebody, whichever ingestor gave it out. */
  lemma NothingReportedIff(trace: seq<Step>, symbol: Symbol)
    requires Stored(Run(EMPTY, trace), symbol) != {}
    ensures var s := Run(EMPTY, trace);
            GapList(Stored(s, symbol)) == []
            <==> forall n | Least(Stored(s, symbol)) <= n <= Greatest(Stored(s, symbol)) ::
                   SomeoneWrote(s, symbol, n)
  {
    hide Run, Stored, SomeoneWrote, Invariant, GapList;
    var s := Run(EMPTY, trace);
    EveryRunKeepsInvariant(trace);
    NothingReportedIffContiguous(Stored(s, symbol));
    forall n
      ensures n in Stored(s, symbol) <==> SomeoneWrote(s, symbol, n)
    {
      StoredIffWritten(s, symbol, n);
    }
  }

  // ---------- A restart that hides a loss ----------

  /** Two ticks, perhaps a new ingestor, and three more ticks. */
  function FiveTicks(symbol: Symbol, price: real, time: int, restart: bool): seq<Step> {
    var tick := Ingest(symbol, price, None, time);
    if restart then [tick, tick, Restart, tick, tick] + [tick] else [tick, tick, tick, tick, tick]
  }

  function Fed(symbol: Symbol, price: real, time: int, restart: bool): System {
    var t := (n: nat) => Tick(symbol, n, price, None, time);
    if restart then System(map[symbol := 3], [t(1), t(2), t(1), t(2), t(3)], map[], [], [])
    else System(map[symbol := 5], [t(1), t(2), t(3), t(4), t(5)], map[], [], [])
  }

  lemma FeedIsReached(symbol: Symbol, price: real, time: int, restart: bool)
    ensures Run(EMPTY, FiveTicks(symbol, price, time, restart)) == Fed(symbol, price, time, restart)
  {
    hide Run, DoRead, DoWrite, DoAck, DoClaim;
    var tick := Ingest(symbol, price, None, time);
    if restart {
      RunFive(EMPTY, tick, tick, Restart, tick, tick);
      RunOneMore([tick, tick, Restart, tick, tick], tick);
    } else {
      RunFive(EMPTY, tick, tick, tick, tick, tick);
    }
  }

  /** A worker with a cap of three reads four messages and leaves the fourth unwritten. */
  function CappedReader(name: string): seq<Step> {
    [Spawn(name, Limits(4, Some(3), None)), CheckRunning(0), Read(0), Write(0)]
  }

  /** Another worker reads the fifth. */
  function LastReader(name: string): seq<Step> {
    [Spawn(name, Limits(1, None, None)), CheckRunning(1), Read(1), Write(1)]
  }

  function AfterCapped(s: System, name: string): System
    requires |s.stream| == 5
  {
    var batch := EntriesBetween(s.stream, 0, 3);
    s.(groups := map[name := Group(4, Own(0, 4, 0), {})],
       workers := [Worker(name, Limits(4, Some(3), None), Phase.Stored(batch), true, 0, 0)],
       table := RowsOf(batch, 0))
  }

  lemma CappedReaderRuns(s: System, name: string)
    requires |s.stream| == 5 && s.groups == map[] && s.workers == [] && s.table == []
    ensures Run(s, CappedReader(name)) == AfterCapped(s, name)
  {
    hide Run, DoRead, DoAck, DoClaim, Own, RowsOf, EntriesBetween;
    var limits := Limits(4, Some(3), None);
    var polling := s.(groups := map[name := Group(0, map[], {})],
                      workers := [Worker(name, limits, Polling, true, 0, 0)]);
    RunFour(s, Spawn(name, limits), CheckRunning(0), Read(0), Write(0));
    assert Apply(Apply(s, Spawn(name, limits)), CheckRunning(0)) == polling;
    CappedRead(polling, name);
    assert [] + RowsOf(EntriesBetween(s.stream, 0, 3), 0) == RowsOf(EntriesBetween(s.stream, 0, 3), 0);
  }

  lemma CappedRead(s: System, name: string)
    requires |s.stream| == 5 && s.groups == map[name := Group(0, map[], {})]
    requires s.workers == [Worker(name, Limits(4, Some(3), None), Polling, true, 0, 0)]
    ensures Enabled(s, Read(0))
    ensures DoRead(s, 0)
         == s.(groups := map[name := Group(4, Own(0, 4, 0), {})],
               workers := [Worker(name, Limits(4, Some(3), None), Holding(EntriesBetween(s.stream, 0, 3)), true, 0, 0)])
  {
    hide Own;
    assert EntriesBetween(s.stream, 0, 4)[..3] == EntriesBetween(s.stream, 0, 3);
    assert map[] + Own(0, 4, 0) == Own(0, 4, 0);
  }

  lemma LastReaderRuns(s: System, name: string)
    requires |s.stream| == 5
    ensures var t := AfterCapped(s, name);
            && Run(t, LastReader(name)).stream == s.stream
            && Run(t, LastReader(name)).table == t.table + [Row(4, s.stream[4], 1)]
  {
    hide Run, DoAck, DoClaim, Own;
    var t := AfterCapped(s, name);
    RunFour(t, Spawn(name, Limits(1, None, None)), CheckRunning(1), Read(1), Write(1));
    assert EntriesBetween(s.stream, 4, 5) == [Entry(4, s.stream[4])];
    assert RowsOf([Entry(4, s.stream[4])], 1) == [Row(4, s.stream[4], 1)];
  }

  /** Five ticks of which the fourth is lost. */
  function LosingRun(symbol: Symbol, price: real, time: int, restart: bool, name: string): seq<Step> {
    FiveTicks(symbol, price, time, restart) + CappedReader(name) + LastReader(name)
  }

  lemma LosingRunEnds(symbol: Symbol, price: real, time: int, restart: bool, name: string)
    ensures var s, fed := Run(EMPTY, LosingRun(symbol, price, time, restart, name)), Fed(symbol, price, time, restart);
            && s.stream == fed.stream
            && s.table == [Row(0, fed.stream[0], 0), Row(1, fed.stream[1], 0), Row(2, fed.stream[2], 0),
                           Row(4, fed.stream[4], 1)]
  {
    hide Run, FiveTicks, CappedReader, LastReader;
    var fed := Fed(symbol, price, time, restart);
    FeedIsReached(symbol, price, time, restart);
    RunInTwo(EMPTY, FiveTicks(symbol, price, time, restart), CappedReader(name));
    RunInTwo(EMPTY, FiveTicks(symbol, price, time, restart) + CappedReader(name), LastReader(name));
    CappedReaderRuns(fed, name);
    LastReaderRuns(fed, name);
    assert EntriesBetween(fed.stream, 0, 3)
        == [Entry(0, fed.stream[0]), Entry(1, fed.stream[1]), Entry(2, fed.stream[2])];
  }

  /** The same loss, once with one ingestor and once with a restart after two ticks: the fourth message is
      written by nobody in either run, the reconciler reports it in the first and nothing in the second. */
  lemma RestartHidesLosses(symbol: Symbol, price: real, time: int, name: string)
    ensures var s := Run(EMPTY, LosingRun(symbol, price, time, false, name));
            LostInside(s, symbol, 3) && GapList(Stored(s, symbol)) == [Gap(3, 5)]
    ensures var s := Run(EMPTY, LosingRun(symbol, price, time, true, name));
            LostInside(s, symbol, 3) && GapList(Stored(s, symbol)) == []
  {
    hide Run, LosingRun, GapList, Fed;
    LosingRunIs(symbol, price, time, false, name);
    LosingRunIs(symbol, price, time, true, name);
    OnlyGapIs({1, 2, 3, 5}, Gap(3, 5));
    BlockIsWhole({1, 2, 3}, 3);
  }

  lemma LosingRunIs(symbol: Symbol, price: real, time: int, restart: bool, name: string)
    ensures var s := Run(EMPTY, LosingRun(symbol, price, time, restart, name));
            && Stored(s, symbol) == (if restart then {1, 2, 3} else {1, 2, 3, 5})
            && LostInside(s, symbol, 3)
  {
    hide Run, LosingRun;
    var s := Run(EMPTY, LosingRun(symbol, price, time, restart, name));
    LosingRunEnds(symbol, price, time, restart, name);
    assert s.table[0] in s.table && s.table[1] in s.table && s.table[2] in s.table && s.table[3] in s.table;
    assert 1 in Stored(s, symbol) && 2 in Stored(s, symbol) && 3 in Stored(s, symbol);
    assert !restart ==> 5 in Stored(s, symbol);
  }

  lemma OnlyGapIs(stored: set<int>, g: Gap)
    requires forall other :: IsGap(stored, other) <==> other == g
    ensures GapList(stored) == [g]
  {
    hide GapList;
    GapListIsExact(stored);
    var gaps := GapList(stored);
    assert g in gaps;
    assert forall i | 0 <= i < |gaps| :: gaps[i] in gaps;
    FirstTwoDiffer(gaps);
  }

  lemma FirstTwoDiffer(gaps: seq<Gap>)
    requires Ordered(gaps)
    ensures |gaps| >= 2 ==> gaps[0] != gaps[1]
  {
  }

  // ---------- Through the tick store and the reconciler ----------

  /** What `read_ticks` sees of the table. */
  function TicksOf(table: seq<Row>): seq<Tick> {
    seq(|table|, i requires 0 <= i < |table| => table[i].tick)
  }

  lemma ReadIsStored(s: System, symbol: Symbol, start: int, end: int)
    requires forall row | row in s.table && row.tick.symbol == symbol :: start <= row.tick.time <= end
    ensures SequencesOf(TicksBetween(TicksOf(s.table), symbol, start, end)) == Stored(s, symbol)
  {
    var ticks := TicksOf(s.table);
    forall t
      ensures t in TicksBetween(ticks, symbol, start, end)
         <==> t in ticks && t.symbol == symbol && start <= t.time <= end
    {
      KeepSelects(ticks, TickIn(symbol, start, end), t);
    }
    forall row | row in s.table
      ensures row.tick in ticks
    {
      var i :| 0 <= i < |s.table| && s.table[i] == row;
      assert ticks[i] == row.tick;
    }
    assert forall t :: t in ticks ==> exists row :: row in s.table && row.tick == t;
    assert forall n :: n in SequencesOf(TicksBetween(ticks, symbol, start, end)) <==> n in Stored(s, symbol);
  }

  /** Reconciling the table that any run left, with a window over all of it. */
  method ReconcileFeed(ghost trace: seq<Step>, reconciler: Reconciler, symbol: Symbol, start: int, end: int)
    returns (breaks: seq<Break>)
    requires reconciler.tickStore.rows == TicksOf(Run(EMPTY, trace).table)
    requires forall row | row in Run(EMPTY, trace).table && row.tick.symbol == symbol ::
               start - reconciler.tickMatchWindow <= row.tick.time <= end + reconciler.tickMatchWindow
    ensures var s := Run(EMPTY, trace);
            && GapsIn(breaks) == GapList(Stored(s, symbol))
            && (Stored(s, symbol) != {} ==> TotalMissing(GapsIn(breaks)) == |MissingBetweenStored(s, symbol)|)
            && (forall name | name in s.groups && Lag(s, name) == 0 && PendingCount(s, name) == 0 ::
                  GapsIn(breaks) == [])
  {
    hide Run, Stored, GapList, TotalMissing, GapsIn, TicksBetween, SequencesOf, UnmatchedAt, DriftedAt;
    hide MissingBetweenStored, Lag, PendingCount;
    breaks := reconciler.ReconcileSymbol(symbol, start, end);
    ghost var s := Run(EMPTY, trace);
    ReadIsStored(s, symbol, start - reconciler.tickMatchWindow, end + reconciler.tickMatchWindow);
    if Stored(s, symbol) != {} {
      MissingIsNeverWritten(trace, symbol);
    }
    forall name | name in s.groups && Lag(s, name) == 0 && PendingCount(s, name) == 0
      ensures GapsIn(breaks) == []
    {
      DrainedFeedHasNoGap(trace, symbol, name);
    }
  }
}
