/** Order: without reclaims, every worker writes in stream order, so the delivered prefix of the
    stream is a shuffle of the workers' rows, their held batches and the stranded entries; and the
    per-symbol numbering of the ingestor survives inside every worker.
 */
module DeliveryOrder {
  import opened Models
  import opened Ingestor
  import opened Delivery
  import opened DeliverySafety
  import opened DeliveryCounts

  // ---------- The ingestor numbers each symbol 1, 2, 3, ... ----------

  function CountOf(stream: seq<Tick>, symbol: Symbol): nat {
    if stream == [] then
      0
    else
      CountOf(stream[..|stream| - 1], symbol) + Once(stream[|stream| - 1].symbol == symbol)
  }

  /** Every tick carries the number of ticks of its symbol up to and including itself. */
  ghost predicate NumberedStream(stream: seq<Tick>) {
    forall i | 0 <= i < |stream| :: stream[i].sequence == CountOf(stream[..i], stream[i].symbol) + 1
  }

  ghost predicate CountersMatch(sequences: map<Symbol, nat>, stream: seq<Tick>) {
    forall symbol :: (if symbol in sequences then sequences[symbol] else 0) == CountOf(stream, symbol)
  }

  lemma CountOneMore(stream: seq<Tick>, tick: Tick, symbol: Symbol)
    ensures CountOf(stream + [tick], symbol) == CountOf(stream, symbol) + Once(tick.symbol == symbol)
  {
  }

  lemma AppendKeepsNumbering(
      sequences: map<Symbol, nat>, stream: seq<Tick>, symbol: Symbol, price: real, size: Option<real>, time: int)
    requires NumberedStream(stream) && CountersMatch(sequences, stream)
    ensures var (after, outcome) := Normalize(sequences, Some(symbol), Priced(price, size, time));
            && outcome.Accepted?
            && NumberedStream(stream + [outcome.tick]) && CountersMatch(after, stream + [outcome.tick])
  {
    var (after, outcome) := Normalize(sequences, Some(symbol), Priced(price, size, time));
    var longer := stream + [outcome.tick];
    forall i | 0 <= i < |longer|
      ensures longer[i].sequence == CountOf(longer[..i], longer[i].symbol) + 1
    {
      assert longer[..i] == if i < |stream| then stream[..i] else stream;
    }
    forall other
      ensures (if other in after then after[other] else 0) == CountOf(longer, other)
    {
      CountOneMore(stream, outcome.tick, other);
    }
  }

  /** How long the stream was when the current ingestor started. */
  function StartOf(trace: seq<Step>): nat {
    if trace == [] then
      0
    else
      var front, last := trace[..|trace| - 1], trace[|trace| - 1];
      if last.Restart? then |Run(EMPTY, front).stream| else StartOf(front)
  }

  /** For each message, how long the stream was when the ingestor that published it started. */
  function Starts(trace: seq<Step>): seq<nat> {
    if trace == [] then
      []
    else
      var front, last := trace[..|trace| - 1], trace[|trace| - 1];
      Starts(front) + if last.Ingest? then [StartOf(front)] else []
  }

  /** Every ingestor numbers what it publishes 1, 2, 3, ... per symbol. */
  ghost predicate NumberedFrom(stream: seq<Tick>, starts: seq<nat>) {
    && |starts| == |stream|
    && forall i | 0 <= i < |stream| :: starts[i] <= i && NumberedStream(stream[starts[i]..i + 1])
  }

  lemma {:induction false} EveryRunNumbers(trace: seq<Step>)
    ensures NumberedFrom(Run(EMPTY, trace).stream, Starts(trace))
    ensures StartOf(trace) <= |Run(EMPTY, trace).stream|
    ensures NumberedStream(Run(EMPTY, trace).stream[StartOf(trace)..])
    ensures CountersMatch(Run(EMPTY, trace).sequences, Run(EMPTY, trace).stream[StartOf(trace)..])
  {
    hide NumberedStream, CountersMatch, Normalize, NumberedFrom;
    if trace == [] {
      NothingNumbered();
    } else {
      var front, last := trace[..|trace| - 1], trace[|trace| - 1];
      var s, starts, start := Run(EMPTY, front), Starts(front), StartOf(front);
      EveryRunNumbers(front);
      match last
      case Ingest(symbol, price, size, time) =>
        var own := s.stream[start..];
        AppendKeepsNumbering(s.sequences, own, symbol, price, size, time);
        var tick := Normalize(s.sequences, Some(symbol), Priced(price, size, time)).1.tick;
        assert (s.stream + [tick])[start..] == own + [tick];
        OneMoreNumbered(s.stream, starts, start, tick);
      case Restart =>
        assert s.stream[|s.stream|..] == [];
        assert starts + [] == starts;
        NothingNumbered();
      case _ =>
        assert starts + [] == starts;
        OnlyIngestPublishes(s, last);
    }
  }

  lemma OneMoreNumbered(stream: seq<Tick>, starts: seq<nat>, start: nat, tick: Tick)
    requires NumberedFrom(stream, starts) && start <= |stream|
    requires NumberedStream(stream[start..] + [tick])
    ensures NumberedFrom(stream + [tick], starts + [start])
  {
    hide NumberedStream;
    var longer, after := stream + [tick], starts + [start];
    forall i | 0 <= i < |longer|
      ensures after[i] <= i && NumberedStream(longer[after[i]..i + 1])
    {
      if i < |stream| {
        assert longer[after[i]..i + 1] == stream[starts[i]..i + 1];
      } else {
        assert longer[after[i]..i + 1] == stream[start..] + [tick];
      }
    }
  }

  lemma NothingNumbered()
    ensures NumberedStream([]) && CountersMatch(map[], []) && NumberedFrom([], [])
  {
  }

  lemma OnlyIngestPublishes(s: System, step: Step)
    requires !step.Ingest? && !step.Restart?
    ensures Apply(s, step).stream == s.stream && Apply(s, step).sequences == s.sequences
  {
  }

  /** As long as the first ingestor is not replaced, it published everything. */
  ghost predicate NoRestart(trace: seq<Step>) {
    forall step | step in trace :: !step.Restart?
  }

  lemma {:induction false} OneIngestor(trace: seq<Step>)
    requires NoRestart(trace)
    ensures StartOf(trace) == 0 && forall start | start in Starts(trace) :: start == 0
  {
    if trace != [] {
      var front, last := trace[..|trace| - 1], trace[|trace| - 1];
      assert last in trace && forall step | step in front :: step in trace;
      OneIngestor(front);
    }
  }

  lemma {:induction false} CountGrows(stream: seq<Tick>, i: nat, symbol: Symbol)
    requires i <= |stream|
    ensures CountOf(stream[..i], symbol) <= CountOf(stream, symbol)
  {
    if i < |stream| {
      assert stream[..|stream| - 1][..i] == stream[..i];
      CountGrows(stream[..|stream| - 1], i, symbol);
    } else {
      assert stream[..i] == stream;
    }
  }

  /** Within a symbol, earlier in the stream is lower in sequence, with no number used twice. */
  lemma NumberingFollowsStream(stream: seq<Tick>, i: nat, j: nat)
    requires NumberedStream(stream) && i < j < |stream| && stream[i].symbol == stream[j].symbol
    ensures 1 <= stream[i].sequence < stream[j].sequence <= CountOf(stream, stream[j].symbol)
  {
    hide CountOf;
    var symbol := stream[i].symbol;
    CountThrough(stream, i);
    CountThrough(stream, j);
    assert stream[..j][..i + 1] == stream[..i + 1];
    CountGrows(stream[..j], i + 1, symbol);
    CountGrows(stream, j + 1, symbol);
  }

  lemma CountThrough(stream: seq<Tick>, i: nat)
    requires i < |stream|
    ensures CountOf(stream[..i + 1], stream[i].symbol) == CountOf(stream[..i], stream[i].symbol) + 1
  {
    assert stream[..i + 1] == stream[..i] + [stream[i]];
    CountOneMore(stream[..i], stream[i], stream[i].symbol);
  }

  /** Every number from 1 to the symbol's count is carried by one message. */
  lemma {:induction false} NumberIsCarried(stream: seq<Tick>, symbol: Symbol, n: nat) returns (id: nat)
    requires NumberedStream(stream) && 1 <= n <= CountOf(stream, symbol)
    ensures id < |stream| && stream[id].symbol == symbol && stream[id].sequence == n
  {
    var front, last := stream[..|stream| - 1], stream[|stream| - 1];
    if n <= CountOf(front, symbol) {
      assert forall i :: 0 <= i < |front| ==> front[i] == stream[i] && front[..i] == stream[..i];
      id := NumberIsCarried(front, symbol, n);
    } else {
      id := |stream| - 1;
    }
  }

  /** Among one ingestor's messages of a symbol, later in the stream is higher in sequence. */
  lemma NumbersGrowPerIngestor(stream: seq<Tick>, starts: seq<nat>, i: nat, j: nat)
    requires NumberedFrom(stream, starts) && i < j < |stream|
    requires starts[i] == starts[j] && stream[i].symbol == stream[j].symbol
    ensures 1 <= stream[i].sequence < stream[j].sequence
  {
    hide NumberedStream;
    NumberingFollowsStream(stream[starts[j]..j + 1], i - starts[j], j - starts[j]);
  }

  /** Below every number its ingestor gave out all lower ones before, starting with 1. */
  lemma LowerNumbersCameBefore(stream: seq<Tick>, starts: seq<nat>, i: nat, n: nat) returns (id: nat)
    requires NumberedFrom(stream, starts) && i < |stream| && 1 <= n <= stream[i].sequence
    ensures starts[i] <= id <= i && stream[id].symbol == stream[i].symbol && stream[id].sequence == n
  {
    hide NumberedStream, CountOf;
    var own := stream[starts[i]..i + 1];
    LastNumberIsCount(own);
    var k := NumberIsCarried(own, stream[i].symbol, n);
    id := starts[i] + k;
  }

  lemma LastNumberIsCount(stream: seq<Tick>)
    requires NumberedStream(stream) && stream != []
    ensures var last := stream[|stream| - 1];
            1 <= last.sequence == CountOf(stream, last.symbol)
  {
  }

  // ---------- Workers write in stream order ----------

  ghost predicate RowsInOrder(table: seq<Row>) {
    forall a, b | 0 <= a < b < |table| :: table[a].worker == table[b].worker ==> table[a].id < table[b].id
  }

  /** What a worker holds comes after everything it wrote. */
  ghost predicate HeldAfter(table: seq<Row>, worker: Worker, w: nat) {
    worker.phase.Holding? ==>
      forall row, e | row in table && row.worker == w && e in worker.phase.batch :: row.id < e.id
  }

  ghost predicate WorkerOrder(s: System) {
    RowsInOrder(s.table) && forall w | 0 <= w < |s.workers| :: HeldAfter(s.table, s.workers[w], w)
  }

  lemma ReadKeepsOrder(s: System, w: nat)
    requires Invariant(s) && WorkerOrder(s) && Enabled(s, Read(w))
    ensures WorkerOrder(DoRead(s, w))
  {
    hide Invariant, RowsInOrder, Truncate, EntriesBetween;
    var worker, g := s.workers[w], s.groups[s.workers[w].group];
    var end := ReadEnd(g, s.stream, worker.limits.readBatchSize);
    OwnRowsBelowCursor(s, w);
    if end > g.cursor {
      var entries := EntriesBetween(s.stream, g.cursor, end);
      EntriesAreFrom(s.stream, g.cursor, end);
      TruncateIsPrefix(entries, worker.limits, worker.processed);
      assert forall e | e in Truncate(entries, worker.limits, worker.processed) :: e in entries;
    }
  }

  lemma OwnRowsBelowCursor(s: System, w: nat)
    requires Invariant(s) && w < |s.workers| && s.workers[w].group in s.groups
    ensures s.groups[s.workers[w].group].cursor <= |s.stream|
    ensures forall row | row in s.table && row.worker == w :: row.id < s.groups[s.workers[w].group].cursor
  {
    assert GroupSplit(s.groups[s.workers[w].group], |s.stream|);
    forall row | row in s.table && row.worker == w
      ensures row.id < s.groups[s.workers[w].group].cursor
    {
      assert RowOk(s, row);
    }
  }

  lemma WriteKeepsOrder(s: System, w: nat)
    requires Invariant(s) && WorkerOrder(s) && Enabled(s, Write(w))
    ensures WorkerOrder(DoWrite(s, w))
  {
    hide Invariant, RowsInOrder;
    var batch := s.workers[w].phase.batch;
    WorkerIsOk(s, w);
    RowsStayInOrder(s.table, batch, w);
  }

  lemma WorkerIsOk(s: System, w: nat)
    requires Invariant(s) && w < |s.workers|
    ensures WorkerOk(s, s.workers[w])
  {
  }

  /** A batch of increasing ids, all above what its worker wrote, can be written. */
  lemma RowsStayInOrder(table: seq<Row>, batch: seq<Entry>, w: nat)
    requires RowsInOrder(table) && IncreasingIds(batch)
    requires forall row, e | row in table && row.worker == w && e in batch :: row.id < e.id
    ensures RowsInOrder(table + RowsOf(batch, w))
  {
  }

  lemma QuietStepKeepsOrder(s: System, t: System)
    requires WorkerOrder(s) && t.table == s.table && |s.workers| <= |t.workers|
    requires forall v | 0 <= v < |s.workers| :: t.workers[v].phase.Holding? ==> t.workers[v].phase == s.workers[v].phase
    requires forall v | |s.workers| <= v < |t.workers| :: !t.workers[v].phase.Holding?
    ensures WorkerOrder(t)
  {
  }

  lemma StepKeepsOrder(s: System, step: Step)
    requires Invariant(s) && WorkerOrder(s) && !step.Claim?
    ensures WorkerOrder(Apply(s, step))
  {
    hide Invariant, WorkerOrder, DoRead, DoWrite;
    var t := Apply(s, step);
    if Enabled(s, step) {
      match step
      case Read(w) => ReadKeepsOrder(s, w);
      case Write(w) => WriteKeepsOrder(s, w);
      case Ingest(_, _, _, _) => QuietStepKeepsOrder(s, t);
      case Restart => QuietStepKeepsOrder(s, t);
      case CreateGroup(_) => QuietStepKeepsOrder(s, t);
      case Spawn(_, _) => QuietStepKeepsOrder(s, t);
      case CheckRunning(_) => QuietStepKeepsOrder(s, t);
      case Ack(_) => QuietStepKeepsOrder(s, t);
      case Signal(_) => QuietStepKeepsOrder(s, t);
      case Crash(_) => QuietStepKeepsOrder(s, t);
    }
  }

  lemma {:induction false} RunKeepsOrder(trace: seq<Step>)
    requires NoReclaim(trace)
    ensures WorkerOrder(Run(EMPTY, trace))
  {
    if trace != [] {
      var front := trace[..|trace| - 1];
      RunKeepsOrder(front);
      EveryRunKeepsInvariant(front);
      StepKeepsOrder(Run(EMPTY, front), trace[|trace| - 1]);
    }
  }

  /** What became of a delivered message in its group, without reclaims. */
  datatype Place =
    | Written(a: nat)     // the row's position in the table
    | Held(w: nat)
    | Stranded            // delivered to a worker that stopped, crashed or cut its batch short

  ghost predicate At(s: System, name: string, id: nat, place: Place) {
    match place
    case Written(a) => a < |s.table| && WrittenFor(s, s.table[a], name, id)
    case Held(w) => w < |s.workers| && Holds(s.workers[w], name, id)
    case Stranded =>
      && name in s.groups && id in s.groups[name].pending
      && RowCount(s.table, s.workers, name, id) == 0 && HeldCount(s.workers, name, id) == 0
  }

  lemma {:induction false} CountedRowExists(
      table: seq<Row>, workers: seq<Worker>, name: string, id: nat) returns (a: nat)
    requires RowCount(table, workers, name, id) >= 1
    ensures a < |table| && WritesFor(table[a], workers, name, id)
  {
    a := |table| - 1;
    if !WritesFor(table[a], workers, name, id) {
      a := CountedRowExists(table[..|table| - 1], workers, name, id);
    }
  }

  lemma {:induction false} CountedHolderExists(workers: seq<Worker>, name: string, id: nat) returns (w: nat)
    requires HeldCount(workers, name, id) >= 1
    ensures w < |workers| && Holds(workers[w], name, id)
  {
    w := |workers| - 1;
    if !Holds(workers[w], name, id) {
      w := CountedHolderExists(workers[..|workers| - 1], name, id);
    }
  }

  lemma {:induction false} TwoHoldersCountTwice(workers: seq<Worker>, name: string, id: nat, v: nat, w: nat)
    requires v < w < |workers| && Holds(workers[v], name, id) && Holds(workers[w], name, id)
    ensures HeldCount(workers, name, id) >= 2
  {
    if w < |workers| - 1 {
      TwoHoldersCountTwice(workers[..|workers| - 1], name, id, v, w);
    } else {
      HolderCounts(workers[..|workers| - 1], name, id, v);
    }
  }

  lemma {:induction false} TwoRowsCountTwice(
      table: seq<Row>, workers: seq<Worker>, name: string, id: nat, a: nat, b: nat)
    requires a < b < |table| && WritesFor(table[a], workers, name, id) && WritesFor(table[b], workers, name, id)
    ensures RowCount(table, workers, name, id) >= 2
  {
    if b < |table| - 1 {
      TwoRowsCountTwice(table[..|table| - 1], workers, name, id, a, b);
    } else {
      assert table[a] in table[..|table| - 1];
      RowIsCounted(table[..|table| - 1], workers, name, id, table[a]);
    }
  }

  /** The shuffle: without reclaims every delivered message is in exactly one place, and each
      worker's rows followed by its held batch are in stream order. */
  lemma DeliveredPrefixIsShuffled(trace: seq<Step>, name: string, id: nat)
    requires NoReclaim(trace) && Delivered(Run(EMPTY, trace), name, id)
    ensures WorkerOrder(Run(EMPTY, trace))
    ensures exists place :: At(Run(EMPTY, trace), name, id, place)
    ensures forall p, q :: At(Run(EMPTY, trace), name, id, p) && At(Run(EMPTY, trace), name, id, q) ==> p == q
  {
    hide Invariant, WorkerOrder, Run;
    var s := Run(EMPTY, trace);
    RunKeepsOrder(trace);
    DeliveredOnce(trace, name, id);
    SomePlace(s, name, id);
    forall p, q | At(s, name, id, p) && At(s, name, id, q)
      ensures p == q
    {
      OnePlace(s, name, id, p, q);
    }
  }

  lemma SomePlace(s: System, name: string, id: nat)
    requires name in s.groups
    requires RowCount(s.table, s.workers, name, id) + HeldCount(s.workers, name, id) == 0
      ==> id in s.groups[name].pending
    ensures exists place :: At(s, name, id, place)
  {
    if RowCount(s.table, s.workers, name, id) >= 1 {
      var a := CountedRowExists(s.table, s.workers, name, id);
      assert At(s, name, id, Written(a));
    } else if HeldCount(s.workers, name, id) >= 1 {
      var w := CountedHolderExists(s.workers, name, id);
      assert At(s, name, id, Held(w));
    } else {
      assert At(s, name, id, Stranded);
    }
  }

  lemma OnePlace(s: System, name: string, id: nat, p: Place, q: Place)
    requires RowCount(s.table, s.workers, name, id) + HeldCount(s.workers, name, id) <= 1
    requires At(s, name, id, p) && At(s, name, id, q)
    ensures p == q
  {
    hide RowCount, HeldCount;
    match p
    case Written(a) =>
      RowIsCounted(s.table, s.workers, name, id, s.table[a]);
      match q {
        case Written(b) =>
          if a < b {
            TwoRowsCountTwice(s.table, s.workers, name, id, a, b);
          } else if b < a {
            TwoRowsCountTwice(s.table, s.workers, name, id, b, a);
          }
        case Held(w) => HolderCounts(s.workers, name, id, w);
        case Stranded =>
      }
    case Held(v) =>
      HolderCounts(s.workers, name, id, v);
      match q {
        case Written(b) => RowIsCounted(s.table, s.workers, name, id, s.table[b]);
        case Held(w) =>
          if v < w {
            TwoHoldersCountTwice(s.workers, name, id, v, w);
          } else if w < v {
            TwoHoldersCountTwice(s.workers, name, id, w, v);
          }
        case Stranded =>
      }
    case Stranded =>
      match q {
        case Written(b) => RowIsCounted(s.table, s.workers, name, id, s.table[b]);
        case Held(w) => HolderCounts(s.workers, name, id, w);
        case Stranded =>
      }
  }

  // ---------- Stranded entries ----------

  lemma {:induction false} NoRowsCounted(table: seq<Row>, workers: seq<Worker>, name: string, id: nat)
    requires forall row | row in table :: !WritesFor(row, workers, name, id)
    ensures RowCount(table, workers, name, id) == 0
  {
    if table != [] {
      assert table[|table| - 1] in table;
      NoRowsCounted(table[..|table| - 1], workers, name, id);
    }
  }

  lemma {:induction false} NoHoldersCounted(workers: seq<Worker>, name: string, id: nat)
    requires forall worker | worker in workers :: !Holds(worker, name, id)
    ensures HeldCount(workers, name, id) == 0
  {
    if workers != [] {
      assert workers[|workers| - 1] in workers;
      NoHoldersCounted(workers[..|workers| - 1], name, id);
    }
  }

  lemma NothingAtOrAboveCursor(s: System, name: string, id: nat)
    requires Invariant(s) && name in s.groups && id >= s.groups[name].cursor
    ensures RowCount(s.table, s.workers, name, id) == 0 && HeldCount(s.workers, name, id) == 0
  {
    hide RowCount, HeldCount;
    forall row | row in s.table
      ensures !WritesFor(row, s.workers, name, id)
    {
      assert RowOk(s, row);
    }
    forall worker | worker in s.workers
      ensures !Holds(worker, name, id)
    {
      var w :| 0 <= w < |s.workers| && s.workers[w] == worker;
      assert WorkerOk(s, s.workers[w]);
    }
    NoRowsCounted(s.table, s.workers, name, id);
    NoHoldersCounted(s.workers, name, id);
  }

  /** A message cap cuts what was read: the tail is delivered and pending, and nobody holds it. */
  lemma CutTailIsStranded(s: System, w: nat, id: nat)
    requires Invariant(s) && Enabled(s, Read(w))
    requires var worker := s.workers[w];
             var g := s.groups[worker.group];
             var end := ReadEnd(g, s.stream, worker.limits.readBatchSize);
             g.cursor <= id < end && id !in IdsOf(BatchOf(DoRead(s, w).workers[w]))
    ensures At(DoRead(s, w), s.workers[w].group, id, Stranded)
  {
    hide Invariant, Truncate, EntriesBetween, RowCount, HeldCount, IdsOf;
    var t, name := DoRead(s, w), s.workers[w].group;
    NothingAtOrAboveCursor(s, name, id);
    HeldCountUpdate(s.workers, w, t.workers[w], name, id);
    TableWorkers(s);
    RowCountSameGroups(s.table, s.workers, t.workers, name, id);
  }

  /** Without reclaims, a batch held by a worker that crashes is stranded. */
  lemma CrashStrandsBatch(trace: seq<Step>, w: nat, name: string, id: nat)
    requires NoReclaim(trace) && Enabled(Run(EMPTY, trace), Crash(w))
    requires Holds(Run(EMPTY, trace).workers[w], name, id)
    ensures At(Run(EMPTY, trace + [Crash(w)]), name, id, Stranded)
  {
    hide RowCount, HeldCount, Invariant, Run;
    var s := Run(EMPTY, trace);
    EveryRunKeepsInvariant(trace);
    RunOneMore(trace, Crash(w));
    var t := Run(EMPTY, trace + [Crash(w)]);
    HeldIsDelivered(s, w, name, id);
    assert Delivered(t, name, id);
    DeliveredOnce(trace, name, id);
    DeliveredOnce(trace + [Crash(w)], name, id);
    SetWorkerCopies(s, t, w, name, id);
  }

  lemma HeldIsDelivered(s: System, w: nat, name: string, id: nat)
    requires Invariant(s) && w < |s.workers| && Holds(s.workers[w], name, id)
    ensures Delivered(s, name, id)
  {
  }

  lemma StrandedStaysOneStep(s: System, step: Step, name: string, id: nat)
    requires Invariant(s) && !step.Claim? && At(s, name, id, Stranded)
    ensures At(Apply(s, step), name, id, Stranded)
  {
    hide RowCount, HeldCount, Apply;
    var t := Apply(s, step);
    assert GroupSplit(s.groups[name], |s.stream|);
    StepCopies(s, step, name, id);
    ApplyExtends(s, step);
    StepKeepsInvariant(s, step);
    assert GroupSplit(t.groups[name], |t.stream|);
    if id in t.groups[name].acked {
      assert HasRow(t, name, id);
      HasRowIsCounted(t, name, id);
      assert false;
    }
  }

  /** A stranded message is never written again: no worker loop reclaims, so only a separate reclaim
      can bring it back, whatever else happens. */
  lemma {:induction false} StrandedUntilReclaimed(trace: seq<Step>, more: seq<Step>, name: string, id: nat)
    requires At(Run(EMPTY, trace), name, id, Stranded) && NoReclaim(more)
    ensures At(Run(EMPTY, trace + more), name, id, Stranded)
  {
    hide At, Apply;
    if more == [] {
      assert trace + more == trace;
    } else {
      var front, last := more[..|more| - 1], more[|more| - 1];
      assert last in more;
      StrandedUntilReclaimed(trace, front, name, id);
      EveryRunKeepsInvariant(trace + front);
      StrandedStaysOneStep(Run(EMPTY, trace + front), last, name, id);
      assert trace + more == (trace + front) + [last];
      RunOneMore(trace + front, last);
    }
  }

  /** Per-symbol order survives inside every worker: what it writes later has a higher sequence, among
      the messages of one ingestor. */
  lemma SequenceOrderSurvives(trace: seq<Step>, a: nat, b: nat)
    requires NoReclaim(trace)
    requires var table := Run(EMPTY, trace).table;
             && a < b < |table| && table[a].worker == table[b].worker
             && table[a].tick.symbol == table[b].tick.symbol
    ensures var table, starts := Run(EMPTY, trace).table, Starts(trace);
            && table[a].id < |starts| && table[b].id < |starts|
            && (starts[table[a].id] == starts[table[b].id] ==> table[a].tick.sequence < table[b].tick.sequence)
  {
    hide NumberedStream;
    var s, starts := Run(EMPTY, trace), Starts(trace);
    RunKeepsOrder(trace);
    EveryRunKeepsInvariant(trace);
    EveryRunNumbers(trace);
    assert s.table[a] in s.table && s.table[b] in s.table;
    assert RowOk(s, s.table[a]) && RowOk(s, s.table[b]);
    if starts[s.table[a].id] == starts[s.table[b].id] {
      NumbersGrowPerIngestor(s.stream, starts, s.table[a].id, s.table[b].id);
    }
  }

  // ---------- Stopping ----------

  /** Between batches, and told to stop or gone. */
  ghost predicate Leaving(s: System, w: nat) {
    && w < |s.workers|
    && (match s.workers[w].phase
        case AtLoopHead => !s.workers[w].running
        case Stopped => true
        case Crashed => true
        case _ => false)
  }

  lemma LeavingWritesNothing(s: System, step: Step, w: nat)
    requires Leaving(s, w)
    ensures Leaving(Apply(s, step), w) && s.table <= Apply(s, step).table
    ensures forall row | row in Apply(s, step).table[|s.table|..] :: row.worker != w
  {
    hide DoRead, DoAck, DoClaim;
    assert s.table[|s.table|..] == [];
    if Enabled(s, step) && (step.Read? || step.Ack? || step.Claim?) {
      LeavingStays(s, step, w);
    }
  }

  lemma LeavingStays(s: System, step: Step, w: nat)
    requires Leaving(s, w) && Enabled(s, step) && (step.Read? || step.Ack? || step.Claim?)
    ensures Leaving(Apply(s, step), w) && Apply(s, step).table == s.table
  {
  }

  /** A worker that is told to stop between batches, like one that stopped or crashed, never writes again:
      nobody reads or reclaims in its name. */
  lemma {:induction false} SignalledWritesNoMore(s: System, w: nat, trace: seq<Step>)
    requires Leaving(s, w)
    ensures Leaving(Run(s, trace), w) && s.table <= Run(s, trace).table
    ensures forall row | row in Run(s, trace).table[|s.table|..] :: row.worker != w
  {
    hide Apply, Leaving;
    if trace == [] {
      assert s.table[|s.table|..] == [];
    } else {
      var front := trace[..|trace| - 1];
      SignalledWritesNoMore(s, w, front);
      var mid, end := Run(s, front), Run(s, trace);
      LeavingWritesNothing(mid, trace[|trace| - 1], w);
      assert end.table[|s.table|..] == mid.table[|s.table|..] + end.table[|mid.table|..];
    }
  }

  /** Signalling a worker between batches makes it one that is leaving; one that was not signalled goes on
      to read. */
  lemma SignalLeaves(s: System, w: nat)
    requires w < |s.workers| && s.workers[w].phase.AtLoopHead?
    ensures Leaving(Apply(s, Signal(w)), w) && Leaving(Apply(s, Crash(w)), w)
    ensures Apply(s, CheckRunning(w)).workers[w].phase.Polling? <==> s.workers[w].running
  {
  }

  // ---------- Reclaiming ----------

  /** A reclaim hands the worker exactly the reclaimed messages, in stream order, and makes it their owner;
      nothing else of the group changes and nothing is written. */
  lemma ClaimTakesOver(s: System, w: nat, ids: seq<nat>)
    requires Invariant(s) && Enabled(s, Claim(w, ids))
    ensures var t, name := Apply(s, Claim(w, ids)), s.workers[w].group;
            var g, h, batch := s.groups[name], t.groups[name], BatchOf(t.workers[w]);
            && t.workers[w].phase.Holding? && |batch| == |ids|
            && (forall i | 0 <= i < |ids| :: ids[i] < |s.stream| && batch[i] == Entry(ids[i], s.stream[ids[i]]))
            && h.pending.Keys == g.pending.Keys && h.cursor == g.cursor && h.acked == g.acked
            && (forall id | id in h.pending :: h.pending[id] == if id in ids then w else g.pending[id])
            && t.table == s.table && t.stream == s.stream
  {
    hide Invariant;
    assert forall i | 0 <= i < |ids| :: ids[i] in ids;
  }
}
