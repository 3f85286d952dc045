/** The consumer-group protocol: ingestor numbering, stream, groups, workers and tick table.

    A system state is changed by one step at a time, in any interleaving; a step that is not enabled
    changes nothing. Message ids are positions in the stream. A consumer is identified by the
    incarnation of its worker.
 */
module Delivery {
  import opened Models
  import opened Ingestor

  datatype Entry = Entry(id: nat, tick: Tick)

  /** A row of the tick table. The table stores the tick and the worker; the id is kept to speak
      about the message the row came from. */
  datatype Row = Row(id: nat, tick: Tick, worker: nat)

  /** A consumer group: everything below the cursor was delivered. `acked` is history: Redis only
      forgets acknowledged entries. */
  datatype Group = Group(cursor: nat, pending: map<nat, nat>, acked: set<nat>)

  datatype Limits = Limits(readBatchSize: nat, maxMessages: Option<nat>, maxIdleReads: Option<nat>)

  /** Where a worker is in its loop. `Holding` is read and not yet written; `Stored` is written and
      not yet acknowledged. */
  datatype Phase =
    | AtLoopHead
    | Polling
    | Holding(batch: seq<Entry>)
    | Stored(batch: seq<Entry>)
    | Stopped
    | Crashed

  datatype Worker = Worker(
    group: string,
    limits: Limits,
    phase: Phase,
    running: bool,
    processed: nat,
    idleReads: nat)

  datatype System = System(
    sequences: map<Symbol, nat>,
    stream: seq<Tick>,
    groups: map<string, Group>,
    workers: seq<Worker>,
    table: seq<Row>)

  datatype Step =
    | Ingest(symbol: Symbol, price: real, size: Option<real>, time: int)
    | Restart     // a new ingestor takes over: its numbering starts again, the stream is kept
    | CreateGroup(name: string)
    | Spawn(name: string, limits: Limits)
    | CheckRunning(w: nat)
    | Read(w: nat)
    | Write(w: nat)
    | Ack(w: nat)
    | Claim(w: nat, ids: seq<nat>)
    | Signal(w: nat)
    | Crash(w: nat)

  const EMPTY := System(map[], [], map[], [], [])

  // ---------- Parts of a step ----------

  function BatchOf(worker: Worker): seq<Entry> {
    match worker.phase
    case Holding(batch) => batch
    case Stored(batch) => batch
    case _ => []
  }

  predicate Live(worker: Worker) {
    !worker.phase.Stopped? && !worker.phase.Crashed?
  }

  /** A group starts at the beginning of the stream; creating it twice changes nothing. */
  function EnsureGroup(groups: map<string, Group>, name: string): map<string, Group> {
    if name in groups then groups else groups[name := Group(0, map[], {})]
  }

  /** How far a read moves the cursor. */
  function ReadEnd(g: Group, stream: seq<Tick>, count: nat): nat {
    if g.cursor + count <= |stream| then g.cursor + count
    else if g.cursor <= |stream| then |stream|
    else g.cursor
  }

  function EntriesBetween(stream: seq<Tick>, from: nat, to: nat): seq<Entry>
    requires from <= to <= |stream|
  {
    seq(to - from, i requires 0 <= i < to - from => Entry(from + i, stream[from + i]))
  }

  /** `entries[:end]` as Python slices: a negative end counts from the back. */
  function Slice(entries: seq<Entry>, end: int): seq<Entry> {
    if end >= |entries| then entries
    else if end >= 0 then entries[..end]
    else if |entries| + end >= 0 then entries[..|entries| + end]
    else []
  }

  /** A message cap keeps a prefix of what was read; the rest stays pending, unwritten. */
  function Truncate(entries: seq<Entry>, limits: Limits, processed: nat): seq<Entry> {
    match limits.maxMessages
    case None => entries
    case Some(cap) => if processed + |entries| > cap then Slice(entries, cap - processed) else entries
  }

  /** The ids from `from` up to but not including `to`. */
  function Range(from: nat, to: nat): (ids: set<nat>)
    ensures forall id :: id in ids <==> from <= id < to
    ensures from <= to ==> |ids| == to - from
  {
    if from >= to then {} else Range(from, to - 1) + {to - 1}
  }

  function Own(from: nat, to: nat, w: nat): map<nat, nat> {
    map id | id in Range(from, to) :: w
  }

  function IdsOf(batch: seq<Entry>): set<nat> {
    set e | e in batch :: e.id
  }

  function RowsOf(batch: seq<Entry>, w: nat): seq<Row> {
    seq(|batch|, i requires 0 <= i < |batch| => Row(batch[i].id, batch[i].tick, w))
  }

  function Claimed(stream: seq<Tick>, ids: seq<nat>): seq<Entry>
    requires forall id | id in ids :: id < |stream|
  {
    seq(|ids|, i requires 0 <= i < |ids| => assert ids[i] in ids; Entry(ids[i], stream[ids[i]]))
  }

  predicate Increasing(ids: seq<nat>) {
    forall i, j | 0 <= i < j < |ids| :: ids[i] < ids[j]
  }

  // ---------- Steps ----------

  predicate Enabled(s: System, step: Step) {
    match step
    case Ingest(_, _, _, _) => true
    case Restart => true
    case CreateGroup(_) => true
    case Spawn(_, limits) => limits.readBatchSize >= 1
    case CheckRunning(w) => w < |s.workers| && s.workers[w].phase.AtLoopHead?
    case Read(w) =>
      && w < |s.workers| && s.workers[w].phase.Polling? && s.workers[w].group in s.groups
    case Write(w) => w < |s.workers| && s.workers[w].phase.Holding?
    case Ack(w) => w < |s.workers| && s.workers[w].phase.Stored? && s.workers[w].group in s.groups
    case Claim(w, ids) =>
      && w < |s.workers| && s.workers[w].phase.AtLoopHead? && s.workers[w].running
      && s.workers[w].group in s.groups
      && ids != [] && Increasing(ids)
      && forall id | id in ids :: id in s.groups[s.workers[w].group].pending && id < |s.stream|
    case Signal(w) => w < |s.workers| && Live(s.workers[w])
    case Crash(w) => w < |s.workers| && Live(s.workers[w])
  }

  function SetWorker(s: System, w: nat, worker: Worker): System
    requires w < |s.workers|
  {
    s.(workers := s.workers[w := worker])
  }

  function DoRead(s: System, w: nat): System
    requires Enabled(s, Read(w))
  {
    var worker := s.workers[w];
    var g := s.groups[worker.group];
    var end := ReadEnd(g, s.stream, worker.limits.readBatchSize);
    if end <= g.cursor then
      var idle := worker.idleReads + 1;
      var done := worker.limits.maxIdleReads.Some? && idle >= worker.limits.maxIdleReads.value;
      SetWorker(s, w, worker.(idleReads := idle, phase := if done then Stopped else AtLoopHead))
    else
      var batch := Truncate(EntriesBetween(s.stream, g.cursor, end), worker.limits, worker.processed);
      SetWorker(s, w, worker.(idleReads := 0, phase := Holding(batch)))
        .(groups := s.groups[worker.group := g.(cursor := end, pending := g.pending + Own(g.cursor, end, w))])
  }

  function DoWrite(s: System, w: nat): System
    requires Enabled(s, Write(w))
  {
    var worker := s.workers[w];
    SetWorker(s, w, worker.(phase := Stored(worker.phase.batch)))
      .(table := s.table + RowsOf(worker.phase.batch, w))
  }

  /** An empty batch, which only a cap of zero produces, makes the log line after the
      acknowledgement raise. */
  function DoAck(s: System, w: nat): System
    requires Enabled(s, Ack(w))
  {
    var worker := s.workers[w];
    var batch, g := worker.phase.batch, s.groups[worker.group];
    var processed := worker.processed + |batch|;
    var capped := worker.limits.maxMessages.Some? && processed >= worker.limits.maxMessages.value;
    SetWorker(s, w, worker.(processed := processed,
                            running := worker.running && !capped,
                            phase := if batch == [] then Crashed else AtLoopHead))
      .(groups := s.groups[worker.group :=
                    g.(pending := g.pending - IdsOf(batch), acked := g.acked + (IdsOf(batch) * g.pending.Keys))])
  }

  /** Reclaiming takes over pending entries, whoever owned them, and hands them out again. */
  function DoClaim(s: System, w: nat, ids: seq<nat>): System
    requires Enabled(s, Claim(w, ids))
  {
    var worker := s.workers[w];
    var g := s.groups[worker.group];
    SetWorker(s, w, worker.(phase := Holding(Claimed(s.stream, ids))))
      .(groups := s.groups[worker.group := g.(pending := g.pending + map id | id in ids :: w)])
  }

  function Apply(s: System, step: Step): System {
    if !Enabled(s, step) then
      s
    else
      match step
      case Ingest(symbol, price, size, time) =>
        var (sequences, outcome) := Normalize(s.sequences, Some(symbol), Priced(price, size, time));
        s.(sequences := sequences, stream := s.stream + [outcome.tick])
      case Restart => s.(sequences := map[])
      case CreateGroup(name) => s.(groups := EnsureGroup(s.groups, name))
      case Spawn(name, limits) =>
        s.(groups := EnsureGroup(s.groups, name),
           workers := s.workers + [Worker(name, limits, AtLoopHead, true, 0, 0)])
      case CheckRunning(w) =>
        SetWorker(s, w, s.workers[w].(phase := if s.workers[w].running then Polling else Stopped))
      case Read(w) => DoRead(s, w)
      case Write(w) => DoWrite(s, w)
      case Ack(w) => DoAck(s, w)
      case Claim(w, ids) => DoClaim(s, w, ids)
      case Signal(w) => SetWorker(s, w, s.workers[w].(running := false))
      case Crash(w) => SetWorker(s, w, s.workers[w].(phase := Crashed))
  }

  function Run(s: System, trace: seq<Step>): System {
    if trace == [] then s else Apply(Run(s, trace[..|trace| - 1]), trace[|trace| - 1])
  }

  lemma {:induction false} RunInTwo(s: System, a: seq<Step>, b: seq<Step>)
    ensures Run(s, a + b) == Run(Run(s, a), b)
  {
    hide Apply;
    if b == [] {
      assert a + b == a;
    } else {
      RunInTwo(s, a, b[..|b| - 1]);
      assert (a + b)[..|a + b| - 1] == a + b[..|b| - 1];
    }
  }

  // ---------- What an operator sees ----------

  /** `XINFO GROUPS` lag: entries not yet delivered to the group. */
  function Lag(s: System, name: string): int
    requires name in s.groups
  {
    |s.stream| - s.groups[name].cursor
  }

  function PendingCount(s: System, name: string): nat
    requires name in s.groups
  {
    |s.groups[name].pending|
  }
}
