/** Counting over whole runs: conservation per group, the bound on duplicate rows, at-most-once and
    exactly-once delivery, and what a lag of zero does and does not say.
 */
module DeliveryCounts {
  import opened Models
  import opened Delivery
  import opened DeliverySafety

  // ---------- Conservation: published = lag + pending + acknowledged ----------

  lemma GroupConserves(s: System, name: string)
    requires Invariant(s) && name in s.groups
    ensures |s.stream| == Lag(s, name) + PendingCount(s, name) + |s.groups[name].acked|
    ensures Lag(s, name) >= 0
  {
    var g := s.groups[name];
    assert GroupSplit(g, |s.stream|);
    assert g.pending.Keys + g.acked == Range(0, g.cursor);
    assert g.pending.Keys !! g.acked;
    assert |g.pending.Keys + g.acked| == |g.pending| + |g.acked|;
  }

  /** The group a step works in, if any. */
  function GroupOf(s: System, step: Step): Option<string> {
    match step
    case Ingest(_, _, _, _) => None
    case Restart => None
    case CreateGroup(name) => Some(name)
    case Spawn(name, _) => Some(name)
    case CheckRunning(w) => if w < |s.workers| then Some(s.workers[w].group) else None
    case Read(w) => if w < |s.workers| then Some(s.workers[w].group) else None
    case Write(w) => if w < |s.workers| then Some(s.workers[w].group) else None
    case Ack(w) => if w < |s.workers| then Some(s.workers[w].group) else None
    case Claim(w, _) => if w < |s.workers| then Some(s.workers[w].group) else None
    case Signal(w) => if w < |s.workers| then Some(s.workers[w].group) else None
    case Crash(w) => if w < |s.workers| then Some(s.workers[w].group) else None
  }

  /** A step of one group never changes another group's cursor, pending list or acknowledgements. */
  lemma GroupsAreIndependent(s: System, step: Step, name: string)
    requires GroupOf(s, step) != Some(name)
    ensures name in s.groups <==> name in Apply(s, step).groups
    ensures name in s.groups ==> Apply(s, step).groups[name] == s.groups[name]
  {
  }

  // ---------- Rows and held batches, counted ----------

  function Once(b: bool): nat {
    if b then 1 else 0
  }

  predicate WritesFor(row: Row, workers: seq<Worker>, name: string, id: nat) {
    row.id == id && row.worker < |workers| && workers[row.worker].group == name
  }

  /** How many rows the group's workers have written for message `id`. */
  function RowCount(table: seq<Row>, workers: seq<Worker>, name: string, id: nat): nat {
    if table == [] then
      0
    else
      RowCount(table[..|table| - 1], workers, name, id)
      + Once(WritesFor(table[|table| - 1], workers, name, id))
  }

  predicate Holds(worker: Worker, name: string, id: nat) {
    worker.group == name && worker.phase.Holding? && id in IdsOf(worker.phase.batch)
  }

  /** How many workers of the group hold message `id`, read but not yet written. */
  function HeldCount(workers: seq<Worker>, name: string, id: nat): nat {
    if workers == [] then
      0
    else
      HeldCount(workers[..|workers| - 1], name, id) + Once(Holds(workers[|workers| - 1], name, id))
  }

  lemma {:induction false} HeldCountUpdate(workers: seq<Worker>, w: nat, worker: Worker, name: string, id: nat)
    requires w < |workers|
    ensures HeldCount(workers[w := worker], name, id) + Once(Holds(workers[w], name, id))
         == HeldCount(workers, name, id) + Once(Holds(worker, name, id))
  {
    var front := workers[..|workers| - 1];
    var updated := workers[w := worker];
    if w == |workers| - 1 {
      assert updated[..|updated| - 1] == front;
    } else {
      HeldCountUpdate(front, w, worker, name, id);
      assert updated[..|updated| - 1] == front[w := worker];
    }
  }

  lemma {:induction false} RowCountConcat(a: seq<Row>, b: seq<Row>, workers: seq<Worker>, name: string, id: nat)
    ensures RowCount(a + b, workers, name, id) == RowCount(a, workers, name, id) + RowCount(b, workers, name, id)
  {
    if b == [] {
      assert a + b == a;
    } else {
      RowCountConcat(a, b[..|b| - 1], workers, name, id);
      assert (a + b)[..|a + b| - 1] == a + b[..|b| - 1];
    }
  }

  /** Rows are counted by their worker's group, which no step changes. */
  lemma {:induction false} RowCountSameGroups(
      table: seq<Row>, workers: seq<Worker>, later: seq<Worker>, name: string, id: nat)
    requires |workers| <= |later|
    requires forall w | 0 <= w < |workers| :: workers[w].group == later[w].group
    requires forall row | row in table :: row.worker < |workers|
    ensures RowCount(table, workers, name, id) == RowCount(table, later, name, id)
  {
    if table != [] {
      RowCountSameGroups(table[..|table| - 1], workers, later, name, id);
    }
  }

  lemma LastIdIsNew(batch: seq<Entry>)
    requires IncreasingIds(batch) && batch != []
    ensures IdsOf(batch) == IdsOf(batch[..|batch| - 1]) + {batch[|batch| - 1].id}
    ensures batch[|batch| - 1].id !in IdsOf(batch[..|batch| - 1])
  {
  }

  lemma {:induction false} RowCountOfBatch(batch: seq<Entry>, w: nat, workers: seq<Worker>, name: string, id: nat)
    requires IncreasingIds(batch) && w < |workers|
    ensures RowCount(RowsOf(batch, w), workers, name, id)
         == Once(workers[w].group == name && id in IdsOf(batch))
  {
    if batch != [] {
      var front, last := batch[..|batch| - 1], batch[|batch| - 1];
      RowCountOfBatch(front, w, workers, name, id);
      assert RowsOf(batch, w)[..|batch| - 1] == RowsOf(front, w);
      LastIdIsNew(batch);
    }
  }

  // ---------- The duplication bound ----------

  /** How often message `id` was reclaimed in the group over a run. */
  function Reclaims(trace: seq<Step>, name: string, id: nat): nat {
    if trace == [] then
      0
    else
      var front, last := trace[..|trace| - 1], trace[|trace| - 1];
      Reclaims(front, name, id) + Once(ReclaimsNow(Run(EMPTY, front), last, name, id))
  }

  predicate ReclaimsNow(s: System, step: Step, name: string, id: nat) {
    step.Claim? && Enabled(s, step) && s.workers[step.w].group == name && id in step.ids
  }

  predicate Delivered(s: System, name: string, id: nat) {
    name in s.groups && id < s.groups[name].cursor
  }

  /** Rows written plus copies still held. */
  function Copies(s: System, name: string, id: nat): nat {
    RowCount(s.table, s.workers, name, id) + HeldCount(s.workers, name, id)
  }

  lemma SetWorkerCopies(s: System, t: System, w: nat, name: string, id: nat)
    requires Invariant(s) && w < |s.workers|
    requires |t.workers| == |s.workers| && t.table == s.table && t.workers == s.workers[w := t.workers[w]]
    requires t.workers[w].group == s.workers[w].group
    ensures Copies(t, name, id) + Once(Holds(s.workers[w], name, id))
         == Copies(s, name, id) + Once(Holds(t.workers[w], name, id))
  {
    HeldCountUpdate(s.workers, w, t.workers[w], name, id);
    TableWorkers(s);
    RowCountSameGroups(s.table, s.workers, t.workers, name, id);
  }

  lemma TableWorkers(s: System)
    requires Invariant(s)
    ensures forall row | row in s.table :: row.worker < |s.workers|
  {
  }

  lemma ReadCopies(s: System, w: nat, name: string, id: nat)
    requires Invariant(s) && Enabled(s, Read(w))
    ensures Copies(DoRead(s, w), name, id) + Once(Delivered(s, name, id))
         <= Copies(s, name, id) + Once(Delivered(DoRead(s, w), name, id))
  {
    var t, worker := DoRead(s, w), s.workers[w];
    var g := s.groups[worker.group];
    var end := ReadEnd(g, s.stream, worker.limits.readBatchSize);
    SetWorkerCopies(s, t, w, name, id);
    assert GroupSplit(g, |s.stream|);
    if end > g.cursor && Holds(t.workers[w], name, id) {
      EntriesAreFrom(s.stream, g.cursor, end);
      TruncateIsPrefix(EntriesBetween(s.stream, g.cursor, end), worker.limits, worker.processed);
      var e :| e in t.workers[w].phase.batch && e.id == id;
      assert e in EntriesBetween(s.stream, g.cursor, end);
      assert g.cursor <= id < end;
    }
  }

  lemma WriteCopies(s: System, w: nat, name: string, id: nat)
    requires Invariant(s) && Enabled(s, Write(w))
    ensures Copies(DoWrite(s, w), name, id) == Copies(s, name, id)
  {
    var t, batch := DoWrite(s, w), s.workers[w].phase.batch;
    assert WorkerOk(s, s.workers[w]);
    HeldCountUpdate(s.workers, w, t.workers[w], name, id);
    TableWorkers(s);
    RowCountSameGroups(s.table, s.workers, t.workers, name, id);
    RowCountConcat(s.table, RowsOf(batch, w), t.workers, name, id);
    RowCountOfBatch(batch, w, t.workers, name, id);
  }

  lemma ClaimCopies(s: System, w: nat, ids: seq<nat>, name: string, id: nat)
    requires Invariant(s) && Enabled(s, Claim(w, ids))
    ensures Copies(DoClaim(s, w, ids), name, id)
         <= Copies(s, name, id) + Once(ReclaimsNow(s, Claim(w, ids), name, id))
  {
    var t := DoClaim(s, w, ids);
    SetWorkerCopies(s, t, w, name, id);
    if Holds(t.workers[w], name, id) {
      var e :| e in Claimed(s.stream, ids) && e.id == id;
      var i :| 0 <= i < |ids| && Claimed(s.stream, ids)[i] == e;
      assert ids[i] in ids;
    }
  }

  lemma SpawnCopies(s: System, worker: Worker, t: System, name: string, id: nat)
    requires Invariant(s) && worker.phase.AtLoopHead?
    requires t.table == s.table && t.workers == s.workers + [worker]
    ensures Copies(t, name, id) == Copies(s, name, id)
  {
    TableWorkers(s);
    RowCountSameGroups(s.table, s.workers, t.workers, name, id);
    assert t.workers[..|t.workers| - 1] == s.workers;
  }

  /** A step adds a copy only by delivering the message or by reclaiming it. */
  lemma StepCopies(s: System, step: Step, name: string, id: nat)
    requires Invariant(s)
    ensures Copies(Apply(s, step), name, id) + Once(Delivered(s, name, id))
         <= Copies(s, name, id) + Once(Delivered(Apply(s, step), name, id))
            + Once(ReclaimsNow(s, step, name, id))
  {
    hide Copies, Invariant, Delivered, DoRead, DoWrite, DoClaim;
    var t := Apply(s, step);
    if Delivered(s, name, id) {
      DeliveredStays(s, step, name, id);
    }
    if Enabled(s, step) {
      match step
      case Ingest(_, _, _, _) => SameCopies(s, t, name, id);
      case Restart => SameCopies(s, t, name, id);
      case CreateGroup(_) => SameCopies(s, t, name, id);
      case Spawn(g, limits) => SpawnCopies(s, t.workers[|s.workers|], t, name, id);
      case Read(w) => ReadCopies(s, w, name, id);
      case Write(w) => WriteCopies(s, w, name, id);
      case Claim(w, ids) => ClaimCopies(s, w, ids, name, id);
      case CheckRunning(w) => SetWorkerCopies(s, t, w, name, id);
      case Ack(w) => SetWorkerCopies(s, t, w, name, id);
      case Signal(w) => SetWorkerCopies(s, t, w, name, id);
      case Crash(w) => SetWorkerCopies(s, t, w, name, id);
    }
  }

  lemma DeliveredStays(s: System, step: Step, name: string, id: nat)
    requires Invariant(s) && Delivered(s, name, id)
    ensures Delivered(Apply(s, step), name, id)
  {
    hide Apply, Invariant;
    ApplyExtends(s, step);
  }

  lemma SameCopies(s: System, t: System, name: string, id: nat)
    requires t.table == s.table && t.workers == s.workers
    ensures Copies(t, name, id) == Copies(s, name, id)
  {
  }

  lemma {:induction false} CopiesAreBounded(trace: seq<Step>, name: string, id: nat)
    ensures Copies(Run(EMPTY, trace), name, id)
         <= Once(Delivered(Run(EMPTY, trace), name, id)) + Reclaims(trace, name, id)
  {
    if trace != [] {
      var front, last := trace[..|trace| - 1], trace[|trace| - 1];
      CopiesAreBounded(front, name, id);
      EveryRunKeepsInvariant(front);
      StepCopies(Run(EMPTY, front), last, name, id);
    }
  }

  /** Duplication bound: a group's workers write a message at most once more than it was reclaimed,
      whatever crashed. */
  lemma RowsBoundedByReclaims(trace: seq<Step>, name: string, id: nat)
    ensures var s := Run(EMPTY, trace);
            RowCount(s.table, s.workers, name, id) <= 1 + Reclaims(trace, name, id)
  {
    CopiesAreBounded(trace, name, id);
  }

  ghost predicate NoReclaim(trace: seq<Step>) {
    forall step | step in trace :: !step.Claim?
  }

  lemma {:induction false} NothingReclaimed(trace: seq<Step>, name: string, id: nat)
    requires NoReclaim(trace)
    ensures Reclaims(trace, name, id) == 0
  {
    if trace != [] {
      NothingReclaimed(trace[..|trace| - 1], name, id);
    }
  }

  lemma {:induction false} RowIsCounted(table: seq<Row>, workers: seq<Worker>, name: string, id: nat, row: Row)
    requires row in table && WritesFor(row, workers, name, id)
    ensures RowCount(table, workers, name, id) >= 1
  {
    if row != table[|table| - 1] {
      assert table == table[..|table| - 1] + [table[|table| - 1]];
      RowIsCounted(table[..|table| - 1], workers, name, id, row);
    }
  }

  lemma HasRowIsCounted(s: System, name: string, id: nat)
    requires HasRow(s, name, id)
    ensures RowCount(s.table, s.workers, name, id) >= 1
  {
    var row :| row in s.table && WrittenFor(s, row, name, id);
    RowIsCounted(s.table, s.workers, name, id, row);
  }

  /** Without reclaims, a delivered message is in exactly one place: written once, held by one
      worker, or stranded in the pending list. */
  lemma DeliveredOnce(trace: seq<Step>, name: string, id: nat)
    requires NoReclaim(trace) && Delivered(Run(EMPTY, trace), name, id)
    ensures var s := Run(EMPTY, trace);
            var rows, held := RowCount(s.table, s.workers, name, id), HeldCount(s.workers, name, id);
            && rows + held <= 1
            && (rows + held == 0 ==> id in s.groups[name].pending)
  {
    CopiesAreBounded(trace, name, id);
    NothingReclaimed(trace, name, id);
    EveryRunKeepsInvariant(trace);
    var s := Run(EMPTY, trace);
    assert GroupSplit(s.groups[name], |s.stream|);
    if id in s.groups[name].acked {
      HasRowIsCounted(s, name, id);
    }
  }

  // ---------- Ownership without reclaims ----------

  /** Every batch a worker has not finished is pending under that worker. */
  ghost predicate Owns(s: System, w: nat)
    requires w < |s.workers|
  {
    s.workers[w].group in s.groups
    && forall e | e in BatchOf(s.workers[w]) ::
         && e.id in s.groups[s.workers[w].group].pending
         && s.groups[s.workers[w].group].pending[e.id] == w
  }

  ghost predicate Owned(s: System) {
    forall w | 0 <= w < |s.workers| :: Owns(s, w)
  }

  lemma ReadKeepsOwned(s: System, w: nat)
    requires Invariant(s) && Owned(s) && Enabled(s, Read(w))
    ensures Owned(DoRead(s, w))
  {
    var t, worker := DoRead(s, w), s.workers[w];
    var g := s.groups[worker.group];
    assert GroupSplit(g, |s.stream|);
    hide Range, Truncate, EntriesBetween, IncreasingIds;
    forall v | 0 <= v < |t.workers|
      ensures Owns(t, v)
    {
      assert Owns(s, v) && WorkerOk(s, s.workers[v]);
      if v == w {
        ReadBatchIsOwn(g, s.stream, worker);
      } else {
        OwnedBelowCursor(s, w, v);
      }
    }
  }

  lemma ReadBatchIsOwn(g: Group, stream: seq<Tick>, worker: Worker)
    ensures var end := ReadEnd(g, stream, worker.limits.readBatchSize);
            end > g.cursor ==>
              forall e | e in Truncate(EntriesBetween(stream, g.cursor, end), worker.limits, worker.processed) ::
                g.cursor <= e.id < end
  {
  }

  lemma OwnedBelowCursor(s: System, w: nat, v: nat)
    requires Invariant(s) && Enabled(s, Read(w)) && v < |s.workers| && v != w && Owns(s, v)
    ensures Owns(DoRead(s, w), v)
  {
  }

  lemma AckKeepsOwned(s: System, w: nat)
    requires Invariant(s) && Owned(s) && Enabled(s, Ack(w))
    ensures Owned(DoAck(s, w))
  {
    var t := DoAck(s, w);
    assert Owns(s, w);
    forall v | 0 <= v < |t.workers|
      ensures Owns(t, v)
    {
      assert Owns(s, v);
      if v != w && s.workers[v].group == s.workers[w].group {
        forall e | e in BatchOf(t.workers[v])
          ensures e.id !in IdsOf(s.workers[w].phase.batch)
        {
        }
      }
    }
  }

  lemma QuietStepKeepsOwned(s: System, t: System)
    requires Owned(s) && |s.workers| <= |t.workers|
    requires forall name | name in s.groups :: name in t.groups && t.groups[name] == s.groups[name]
    requires forall w | 0 <= w < |s.workers| ::
               t.workers[w].group == s.workers[w].group && SameBatch(s.workers[w], t.workers[w])
    requires forall w | |s.workers| <= w < |t.workers| ::
               t.workers[w].group in t.groups && BatchOf(t.workers[w]) == []
    ensures Owned(t)
  {
    forall v | 0 <= v < |t.workers|
      ensures Owns(t, v)
    {
      if v < |s.workers| {
        assert Owns(s, v);
      }
    }
  }

  lemma StepKeepsOwned(s: System, step: Step)
    requires Invariant(s) && Owned(s) && !step.Claim?
    ensures Owned(Apply(s, step))
  {
    hide Owned, Invariant, DoRead, DoAck, DoWrite;
    var t := Apply(s, step);
    if Enabled(s, step) {
      match step
      case Read(w) => ReadKeepsOwned(s, w);
      case Ack(w) => AckKeepsOwned(s, w);
      case Write(w) => WriteKeepsOwned(s, w);
      case Ingest(_, _, _, _) => QuietStepKeepsOwned(s, t);
      case Restart => QuietStepKeepsOwned(s, t);
      case CreateGroup(_) => QuietStepKeepsOwned(s, t);
      case Spawn(_, _) => QuietStepKeepsOwned(s, t);
      case CheckRunning(_) => QuietStepKeepsOwned(s, t);
      case Signal(_) => QuietStepKeepsOwned(s, t);
      case Crash(_) => QuietStepKeepsOwned(s, t);
    }
  }

  lemma WriteKeepsOwned(s: System, w: nat)
    requires Owned(s) && Enabled(s, Write(w))
    ensures Owned(DoWrite(s, w))
  {
    forall v | 0 <= v < |s.workers|
      ensures Owns(DoWrite(s, w), v)
    {
      assert Owns(s, v);
    }
  }

  lemma {:induction false} RunKeepsOwned(trace: seq<Step>)
    requires NoReclaim(trace)
    ensures Owned(Run(EMPTY, trace))
  {
    if trace != [] {
      RunKeepsOwned(trace[..|trace| - 1]);
      EveryRunKeepsInvariant(trace[..|trace| - 1]);
      StepKeepsOwned(Run(EMPTY, trace[..|trace| - 1]), trace[|trace| - 1]);
    }
  }

  // ---------- Return values add up ----------

  /** The sum of the group's workers' return values. */
  function ProcessedTotal(workers: seq<Worker>, name: string): nat {
    if workers == [] then
      0
    else
      var last := workers[|workers| - 1];
      ProcessedTotal(workers[..|workers| - 1], name) + if last.group == name then last.processed else 0
  }

  lemma {:induction false} ProcessedUpdate(workers: seq<Worker>, w: nat, worker: Worker, name: string)
    requires w < |workers| && worker.group == workers[w].group
    ensures ProcessedTotal(workers[w := worker], name)
         == ProcessedTotal(workers, name)
            + if worker.group == name then worker.processed - workers[w].processed else 0
  {
    var front, updated := workers[..|workers| - 1], workers[w := worker];
    if w == |workers| - 1 {
      assert updated[..|updated| - 1] == front;
    } else {
      ProcessedUpdate(front, w, worker, name);
      assert updated[..|updated| - 1] == front[w := worker];
    }
  }

  lemma {:induction false} IncreasingIdsAreDistinct(batch: seq<Entry>)
    requires IncreasingIds(batch)
    ensures |IdsOf(batch)| == |batch|
  {
    if batch == [] {
      assert IdsOf(batch) == {};
    } else {
      IncreasingIdsAreDistinct(batch[..|batch| - 1]);
      LastIdIsNew(batch);
    }
  }

  ghost predicate Tallied(s: System, name: string) {
    ProcessedTotal(s.workers, name) == if name in s.groups then |s.groups[name].acked| else 0
  }

  lemma AckKeepsTallied(s: System, w: nat, name: string)
    requires Invariant(s) && Owned(s) && Tallied(s, name) && Enabled(s, Ack(w))
    ensures Tallied(DoAck(s, w), name)
  {
    var t, worker := DoAck(s, w), s.workers[w];
    var batch, g := worker.phase.batch, s.groups[worker.group];
    ProcessedUpdate(s.workers, w, t.workers[w], name);
    assert WorkerOk(s, worker) && Owns(s, w) && GroupSplit(g, |s.stream|);
    IncreasingIdsAreDistinct(batch);
    assert IdsOf(batch) * g.pending.Keys == IdsOf(batch);
    assert g.acked !! IdsOf(batch);
  }

  lemma QuietStepKeepsTallied(s: System, t: System, w: nat, name: string)
    requires Tallied(s, name) && w < |s.workers|
    requires |t.workers| == |s.workers| && t.workers == s.workers[w := t.workers[w]]
    requires t.workers[w].group == s.workers[w].group && t.workers[w].processed == s.workers[w].processed
    requires name in t.groups <==> name in s.groups
    requires name in s.groups ==> t.groups[name].acked == s.groups[name].acked
    ensures Tallied(t, name)
  {
    ProcessedUpdate(s.workers, w, t.workers[w], name);
  }

  lemma GrowthKeepsTallied(s: System, t: System, name: string)
    requires Tallied(s, name)
    requires t.workers == s.workers
      || (exists worker: Worker :: worker.processed == 0 && t.workers == s.workers + [worker])
    requires name in s.groups ==> name in t.groups && t.groups[name].acked == s.groups[name].acked
    requires name in t.groups && name !in s.groups ==> t.groups[name].acked == {}
    ensures Tallied(t, name)
  {
  }

  lemma ReadShape(s: System, w: nat, name: string)
    requires Enabled(s, Read(w))
    ensures var t := DoRead(s, w);
            && |t.workers| == |s.workers| && t.workers == s.workers[w := t.workers[w]]
            && t.workers[w].group == s.workers[w].group && t.workers[w].processed == s.workers[w].processed
            && (name in t.groups <==> name in s.groups)
            && (name in s.groups ==> t.groups[name].acked == s.groups[name].acked)
  {
  }

  lemma StepKeepsTallied(s: System, step: Step, name: string)
    requires Invariant(s) && Owned(s) && Tallied(s, name) && !step.Claim?
    ensures Tallied(Apply(s, step), name)
  {
    hide Owned, Invariant, DoRead, DoAck, Tallied;
    var t := Apply(s, step);
    if Enabled(s, step) {
      match step
      case Ingest(_, _, _, _) => GrowthKeepsTallied(s, t, name);
      case Restart => GrowthKeepsTallied(s, t, name);
      case CreateGroup(_) => GrowthKeepsTallied(s, t, name);
      case Spawn(_, _) => GrowthKeepsTallied(s, t, name);
      case Ack(w) => AckKeepsTallied(s, w, name);
      case Read(w) => ReadShape(s, w, name); QuietStepKeepsTallied(s, t, w, name);
      case Write(w) => QuietStepKeepsTallied(s, t, w, name);
      case CheckRunning(w) => QuietStepKeepsTallied(s, t, w, name);
      case Signal(w) => QuietStepKeepsTallied(s, t, w, name);
      case Crash(w) => QuietStepKeepsTallied(s, t, w, name);
    }
  }

  lemma {:induction false} RunKeepsTallied(trace: seq<Step>, name: string)
    requires NoReclaim(trace)
    ensures Tallied(Run(EMPTY, trace), name)
  {
    if trace != [] {
      var front, last := trace[..|trace| - 1], trace[|trace| - 1];
      RunKeepsTallied(front, name);
      RunKeepsOwned(front);
      EveryRunKeepsInvariant(front);
      StepKeepsTallied(Run(EMPTY, front), last, name);
    }
  }

  /** When a group has drained without reclaims, under any crashes and caps that left nothing
      pending, every message has exactly one row and the return values add up to the stream. */
  lemma DrainedExactlyOnce(trace: seq<Step>, name: string)
    requires NoReclaim(trace)
    requires name in Run(EMPTY, trace).groups
    requires Lag(Run(EMPTY, trace), name) == 0 && PendingCount(Run(EMPTY, trace), name) == 0
    ensures var s := Run(EMPTY, trace);
            && (forall id: nat | id < |s.stream| :: RowCount(s.table, s.workers, name, id) == 1)
            && ProcessedTotal(s.workers, name) == |s.stream|
  {
    var s := Run(EMPTY, trace);
    EveryRunKeepsInvariant(trace);
    RunKeepsTallied(trace, name);
    GroupConserves(s, name);
    assert GroupSplit(s.groups[name], |s.stream|);
    forall id: nat | id < |s.stream|
      ensures RowCount(s.table, s.workers, name, id) == 1
    {
      DeliveredOnce(trace, name, id);
      assert id in s.groups[name].acked;
      HasRowIsCounted(s, name, id);
    }
  }

  // ---------- What a lag of zero says ----------

  /** No crash, no reclaim, no message cap, and reads of at most `most` entries. */
  ghost predicate Calm(trace: seq<Step>, most: nat) {
    forall step | step in trace ::
      && !step.Claim? && !step.Crash?
      && (step.Spawn? ==> step.limits.maxMessages == None && step.limits.readBatchSize <= most)
  }

  function BatchTotal(workers: seq<Worker>, name: string): nat {
    if workers == [] then
      0
    else
      var last := workers[|workers| - 1];
      BatchTotal(workers[..|workers| - 1], name) + if last.group == name then |BatchOf(last)| else 0
  }

  function GroupSize(workers: seq<Worker>, name: string): nat {
    if workers == [] then
      0
    else
      GroupSize(workers[..|workers| - 1], name) + Once(workers[|workers| - 1].group == name)
  }

  lemma {:induction false} BatchTotalUpdate(workers: seq<Worker>, w: nat, worker: Worker, name: string)
    requires w < |workers| && worker.group == workers[w].group
    ensures BatchTotal(workers[w := worker], name)
         == BatchTotal(workers, name)
            + if worker.group == name then |BatchOf(worker)| - |BatchOf(workers[w])| else 0
  {
    var front, updated := workers[..|workers| - 1], workers[w := worker];
    if w == |workers| - 1 {
      assert updated[..|updated| - 1] == front;
    } else {
      BatchTotalUpdate(front, w, worker, name);
      assert updated[..|updated| - 1] == front[w := worker];
    }
  }

  /** Everything pending is in some worker's unfinished batch. */
  ghost predicate AllHeld(s: System, name: string) {
    BatchTotal(s.workers, name) == if name in s.groups then |s.groups[name].pending| else 0
  }

  ghost predicate CalmWorker(worker: Worker, most: nat) {
    && worker.limits.maxMessages == None && worker.limits.readBatchSize <= most
    && |BatchOf(worker)| <= most
    && (worker.phase.Stored? || worker.phase.Holding? ==> |worker.phase.batch| > 0)
    && !worker.phase.Crashed?
  }

  ghost predicate CalmWorkers(s: System, most: nat) {
    forall w | 0 <= w < |s.workers| :: CalmWorker(s.workers[w], most)
  }

  lemma OwnAddsRange(g: Group, end: nat, w: nat, length: nat)
    requires GroupSplit(g, length) && g.cursor <= end
    ensures |g.pending + Own(g.cursor, end, w)| == |g.pending| + (end - g.cursor)
  {
    var own := Own(g.cursor, end, w);
    assert own.Keys == Range(g.cursor, end);
    assert g.pending.Keys !! own.Keys;
    assert (g.pending + own).Keys == g.pending.Keys + own.Keys;
    assert |(g.pending + own).Keys| == |g.pending.Keys| + |own.Keys|;
  }

  lemma AckRemovesBatch(pending: map<nat, nat>, batch: seq<Entry>)
    requires IncreasingIds(batch) && IdsOf(batch) <= pending.Keys
    ensures |pending - IdsOf(batch)| == |pending| - |batch|
  {
    IncreasingIdsAreDistinct(batch);
    var rest := pending - IdsOf(batch);
    assert pending.Keys == rest.Keys + IdsOf(batch);
    assert rest.Keys !! IdsOf(batch);
    assert |rest.Keys + IdsOf(batch)| == |rest.Keys| + |IdsOf(batch)|;
  }

  lemma ReadKeepsCalm(s: System, w: nat, most: nat)
    requires CalmWorkers(s, most) && Enabled(s, Read(w))
    ensures CalmWorkers(DoRead(s, w), most)
  {
    hide EntriesFrom, IncreasingIds, Range;
    var t := DoRead(s, w);
    assert CalmWorker(s.workers[w], most);
    forall v | 0 <= v < |t.workers|
      ensures CalmWorker(t.workers[v], most)
    {
      assert CalmWorker(s.workers[v], most);
    }
  }

  lemma OneWorkerKeepsCalm(s: System, t: System, w: nat, most: nat)
    requires CalmWorkers(s, most) && w < |s.workers| == |t.workers|
    requires t.workers == s.workers[w := t.workers[w]]
    requires CalmWorker(s.workers[w], most) ==> CalmWorker(t.workers[w], most)
    ensures CalmWorkers(t, most)
  {
    hide CalmWorker;
  }

  lemma GrowthKeepsCalm(s: System, t: System, most: nat)
    requires CalmWorkers(s, most) && s.workers <= t.workers
    requires forall v | |s.workers| <= v < |t.workers| :: CalmWorker(t.workers[v], most)
    ensures CalmWorkers(t, most)
  {
    hide CalmWorker;
  }

  lemma StepKeepsCalm(s: System, step: Step, most: nat)
    requires CalmWorkers(s, most) && !step.Claim? && !step.Crash?
    requires step.Spawn? ==> step.limits.maxMessages == None && step.limits.readBatchSize <= most
    ensures CalmWorkers(Apply(s, step), most)
  {
    hide CalmWorkers, DoRead;
    var t := Apply(s, step);
    if Enabled(s, step) {
      match step
      case Ingest(_, _, _, _) => GrowthKeepsCalm(s, t, most);
      case Restart => GrowthKeepsCalm(s, t, most);
      case CreateGroup(_) => GrowthKeepsCalm(s, t, most);
      case Spawn(_, _) => GrowthKeepsCalm(s, t, most);
      case Read(w) => ReadKeepsCalm(s, w, most);
      case Ack(w) => OneWorkerKeepsCalm(s, t, w, most);
      case Write(w) => OneWorkerKeepsCalm(s, t, w, most);
      case CheckRunning(w) => OneWorkerKeepsCalm(s, t, w, most);
      case Signal(w) => OneWorkerKeepsCalm(s, t, w, most);
    }
  }

  lemma ReadKeepsAllHeld(s: System, w: nat, name: string, most: nat)
    requires Invariant(s) && CalmWorkers(s, most) && AllHeld(s, name) && Enabled(s, Read(w))
    ensures AllHeld(DoRead(s, w), name)
  {
    hide BatchTotal, Own, Range, IncreasingIds, EntriesFrom, HasRow;
    var t, worker := DoRead(s, w), s.workers[w];
    var g := s.groups[worker.group];
    var end := ReadEnd(g, s.stream, worker.limits.readBatchSize);
    assert GroupSplit(g, |s.stream|) && CalmWorker(worker, most);
    BatchTotalUpdate(s.workers, w, t.workers[w], name);
    if end > g.cursor {
      OwnAddsRange(g, end, w, |s.stream|);
    }
  }

  lemma OwnedBatchIsPending(s: System, w: nat)
    requires Invariant(s) && Owned(s) && Enabled(s, Ack(w))
    ensures var batch := s.workers[w].phase.batch;
            IncreasingIds(batch) && IdsOf(batch) <= s.groups[s.workers[w].group].pending.Keys
  {
    assert WorkerOk(s, s.workers[w]) && Owns(s, w);
  }

  lemma AckKeepsAllHeld(s: System, w: nat, name: string)
    requires Invariant(s) && Owned(s) && AllHeld(s, name) && Enabled(s, Ack(w))
    ensures AllHeld(DoAck(s, w), name)
  {
    hide Invariant, Owned, BatchTotal, IdsOf, IncreasingIds;
    var t := DoAck(s, w);
    OwnedBatchIsPending(s, w);
    BatchTotalUpdate(s.workers, w, t.workers[w], name);
    AckRemovesBatch(s.groups[s.workers[w].group].pending, s.workers[w].phase.batch);
  }

  lemma QuietStepKeepsAllHeld(s: System, t: System, w: nat, name: string)
    requires AllHeld(s, name) && w < |s.workers|
    requires |t.workers| == |s.workers| && t.workers == s.workers[w := t.workers[w]] && t.groups == s.groups
    requires t.workers[w].group == s.workers[w].group && |BatchOf(t.workers[w])| == |BatchOf(s.workers[w])|
    ensures AllHeld(t, name)
  {
    BatchTotalUpdate(s.workers, w, t.workers[w], name);
  }

  lemma GrowthKeepsAllHeld(s: System, t: System, name: string)
    requires AllHeld(s, name)
    requires t.workers == s.workers || (exists worker :: BatchOf(worker) == [] && t.workers == s.workers + [worker])
    requires name in s.groups ==> name in t.groups && t.groups[name] == s.groups[name]
    requires name in t.groups && name !in s.groups ==> t.groups[name] == Group(0, map[], {})
    ensures AllHeld(t, name)
  {
  }

  lemma StepKeepsAllHeld(s: System, step: Step, name: string, most: nat)
    requires Invariant(s) && Owned(s) && CalmWorkers(s, most) && AllHeld(s, name)
    requires !step.Claim? && !step.Crash?
    ensures AllHeld(Apply(s, step), name)
  {
    hide Invariant, Owned, DoRead, DoAck, CalmWorkers, AllHeld;
    var t := Apply(s, step);
    if Enabled(s, step) {
      match step
      case Ingest(_, _, _, _) => GrowthKeepsAllHeld(s, t, name);
      case Restart => GrowthKeepsAllHeld(s, t, name);
      case CreateGroup(_) => GrowthKeepsAllHeld(s, t, name);
      case Spawn(_, _) =>
        assert t.workers == s.workers + [t.workers[|s.workers|]];
        GrowthKeepsAllHeld(s, t, name);
      case Read(w) => ReadKeepsAllHeld(s, w, name, most);
      case Ack(w) => AckKeepsAllHeld(s, w, name);
      case Write(w) => QuietStepKeepsAllHeld(s, t, w, name);
      case CheckRunning(w) => QuietStepKeepsAllHeld(s, t, w, name);
      case Signal(w) => QuietStepKeepsAllHeld(s, t, w, name);
    }
  }

  lemma {:induction false} RunKeepsAllHeld(trace: seq<Step>, name: string, most: nat)
    requires Calm(trace, most)
    ensures AllHeld(Run(EMPTY, trace), name) && CalmWorkers(Run(EMPTY, trace), most)
  {
    if trace != [] {
      var front, last := trace[..|trace| - 1], trace[|trace| - 1];
      assert last in trace;
      RunKeepsAllHeld(front, name, most);
      RunKeepsOwned(front);
      EveryRunKeepsInvariant(front);
      StepKeepsAllHeld(Run(EMPTY, front), last, name, most);
      StepKeepsCalm(Run(EMPTY, front), last, most);
    }
  }

  lemma {:induction false} BatchTotalBound(workers: seq<Worker>, name: string, most: nat)
    requires forall w | 0 <= w < |workers| :: |BatchOf(workers[w])| <= most
    ensures BatchTotal(workers, name) <= GroupSize(workers, name) * most
  {
    if workers != [] {
      BatchTotalBound(workers[..|workers| - 1], name, most);
    }
  }

  /** Messages of the stream that the group has at least one row for. */
  ghost function WithRow(s: System, name: string): set<nat> {
    set id | id in Range(0, |s.stream|) && HasRow(s, name, id)
  }

  /** The load harness calls a step caught up when the lag is zero. For W calm workers reading at
      most B entries that bounds what may still be missing by W * B. */
  lemma CaughtUpBound(trace: seq<Step>, name: string, most: nat)
    requires Calm(trace, most) && name in Run(EMPTY, trace).groups
    requires Lag(Run(EMPTY, trace), name) == 0
    ensures var s := Run(EMPTY, trace);
            && PendingCount(s, name) <= GroupSize(s.workers, name) * most
            && |WithRow(s, name)| >= |s.stream| - GroupSize(s.workers, name) * most
  {
    var s := Run(EMPTY, trace);
    EveryRunKeepsInvariant(trace);
    RunKeepsAllHeld(trace, name, most);
    BatchTotalBound(s.workers, name, most);
    GroupConserves(s, name);
    var g := s.groups[name];
    assert GroupSplit(g, |s.stream|);
    forall id | id in g.acked
      ensures id in WithRow(s, name)
    {
      assert HasRow(s, name, id);
    }
    assert WithRow(s, name) == g.acked + (WithRow(s, name) - g.acked);
    assert |WithRow(s, name)| == |g.acked| + |WithRow(s, name) - g.acked|;
  }

  // ---------- Exactly when a lag of zero means stored ----------

  /** After any run, at zero lag: every message has a row of the group if and only if every pending one
      has. */
  lemma StoredAtZeroLagIff(trace: seq<Step>, name: string)
    requires name in Run(EMPTY, trace).groups && Lag(Run(EMPTY, trace), name) == 0
    ensures var s := Run(EMPTY, trace);
            ((forall id: nat | id < |s.stream| :: HasRow(s, name, id))
             <==> forall id | id in s.groups[name].pending :: HasRow(s, name, id))
  {
    hide Run, HasRow;
    var s := Run(EMPTY, trace);
    EveryRunKeepsInvariant(trace);
    assert GroupSplit(s.groups[name], |s.stream|);
    forall id | id in s.groups[name].acked
      ensures HasRow(s, name, id)
    {
    }
  }

  /** The owner of a pending entry has it in its unfinished batch. */
  ghost predicate HeldByOwner(s: System, name: string, id: nat)
    requires name in s.groups && id in s.groups[name].pending
  {
    var w := s.groups[name].pending[id];
    w < |s.workers| && s.workers[w].group == name && id in IdsOf(BatchOf(s.workers[w]))
  }

  ghost predicate PendingIsHeld(s: System, name: string) {
    name in s.groups ==> forall id | id in s.groups[name].pending :: HeldByOwner(s, name, id)
  }

  lemma ReadIds(stream: seq<Tick>, from: nat, to: nat, id: nat)
    requires from <= to <= |stream| && from <= id < to
    ensures id in IdsOf(EntriesBetween(stream, from, to))
  {
    var entries := EntriesBetween(stream, from, to);
    assert entries[id - from] in entries && entries[id - from].id == id;
  }

  lemma ReadKeepsPendingHeld(s: System, w: nat, name: string, most: nat)
    requires Invariant(s) && CalmWorkers(s, most) && PendingIsHeld(s, name) && Enabled(s, Read(w))
    ensures PendingIsHeld(DoRead(s, w), name)
  {
    hide Invariant, Range, EntriesBetween, IdsOf;
    var t, worker := DoRead(s, w), s.workers[w];
    assert CalmWorker(worker, most);
    if name in s.groups {
      var g := s.groups[name];
      forall id | id in t.groups[name].pending
        ensures HeldByOwner(t, name, id)
      {
        if id in g.pending {
          assert HeldByOwner(s, name, id);
          EmptyHoldsNothing(id);
        }
        if worker.group == name && id !in g.pending {
          ReadIds(s.stream, g.cursor, ReadEnd(g, s.stream, worker.limits.readBatchSize), id);
        }
        if worker.group == name && id in g.pending {
          PendingBelowCursor(s, name, id);
        }
      }
    }
  }

  lemma PendingBelowCursor(s: System, name: string, id: nat)
    requires Invariant(s) && name in s.groups && id in s.groups[name].pending
    ensures id < s.groups[name].cursor
  {
    assert GroupSplit(s.groups[name], |s.stream|);
  }

  lemma EmptyHoldsNothing(id: nat)
    ensures id !in IdsOf([])
  {
  }

  lemma AckKeepsPendingHeld(s: System, w: nat, name: string)
    requires PendingIsHeld(s, name) && Enabled(s, Ack(w))
    ensures PendingIsHeld(DoAck(s, w), name)
  {
    hide IdsOf;
    var t := DoAck(s, w);
    if name in s.groups {
      forall id | id in t.groups[name].pending
        ensures HeldByOwner(t, name, id)
      {
        assert HeldByOwner(s, name, id);
      }
    }
  }

  lemma QuietStepKeepsPendingHeld(s: System, t: System, name: string)
    requires PendingIsHeld(s, name) && |s.workers| <= |t.workers|
    requires name in s.groups ==> name in t.groups && t.groups[name] == s.groups[name]
    requires name in t.groups && name !in s.groups ==> t.groups[name] == Group(0, map[], {})
    requires forall v | 0 <= v < |s.workers| ::
               t.workers[v].group == s.workers[v].group && BatchOf(t.workers[v]) == BatchOf(s.workers[v])
    ensures PendingIsHeld(t, name)
  {
    hide IdsOf, BatchOf;
    if name in s.groups {
      forall id | id in t.groups[name].pending
        ensures HeldByOwner(t, name, id)
      {
        assert HeldByOwner(s, name, id);
      }
    }
  }

  lemma StepKeepsPendingHeld(s: System, step: Step, name: string, most: nat)
    requires Invariant(s) && CalmWorkers(s, most) && PendingIsHeld(s, name)
    requires !step.Claim? && !step.Crash?
    ensures PendingIsHeld(Apply(s, step), name)
  {
    hide Invariant, DoRead, DoAck, CalmWorkers, PendingIsHeld;
    var t := Apply(s, step);
    if Enabled(s, step) {
      match step
      case Read(w) => ReadKeepsPendingHeld(s, w, name, most);
      case Ack(w) => AckKeepsPendingHeld(s, w, name);
      case Ingest(_, _, _, _) => QuietStepKeepsPendingHeld(s, t, name);
      case Restart => QuietStepKeepsPendingHeld(s, t, name);
      case CreateGroup(_) => QuietStepKeepsPendingHeld(s, t, name);
      case Spawn(_, _) => QuietStepKeepsPendingHeld(s, t, name);
      case Write(w) => QuietStepKeepsPendingHeld(s, t, name);
      case CheckRunning(w) => QuietStepKeepsPendingHeld(s, t, name);
      case Signal(w) => QuietStepKeepsPendingHeld(s, t, name);
    }
  }

  lemma {:induction false} RunKeepsPendingHeld(trace: seq<Step>, name: string, most: nat)
    requires Calm(trace, most)
    ensures PendingIsHeld(Run(EMPTY, trace), name)
  {
    hide Invariant, CalmWorkers, AllHeld, Apply;
    if trace != [] {
      var front, last := trace[..|trace| - 1], trace[|trace| - 1];
      assert last in trace;
      RunKeepsPendingHeld(front, name, most);
      RunKeepsAllHeld(front, name, most);
      EveryRunKeepsInvariant(front);
      StepKeepsPendingHeld(Run(EMPTY, front), last, name, most);
    }
  }

  ghost predicate NobodyHolds(s: System, name: string) {
    forall worker | worker in s.workers && worker.group == name :: !worker.phase.Holding?
  }

  lemma CalmIsNoReclaim(trace: seq<Step>, most: nat)
    requires Calm(trace, most)
    ensures NoReclaim(trace)
  {
  }

  /** A message that a worker holds has no row yet: there is at most one copy of it. */
  lemma HeldIsUnstored(trace: seq<Step>, most: nat, name: string, w: nat) returns (id: nat)
    requires Calm(trace, most)
    requires var s := Run(EMPTY, trace);
             w < |s.workers| && s.workers[w].group == name && s.workers[w].phase.Holding?
    ensures id < |Run(EMPTY, trace).stream| && !HasRow(Run(EMPTY, trace), name, id)
  {
    hide Run, RowCount, HeldCount, HasRow, Reclaims, AllHeld, Once;
    var s := Run(EMPTY, trace);
    RunKeepsAllHeld(trace, name, most);
    EveryRunKeepsInvariant(trace);
    assert CalmWorker(s.workers[w], most) && WorkerOk(s, s.workers[w]);
    var e := s.workers[w].phase.batch[0];
    assert e in s.workers[w].phase.batch;
    id := e.id;
    CalmIsNoReclaim(trace, most);
    NothingReclaimed(trace, name, id);
    CopiesAreBounded(trace, name, id);
    OnceIsSmall(Delivered(s, name, id));
    HolderCounts(s.workers, name, id, w);
    if HasRow(s, name, id) {
      HasRowIsCounted(s, name, id);
      assert false;
    }
  }

  lemma OnceIsSmall(b: bool)
    ensures Once(b) <= 1
  {
  }

  lemma {:induction false} HolderCounts(workers: seq<Worker>, name: string, id: nat, w: nat)
    requires w < |workers| && Holds(workers[w], name, id)
    ensures HeldCount(workers, name, id) >= 1
  {
    if w < |workers| - 1 {
      HolderCounts(workers[..|workers| - 1], name, id, w);
    }
  }

  /** For calm workers, a lag of zero means that every message is stored if and only if no worker of the
      group is between reading a batch and writing it. */
  lemma CaughtUpIsStoredIff(trace: seq<Step>, name: string, most: nat)
    requires Calm(trace, most) && name in Run(EMPTY, trace).groups
    requires Lag(Run(EMPTY, trace), name) == 0
    ensures var s := Run(EMPTY, trace);
            ((forall id: nat | id < |s.stream| :: HasRow(s, name, id)) <==> NobodyHolds(s, name))
  {
    hide Run, HasRow, IdsOf;
    var s := Run(EMPTY, trace);
    StoredAtZeroLagIff(trace, name);
    if !NobodyHolds(s, name) {
      var worker :| worker in s.workers && worker.group == name && worker.phase.Holding?;
      var w :| 0 <= w < |s.workers| && s.workers[w] == worker;
      var id := HeldIsUnstored(trace, most, name, w);
    } else {
      RunKeepsPendingHeld(trace, name, most);
      EveryRunKeepsInvariant(trace);
      forall id | id in s.groups[name].pending
        ensures HasRow(s, name, id)
      {
        assert HeldByOwner(s, name, id);
        OwnerStored(s, name, id);
      }
    }
  }

  lemma OwnerStored(s: System, name: string, id: nat)
    requires Invariant(s) && NobodyHolds(s, name)
    requires name in s.groups && id in s.groups[name].pending && HeldByOwner(s, name, id)
    ensures HasRow(s, name, id)
  {
    hide HasRow;
    var worker := s.workers[s.groups[name].pending[id]];
    assert WorkerOk(s, worker) && worker in s.workers;
    var e :| e in BatchOf(worker) && e.id == id;
  }

  /** And then every message is stored exactly once, and the return values add up to what is not still
      waiting for its acknowledgement. */
  lemma CalmDrainExactlyOnce(trace: seq<Step>, name: string, most: nat)
    requires Calm(trace, most) && name in Run(EMPTY, trace).groups
    requires Lag(Run(EMPTY, trace), name) == 0 && NobodyHolds(Run(EMPTY, trace), name)
    ensures var s := Run(EMPTY, trace);
            && (forall id: nat | id < |s.stream| :: RowCount(s.table, s.workers, name, id) == 1)
            && ProcessedTotal(s.workers, name) + PendingCount(s, name) == |s.stream|
  {
    hide Run, HasRow, RowCount, HeldCount, ProcessedTotal, Invariant;
    var s := Run(EMPTY, trace);
    CalmIsNoReclaim(trace, most);
    CaughtUpIsStoredIff(trace, name, most);
    EveryRunKeepsInvariant(trace);
    RunKeepsTallied(trace, name);
    GroupConserves(s, name);
    forall id: nat | id < |s.stream|
      ensures RowCount(s.table, s.workers, name, id) == 1
    {
      HasRowIsCounted(s, name, id);
      DeliveredOnce(trace, name, id);
    }
  }

  /** The verdict alone does not mean stored: one worker that has read a message and not yet
      written it shows a lag of zero over an empty table. */
  lemma CaughtUpIsNotStored(symbol: Symbol, price: real, size: Option<real>, time: int, name: string, limits: Limits)
    requires limits.readBatchSize >= 1 && limits.maxMessages == None
    ensures var s := Run(EMPTY, [Ingest(symbol, price, size, time), Spawn(name, limits), CheckRunning(0), Read(0)]);
            && name in s.groups && Lag(s, name) == 0 && PendingCount(s, name) == 1
            && |s.stream| == 1 && s.table == []
  {
    FirstReadIsReached(symbol, price, size, time, name, limits);
  }

  lemma RunOneMore(trace: seq<Step>, step: Step)
    ensures Run(EMPTY, trace + [step]) == Apply(Run(EMPTY, trace), step)
  {
  }

  lemma RunFour(s: System, a: Step, b: Step, c: Step, d: Step)
    ensures Run(s, [a, b, c, d]) == Apply(Apply(Apply(Apply(s, a), b), c), d)
  {
    hide Apply;
    assert [a, b, c, d][..3] == [a, b, c] && [a, b, c][..2] == [a, b] && [a, b][..1] == [a] && [a][..0] == [];
    assert Run(s, [a]) == Apply(s, a);
    assert Run(s, [a, b]) == Apply(Run(s, [a]), b);
    assert Run(s, [a, b, c]) == Apply(Run(s, [a, b]), c);
  }

  // ---------- The duplication bound is reached ----------

  function FirstRead(tick: Tick, name: string, limits: Limits): System {
    System(map[tick.symbol := 1], [tick], map[name := Group(1, map[0 := 0], {})],
           [Worker(name, limits, Holding([Entry(0, tick)]), true, 0, 0)], [])
  }

  function FirstPoll(tick: Tick, name: string, limits: Limits): System {
    System(map[tick.symbol := 1], [tick], map[name := Group(0, map[], {})],
           [Worker(name, limits, Polling, true, 0, 0)], [])
  }

  lemma FirstPollIsReached(symbol: Symbol, price: real, size: Option<real>, time: int, name: string, limits: Limits)
    requires limits.readBatchSize >= 1
    ensures Apply(Apply(Apply(EMPTY, Ingest(symbol, price, size, time)), Spawn(name, limits)), CheckRunning(0))
         == FirstPoll(Tick(symbol, 1, price, size, time), name, limits)
  {
  }

  lemma FirstBatchIsRead(tick: Tick, name: string, limits: Limits)
    requires limits.readBatchSize >= 1 && limits.maxMessages == None
    ensures Apply(FirstPoll(tick, name, limits), Read(0)) == FirstRead(tick, name, limits)
  {
    hide DoWrite, DoAck, DoClaim;
    assert EntriesBetween([tick], 0, 1) == [Entry(0, tick)];
    assert map[] + Own(0, 1, 0) == map[0 := 0];
  }

  lemma FirstReadIsReached(symbol: Symbol, price: real, size: Option<real>, time: int, name: string, limits: Limits)
    requires limits.readBatchSize >= 1 && limits.maxMessages == None
    ensures Run(EMPTY, [Ingest(symbol, price, size, time), Spawn(name, limits), CheckRunning(0), Read(0)])
         == FirstRead(Tick(symbol, 1, price, size, time), name, limits)
  {
    hide Apply;
    RunFour(EMPTY, Ingest(symbol, price, size, time), Spawn(name, limits), CheckRunning(0), Read(0));
    FirstPollIsReached(symbol, price, size, time, name, limits);
    FirstBatchIsRead(Tick(symbol, 1, price, size, time), name, limits);
  }

  /** What a second worker finds after the first wrote its batch and crashed. */
  function AfterCrash(tick: Tick, name: string, limits: Limits): System {
    System(map[tick.symbol := 1], [tick], map[name := Group(1, map[0 := 0], {})],
           [Worker(name, limits, Crashed, true, 0, 0), Worker(name, limits, AtLoopHead, true, 0, 0)], [Row(0, tick, 0)])
  }

  lemma CrashIsReached(tick: Tick, name: string, limits: Limits)
    requires limits.readBatchSize >= 1
    ensures Apply(Apply(Apply(FirstRead(tick, name, limits), Write(0)), Crash(0)), Spawn(name, limits))
         == AfterCrash(tick, name, limits)
  {
    hide DoRead, DoAck, DoClaim;
    var s := FirstRead(tick, name, limits);
    assert RowsOf([Entry(0, tick)], 0) == [Row(0, tick, 0)];
    assert Apply(Apply(s, Write(0)), Crash(0))
        == s.(workers := [Worker(name, limits, Crashed, true, 0, 0)], table := [Row(0, tick, 0)]);
  }

  lemma ReclaimWritesAgain(tick: Tick, name: string, limits: Limits)
    ensures var t := Apply(Apply(AfterCrash(tick, name, limits), Claim(1, [0])), Write(1));
            && t.table == [Row(0, tick, 0), Row(0, tick, 1)]
            && |t.workers| == 2 && t.workers[0].group == name && t.workers[1].group == name
  {
    hide DoRead, DoAck;
    assert Claimed([tick], [0]) == [Entry(0, tick)];
    assert RowsOf([Entry(0, tick)], 1) == [Row(0, tick, 1)];
  }

  /** A worker that wrote a batch and crashed before acknowledging it leaves the entry pending; the
      worker that reclaims it writes it again. One reclaim, two rows. */
  lemma CrashAfterWriteDuplicates(
      symbol: Symbol, price: real, size: Option<real>, time: int, name: string, limits: Limits)
    requires limits.readBatchSize >= 1 && limits.maxMessages == None
    ensures var reading := [Ingest(symbol, price, size, time), Spawn(name, limits), CheckRunning(0), Read(0)];
            var s := Run(Run(EMPTY, reading), [Write(0), Crash(0), Spawn(name, limits), Claim(1, [0]), Write(1)]);
            RowCount(s.table, s.workers, name, 0) == 2
  {
    hide Apply, Run, RowCount;
    var tick := Tick(symbol, 1, price, size, time);
    FirstReadIsReached(symbol, price, size, time, name, limits);
    RunFive(FirstRead(tick, name, limits), Write(0), Crash(0), Spawn(name, limits), Claim(1, [0]), Write(1));
    CrashIsReached(tick, name, limits);
    ReclaimWritesAgain(tick, name, limits);
    var t := Apply(Apply(AfterCrash(tick, name, limits), Claim(1, [0])), Write(1));
    TwoRows(t.workers, name, tick);
  }

  lemma TwoRows(workers: seq<Worker>, name: string, tick: Tick)
    requires |workers| == 2 && workers[0].group == name && workers[1].group == name
    ensures RowCount([Row(0, tick, 0), Row(0, tick, 1)], workers, name, 0) == 2
  {
    var row0, row1 := Row(0, tick, 0), Row(0, tick, 1);
    assert [row0, row1][..1] == [row0] && [row0][..0] == [];
    assert RowCount([row0], workers, name, 0) == 1;
  }

  lemma RunFive(s: System, a: Step, b: Step, c: Step, d: Step, e: Step)
    ensures Run(s, [a, b, c, d, e]) == Apply(Apply(Apply(Apply(Apply(s, a), b), c), d), e)
  {
    hide Apply;
    assert [a, b, c, d, e][..4] == [a, b, c, d];
    RunFour(s, a, b, c, d);
  }
}
