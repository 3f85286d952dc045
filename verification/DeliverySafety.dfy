/** What every step of the delivery protocol keeps, with any number of groups and workers, crashes,
    truncated batches and reclaims, in any interleaving.
 */
module DeliverySafety {
  import opened Models
  import opened Delivery

  ghost predicate IncreasingIds(batch: seq<Entry>) {
    forall i, j | 0 <= i < j < |batch| :: batch[i].id < batch[j].id
  }

  ghost predicate EntriesFrom(batch: seq<Entry>, stream: seq<Tick>, cursor: nat) {
    forall e | e in batch :: e.id < cursor && e.id < |stream| && e.tick == stream[e.id]
  }

  /** A row of message `id` was written by a worker of the group. */
  ghost predicate HasRow(s: System, name: string, id: nat) {
    exists row :: row in s.table && WrittenFor(s, row, name, id)
  }

  ghost predicate WrittenFor(s: System, row: Row, name: string, id: nat) {
    row.id == id && row.worker < |s.workers| && s.workers[row.worker].group == name
  }

  /** The delivered prefix is split into pending and acknowledged entries. */
  ghost predicate GroupSplit(g: Group, length: nat) {
    && g.cursor <= length
    && (forall id | id in g.pending :: id !in g.acked)
    && (forall id: nat :: id in g.pending || id in g.acked <==> id < g.cursor)
  }

  ghost predicate WorkerOk(s: System, worker: Worker) {
    && worker.group in s.groups
    && IncreasingIds(BatchOf(worker))
    && EntriesFrom(BatchOf(worker), s.stream, s.groups[worker.group].cursor)
    && (worker.phase.Stored? ==> forall e | e in worker.phase.batch :: HasRow(s, worker.group, e.id))
  }

  ghost predicate RowOk(s: System, row: Row) {
    && row.worker < |s.workers|
    && s.workers[row.worker].group in s.groups
    && row.id < s.groups[s.workers[row.worker].group].cursor
    && row.id < |s.stream| && row.tick == s.stream[row.id]
  }

  ghost predicate Invariant(s: System) {
    && (forall name | name in s.groups :: GroupSplit(s.groups[name], |s.stream|))
    && (forall w | 0 <= w < |s.workers| :: WorkerOk(s, s.workers[w]))
    && (forall row | row in s.table :: RowOk(s, row))
    && (forall name, id | name in s.groups && id in s.groups[name].acked :: HasRow(s, name, id))
  }

  // ---------- A step only extends ----------

  /** The stream, the table, the set of workers and of groups only grow; cursors only advance;
      a worker never changes its group. */
  ghost predicate Extends(s: System, t: System) {
    && s.stream <= t.stream
    && s.table <= t.table
    && |s.workers| <= |t.workers|
    && (forall w | 0 <= w < |s.workers| :: s.workers[w].group == t.workers[w].group)
    && (forall name | name in s.groups :: name in t.groups && s.groups[name].cursor <= t.groups[name].cursor)
  }

  lemma ApplyExtends(s: System, step: Step)
    ensures Extends(s, Apply(s, step))
  {
    match step
    case Read(w) =>
    case Ack(w) =>
    case Write(w) =>
    case Claim(w, ids) =>
    case _ =>
  }

  lemma ExtendedRow(s: System, t: System, name: string, id: nat)
    requires Extends(s, t) && HasRow(s, name, id)
    ensures HasRow(t, name, id)
  {
    var row :| row in s.table && WrittenFor(s, row, name, id);
    assert row in t.table && WrittenFor(t, row, name, id);
  }

  /** What held of a worker that a step left alone still holds. */
  lemma ExtendedWorker(s: System, t: System, worker: Worker)
    requires Extends(s, t) && WorkerOk(s, worker)
    ensures WorkerOk(t, worker)
  {
    if worker.phase.Stored? {
      forall e | e in worker.phase.batch
        ensures HasRow(t, worker.group, e.id)
      {
        ExtendedRow(s, t, worker.group, e.id);
      }
    }
  }

  lemma ExtendedTableRow(s: System, t: System, row: Row)
    requires Extends(s, t) && RowOk(s, row)
    ensures RowOk(t, row)
  {
  }

  /** A step that writes no row and changes only worker `w` and its group keeps the invariant if the
      new worker, the new split and the newly acknowledged entries are fine. */
  lemma LocalStepKeeps(s: System, t: System, w: nat)
    requires Invariant(s) && Extends(s, t)
    requires s.table == t.table && s.stream == t.stream && w < |s.workers| == |t.workers|
    requires forall v | 0 <= v < |s.workers| && v != w :: t.workers[v] == s.workers[v]
    requires t.groups.Keys == s.groups.Keys
    requires forall name | name in s.groups && name != s.workers[w].group :: t.groups[name] == s.groups[name]
    requires s.workers[w].group in t.groups
    requires GroupSplit(t.groups[s.workers[w].group], |t.stream|)
    requires WorkerOk(t, t.workers[w])
    requires forall id | id in t.groups[s.workers[w].group].acked :: HasRow(t, s.workers[w].group, id)
    ensures Invariant(t)
  {
  }

  lemma EntriesAreFrom(stream: seq<Tick>, from: nat, to: nat)
    requires from <= to <= |stream|
    ensures IncreasingIds(EntriesBetween(stream, from, to))
    ensures EntriesFrom(EntriesBetween(stream, from, to), stream, to)
    ensures forall e | e in EntriesBetween(stream, from, to) :: from <= e.id
  {
  }

  lemma TruncateIsPrefix(entries: seq<Entry>, limits: Limits, processed: nat)
    ensures Truncate(entries, limits, processed) <= entries
  {
  }

  lemma ReadSplit(g: Group, end: nat, w: nat, length: nat)
    requires GroupSplit(g, length) && g.cursor <= end <= length
    ensures GroupSplit(g.(cursor := end, pending := g.pending + Own(g.cursor, end, w)), length)
  {
  }

  lemma ReadKeeps(s: System, w: nat)
    requires Invariant(s) && Enabled(s, Read(w))
    ensures Invariant(DoRead(s, w))
  {
    var t, worker := DoRead(s, w), s.workers[w];
    var g := s.groups[worker.group];
    assert GroupSplit(g, |s.stream|) && WorkerOk(s, worker);
    var end := ReadEnd(g, s.stream, worker.limits.readBatchSize);
    ApplyExtends(s, Read(w));
    forall id | id in g.acked
      ensures HasRow(t, worker.group, id)
    {
      assert HasRow(s, worker.group, id);
      ExtendedRow(s, t, worker.group, id);
    }
    if end > g.cursor {
      ReadSplit(g, end, w, |s.stream|);
      ReadBatchIsFrom(s.stream, g.cursor, end, worker.limits, worker.processed);
    }
    hide Invariant, GroupSplit, HasRow, Extends, EntriesFrom, IncreasingIds;
    LocalStepKeeps(s, t, w);
  }

  lemma PrefixIsFrom(prefix: seq<Entry>, entries: seq<Entry>, stream: seq<Tick>, to: nat)
    requires prefix <= entries && IncreasingIds(entries) && EntriesFrom(entries, stream, to)
    ensures IncreasingIds(prefix) && EntriesFrom(prefix, stream, to)
  {
    assert forall i | 0 <= i < |prefix| :: prefix[i] == entries[i];
    forall e | e in prefix
      ensures e in entries
    {
    }
  }

  lemma ReadBatchIsFrom(stream: seq<Tick>, from: nat, to: nat, limits: Limits, processed: nat)
    requires from <= to <= |stream|
    ensures var batch := Truncate(EntriesBetween(stream, from, to), limits, processed);
            IncreasingIds(batch) && EntriesFrom(batch, stream, to)
  {
    hide Truncate, EntriesBetween, IncreasingIds, EntriesFrom;
    var entries := EntriesBetween(stream, from, to);
    EntriesAreFrom(stream, from, to);
    TruncateIsPrefix(entries, limits, processed);
    PrefixIsFrom(Truncate(entries, limits, processed), entries, stream, to);
  }

  lemma AckSplit(g: Group, ids: set<nat>, length: nat)
    requires GroupSplit(g, length)
    ensures GroupSplit(g.(pending := g.pending - ids, acked := g.acked + (ids * g.pending.Keys)), length)
  {
  }

  /** Writing comes before acknowledging, so whatever an acknowledgement removes has a row. */
  lemma AckKeeps(s: System, w: nat)
    requires Invariant(s) && Enabled(s, Ack(w))
    ensures Invariant(DoAck(s, w))
  {
    var t, worker := DoAck(s, w), s.workers[w];
    var g := s.groups[worker.group];
    assert WorkerOk(s, worker) && GroupSplit(g, |s.stream|);
    ApplyExtends(s, Ack(w));
    AckSplit(g, IdsOf(worker.phase.batch), |s.stream|);
    forall id | id in t.groups[worker.group].acked
      ensures HasRow(t, worker.group, id)
    {
      if id in g.acked {
        assert HasRow(s, worker.group, id);
      } else {
        var e :| e in worker.phase.batch && e.id == id;
        assert HasRow(s, worker.group, e.id);
      }
      ExtendedRow(s, t, worker.group, id);
    }
    LocalStepKeeps(s, t, w);
  }

  lemma ClaimSplit(g: Group, ids: seq<nat>, w: nat, length: nat)
    requires GroupSplit(g, length) && forall id | id in ids :: id in g.pending
    ensures GroupSplit(g.(pending := g.pending + map id | id in ids :: w), length)
  {
  }

  lemma ClaimedAreFrom(stream: seq<Tick>, ids: seq<nat>, cursor: nat)
    requires Increasing(ids) && forall id | id in ids :: id < cursor && id < |stream|
    ensures IncreasingIds(Claimed(stream, ids)) && EntriesFrom(Claimed(stream, ids), stream, cursor)
  {
    forall e | e in Claimed(stream, ids)
      ensures e.id < cursor && e.id < |stream| && e.tick == stream[e.id]
    {
      var i :| 0 <= i < |ids| && Claimed(stream, ids)[i] == e;
      assert ids[i] in ids;
    }
  }

  lemma ClaimKeeps(s: System, w: nat, ids: seq<nat>)
    requires Invariant(s) && Enabled(s, Claim(w, ids))
    ensures Invariant(DoClaim(s, w, ids))
  {
    var t, worker := DoClaim(s, w, ids), s.workers[w];
    var g := s.groups[worker.group];
    assert WorkerOk(s, worker) && GroupSplit(g, |s.stream|);
    ApplyExtends(s, Claim(w, ids));
    ClaimSplit(g, ids, w, |s.stream|);
    ClaimedAreFrom(s.stream, ids, g.cursor);
    forall id | id in g.acked
      ensures HasRow(t, worker.group, id)
    {
      assert HasRow(s, worker.group, id);
      ExtendedRow(s, t, worker.group, id);
    }
    LocalStepKeeps(s, t, w);
  }

  /** The rows of a batch that a worker held are fine, and give each of its messages a row. */
  lemma NewRowsAreFine(s: System, w: nat)
    requires Invariant(s) && Enabled(s, Write(w))
    ensures var t, batch := DoWrite(s, w), s.workers[w].phase.batch;
            && (forall row | row in RowsOf(batch, w) :: RowOk(t, row))
            && WorkerOk(t, t.workers[w])
  {
    var t, worker := DoWrite(s, w), s.workers[w];
    var batch := worker.phase.batch;
    assert WorkerOk(s, worker);
    forall row | row in RowsOf(batch, w)
      ensures RowOk(t, row)
    {
      var i :| 0 <= i < |batch| && row == Row(batch[i].id, batch[i].tick, w);
      assert batch[i] in batch;
    }
    forall e | e in batch
      ensures HasRow(t, worker.group, e.id)
    {
      var i :| 0 <= i < |batch| && batch[i] == e;
      assert RowsOf(batch, w)[i] in t.table;
      assert WrittenFor(t, RowsOf(batch, w)[i], worker.group, e.id);
    }
  }

  lemma WriteKeeps(s: System, w: nat)
    requires Invariant(s) && Enabled(s, Write(w))
    ensures Invariant(DoWrite(s, w))
  {
    hide WorkerOk, RowOk, HasRow, GroupSplit, RowsOf, Extends;
    var t := DoWrite(s, w);
    ApplyExtends(s, Write(w));
    NewRowsAreFine(s, w);
    forall v | 0 <= v < |t.workers|
      ensures WorkerOk(t, t.workers[v])
    {
      if v != w {
        ExtendedWorker(s, t, s.workers[v]);
      }
    }
    forall row | row in t.table
      ensures RowOk(t, row)
    {
      if row in s.table {
        ExtendedTableRow(s, t, row);
      }
    }
    forall name, id | name in t.groups && id in t.groups[name].acked
      ensures HasRow(t, name, id)
    {
      ExtendedRow(s, t, name, id);
    }
  }

  lemma SplitGrows(g: Group, length: nat, longer: nat)
    requires length <= longer
    requires GroupSplit(g, length) || g == Group(0, map[], {})
    ensures GroupSplit(g, longer)
  {
  }

  ghost predicate SameBatch(before: Worker, after: Worker) {
    || (BatchOf(after) == BatchOf(before) && (after.phase.Stored? ==> before.phase == after.phase))
    || (BatchOf(after) == [] && !after.phase.Stored?)
  }

  /** Steps that touch neither a pending list nor the table. */
  lemma QuietStepKeeps(s: System, t: System)
    requires Invariant(s) && Extends(s, t) && t.table == s.table
    requires forall name | name in s.groups :: t.groups[name] == s.groups[name]
    requires forall name | name in t.groups && name !in s.groups :: t.groups[name] == Group(0, map[], {})
    requires forall w | 0 <= w < |s.workers| ::
               SameBatch(s.workers[w], t.workers[w])
    requires forall w | |s.workers| <= w < |t.workers| ::
               t.workers[w].group in t.groups && t.workers[w].phase.AtLoopHead?
    ensures Invariant(t)
  {
    forall w | 0 <= w < |t.workers|
      ensures WorkerOk(t, t.workers[w])
    {
      if w < |s.workers| {
        assert WorkerOk(s, s.workers[w]);
        ExtendedWorker(s, t, s.workers[w]);
      }
    }
    hide WorkerOk, HasRow;
    forall row | row in t.table
      ensures RowOk(t, row)
    {
      ExtendedTableRow(s, t, row);
    }
    forall name, id | name in t.groups && id in t.groups[name].acked
      ensures HasRow(t, name, id)
    {
      ExtendedRow(s, t, name, id);
    }
    forall name | name in t.groups
      ensures GroupSplit(t.groups[name], |t.stream|)
    {
      if name in s.groups {
        assert GroupSplit(s.groups[name], |s.stream|);
        SplitGrows(s.groups[name], |s.stream|, |t.stream|);
      } else {
        SplitGrows(Group(0, map[], {}), 0, |t.stream|);
      }
    }
  }

  lemma StepKeepsInvariant(s: System, step: Step)
    requires Invariant(s)
    ensures Invariant(Apply(s, step))
  {
    var t := Apply(s, step);
    ApplyExtends(s, step);
    hide Invariant, Extends;
    if Enabled(s, step) {
      match step
      case Read(w) => ReadKeeps(s, w);
      case Write(w) => WriteKeeps(s, w);
      case Ack(w) => AckKeeps(s, w);
      case Claim(w, ids) => ClaimKeeps(s, w, ids);
      case _ => QuietStepKeeps(s, t);
    }
  }

  lemma {:induction false} EveryRunKeepsInvariant(trace: seq<Step>)
    ensures Invariant(Run(EMPTY, trace))
  {
    if trace != [] {
      EveryRunKeepsInvariant(trace[..|trace| - 1]);
      StepKeepsInvariant(Run(EMPTY, trace[..|trace| - 1]), trace[|trace| - 1]);
    }
  }

  /** Whatever was acknowledged in a group was written by one of its workers, in every reachable
      state: write comes before acknowledge. */
  lemma AcknowledgedIsStored(trace: seq<Step>, name: string, id: nat)
    requires name in Run(EMPTY, trace).groups && id in Run(EMPTY, trace).groups[name].acked
    ensures exists row :: row in Run(EMPTY, trace).table && WrittenFor(Run(EMPTY, trace), row, name, id)
  {
    EveryRunKeepsInvariant(trace);
    assert HasRow(Run(EMPTY, trace), name, id);
  }
}
