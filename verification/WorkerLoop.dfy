/** `run_worker`, statement by statement, running among other processes.

    The loop is proved to be a run of the protocol: after it, the shared state is the one that
    the trace of its own actions, interleaved with everything that happened elsewhere, leads to.
    So every theorem about protocol runs applies to it.
 */
module WorkerLoop {
  import opened Models
  import opened Delivery
  import opened DeliverySafety
  import opened RedisStream

  /** What happens elsewhere during one turn of the loop. */
  datatype Turn = Turn(beforeRead: seq<Step>, beforeWrite: seq<Step>, beforeAck: seq<Step>, afterAck: seq<Step>)

  datatype Outcome =
    | Returned(processed: nat)
    | Raised
    | Unfinished   // still in the loop when the given turns ran out

  ghost predicate Elsewhere(turn: Turn, me: nat) {
    && (forall step | step in turn.beforeRead :: Foreign(step, me))
    && (forall step | step in turn.beforeWrite :: Foreign(step, me))
    && (forall step | step in turn.beforeAck :: Foreign(step, me))
    && (forall step | step in turn.afterAck :: Foreign(step, me))
  }

  // ---------- Runs and traces ----------

  /** The process's own actions were possible when it took them. */
  ghost predicate Genuine(start: System, trace: seq<Step>, me: nat) {
    forall i | 0 <= i < |trace| && !Foreign(trace[i], me) :: Enabled(Run(start, trace[..i]), trace[i])
  }

  /** The trace so far leads from `start` to `now`, and the process is at `worker`. */
  ghost predicate Follows(start: System, trace: seq<Step>, now: System, me: nat, worker: Worker) {
    && now == Run(start, trace) && Genuine(start, trace, me) && Invariant(now)
    && me < |now.workers| && now.workers[me] == worker && worker.group in now.groups
  }

  lemma OwnStep(start: System, trace: seq<Step>, now: System, me: nat, worker: Worker, step: Step)
    requires Follows(start, trace, now, me, worker) && !Foreign(step, me) && Enabled(now, step)
    requires me < |Apply(now, step).workers|
    ensures Follows(start, trace + [step], Apply(now, step), me, Apply(now, step).workers[me])
  {
    hide Apply, Invariant, Enabled;
    var longer := trace + [step];
    assert longer[..|trace|] == trace;
    forall i | 0 <= i < |longer| && !Foreign(longer[i], me)
      ensures Enabled(Run(start, longer[..i]), longer[i])
    {
      assert longer[..i] == if i < |trace| then trace[..i] else trace;
    }
    StepKeepsInvariant(now, step);
    GroupsStay(now, step, worker.group);
    GroupStays(now, step, me);
  }

  lemma GroupsStay(s: System, step: Step, name: string)
    requires name in s.groups
    ensures name in Apply(s, step).groups
  {
  }

  lemma GroupStays(s: System, step: Step, me: nat)
    requires me < |s.workers|
    ensures me < |Apply(s, step).workers| && Apply(s, step).workers[me].group == s.workers[me].group
  {
    hide Apply;
    ApplyExtends(s, step);
  }

  /** Others can only make a process stop looping: they touch nothing else of it. */
  lemma ForeignStep(s: System, step: Step, me: nat)
    requires Foreign(step, me) && me < |s.workers|
    ensures var t := Apply(s, step);
            && me < |t.workers|
            && t.workers[me] == s.workers[me].(running := t.workers[me].running)
            && (t.workers[me].running ==> s.workers[me].running)
  {
  }

  lemma {:induction false} OthersRan(
      start: System, trace: seq<Step>, now: System, me: nat, worker: Worker, steps: seq<Step>)
    requires Follows(start, trace, now, me, worker)
    requires forall step | step in steps :: Foreign(step, me)
    ensures var later := Run(now, steps);
            && me < |later.workers|
            && later.workers[me] == worker.(running := later.workers[me].running)
            && (later.workers[me].running ==> worker.running)
            && Follows(start, trace + steps, later, me, later.workers[me])
  {
    hide Apply, Invariant, Genuine;
    if steps == [] {
      assert trace + steps == trace;
    } else {
      var front, last := steps[..|steps| - 1], steps[|steps| - 1];
      assert last in steps && forall step | step in front :: step in steps;
      OthersRan(start, trace, now, me, worker, front);
      var mid := Run(now, front);
      ForeignStep(mid, last, me);
      assert trace + steps == (trace + front) + [last];
      ForeignFollows(start, trace + front, mid, me, mid.workers[me], last);
    }
  }

  lemma ForeignFollows(start: System, trace: seq<Step>, now: System, me: nat, worker: Worker, step: Step)
    requires Follows(start, trace, now, me, worker) && Foreign(step, me)
    ensures me < |Apply(now, step).workers|
    ensures Follows(start, trace + [step], Apply(now, step), me, Apply(now, step).workers[me])
  {
    hide Apply, Invariant, Enabled;
    var longer := trace + [step];
    assert longer[..|trace|] == trace;
    forall i | 0 <= i < |longer| && !Foreign(longer[i], me)
      ensures Enabled(Run(start, longer[..i]), longer[i])
    {
      assert longer[..i] == if i < |trace| then trace[..i] else trace;
    }
    StepKeepsInvariant(now, step);
    GroupsStay(now, step, worker.group);
    GroupStays(now, step, me);
  }

  // ---------- One process's actions ----------

  /** What a process keeps to itself. */
  predicate IsAt(worker: Worker, consumer: StreamConsumer, limits: Limits, processed: nat, idleReads: nat) {
    && worker.group == consumer.group && worker.limits == limits
    && worker.processed == processed && worker.idleReads == idleReads
  }

  /** Checks `running` at the head of the loop. */
  method CheckLoop(world: World, me: nat) returns (running: bool)
    requires me < |world.workers| && world.workers[me].phase.AtLoopHead?
    modifies world`workers
    ensures world.Current() == Apply(old(world.Current()), CheckRunning(me))
    ensures running == old(world.workers[me].running) && |world.workers| == |old(world.workers)|
    ensures world.workers[me] == old(world.workers[me]).(phase := if running then Polling else Stopped)
  {
    running := world.workers[me].running;
    world.workers := world.workers[me := world.workers[me].(phase := if running then Polling else Stopped)];
  }

  /** How many of the entries it was given a worker keeps: up to its cap, and once it is past the cap the
      excess again fewer. */
  function KeptOf(given: int, limits: Limits, processed: nat): int {
    if limits.maxMessages.None? then given
    else
      var room := limits.maxMessages.value - processed;
      if room >= 0 then Min(given, room) else if given + room >= 0 then given + room else 0
  }

  /** Reads, counts idle reads, and cuts the batch at the message cap. */
  method ReadBatch(world: World, consumer: StreamConsumer, limits: Limits, processed: nat, idleReads: nat)
    returns (batch: seq<Entry>, idle: nat, stop: bool)
    requires consumer.world == world && consumer.consumer < |world.workers|
    requires consumer.group in world.groups && world.groups[consumer.group].cursor <= |world.stream|
    requires world.workers[consumer.consumer].phase.Polling?
    requires IsAt(world.workers[consumer.consumer], consumer, limits, processed, idleReads)
    requires limits.readBatchSize >= 1
    modifies world`groups, world`workers
    ensures world.Current() == Apply(old(world.Current()), Read(consumer.consumer))
    ensures consumer.consumer < |world.workers|
    ensures IsAt(world.workers[consumer.consumer], consumer, limits, processed, idle)
    ensures world.workers[consumer.consumer].running == old(world.workers[consumer.consumer].running)
    ensures world.workers[consumer.consumer].phase
         == if idle == 0 then Holding(batch) else if stop then Stopped else AtLoopHead
    ensures stop ==> idle > 0
    ensures idle > 0 ==> batch == []
    ensures limits.maxMessages.Some? && processed <= limits.maxMessages.value ==>
              processed + |batch| <= limits.maxMessages.value
    ensures idle == 0 && batch == [] ==> limits.maxMessages.Some? && limits.maxMessages.value <= processed
    ensures var cursor := old(world.groups[consumer.group]).cursor;
            var given := Min(limits.readBatchSize, |world.stream| - cursor);
            && idle == (if given == 0 then idleReads + 1 else 0)
            && (stop <==> given == 0 && limits.maxIdleReads.Some? && idleReads + 1 >= limits.maxIdleReads.value)
            && |batch| == KeptOf(given, limits, processed)
            && forall i | 0 <= i < |batch| :: batch[i] == Entry(cursor + i, world.stream[cursor + i])
  {
    hide Run;
    var me := consumer.consumer;
    ghost var before := world.Current();
    var messages := consumer.Read(limits.readBatchSize);
    ghost var g := before.groups[consumer.group];
    assert messages == [] <==> ReadEnd(g, before.stream, limits.readBatchSize) <= g.cursor;
    if messages == [] {
      batch, idle := [], idleReads + 1;
      stop := limits.maxIdleReads.Some? && idle >= limits.maxIdleReads.value;
      world.workers :=
        world.workers[me := world.workers[me].(idleReads := idle, phase := if stop then Stopped else AtLoopHead)];
    } else {
      idle, stop, batch := 0, false, messages;
      if limits.maxMessages.Some? && processed + |batch| > limits.maxMessages.value {
        batch := Slice(messages, limits.maxMessages.value - processed);
      }
      world.workers := world.workers[me := world.workers[me].(idleReads := 0, phase := Holding(batch))];
    }
    assert world.Current() == DoRead(before, me);
  }

  method WriteBatch(world: World, me: nat, batch: seq<Entry>)
    requires me < |world.workers| && world.workers[me].phase == Holding(batch)
    modifies world`table, world`workers
    ensures world.Current() == Apply(old(world.Current()), Write(me))
    ensures |world.workers| == |old(world.workers)|
    ensures world.workers[me] == old(world.workers[me]).(phase := Delivery.Stored(batch))
  {
    world.WriteTicksBatch(batch, me);
    world.workers := world.workers[me := world.workers[me].(phase := Delivery.Stored(batch))];
  }

  function MessageIds(batch: seq<Entry>): seq<nat> {
    seq(|batch|, i requires 0 <= i < |batch| => batch[i].id)
  }

  lemma MessageIdsAreIds(batch: seq<Entry>)
    ensures Listed(MessageIds(batch)) == IdsOf(batch)
  {
    assert forall i | 0 <= i < |batch| :: MessageIds(batch)[i] == batch[i].id;
    forall id | id in IdsOf(batch)
      ensures id in MessageIds(batch)
    {
      var e :| e in batch && e.id == id;
      var i :| 0 <= i < |batch| && batch[i] == e;
      assert MessageIds(batch)[i] == id;
    }
  }

  lemma ListedAre(ids: seq<nat>)
    ensures forall id :: id in Listed(ids) <==> id in ids
  {
  }

  /** Acknowledges, adds to `processed`, and clears `running` at the cap. The log line reads the
      batch's first entry, so an empty batch raises before the cap is looked at. */
  method AcknowledgeBatch(world: World, consumer: StreamConsumer, limits: Limits, batch: seq<Entry>, done: nat)
    returns (processed: nat, raised: bool)
    requires consumer.world == world && consumer.consumer < |world.workers|
    requires consumer.group in world.groups
    requires world.workers[consumer.consumer].phase == Delivery.Stored(batch)
    requires IsAt(world.workers[consumer.consumer], consumer, limits, done, world.workers[consumer.consumer].idleReads)
    modifies world`groups, world`workers
    ensures world.Current() == Apply(old(world.Current()), Ack(consumer.consumer))
    ensures |world.workers| == |old(world.workers)|
    ensures IsAt(world.workers[consumer.consumer], consumer, limits, processed,
                 old(world.workers[consumer.consumer]).idleReads)
    ensures world.workers[consumer.consumer].phase == if raised then Crashed else AtLoopHead
    ensures processed == done + |batch| && raised == (batch == [])
    ensures world.workers[consumer.consumer].running && limits.maxMessages.Some? ==>
              processed < limits.maxMessages.value
    ensures world.workers[consumer.consumer].running
       <==> old(world.workers[consumer.consumer]).running
            && (limits.maxMessages.Some? ==> done + |batch| < limits.maxMessages.value)
    ensures var g, h := old(world.groups[consumer.group]), world.groups[consumer.group];
            && h.cursor == g.cursor
            && (forall id :: id in h.pending <==> id in g.pending && id !in IdsOf(batch))
            && (forall id :: id in h.acked <==> id in g.acked || (id in g.pending && id in IdsOf(batch)))
  {
    hide Run;
    var me := consumer.consumer;
    ghost var before := world.Current();
    MessageIdsAreIds(batch);
    assert forall id :: id in MessageIds(batch) <==> id in IdsOf(batch) by {
      ListedAre(MessageIds(batch));
    }
    consumer.AckBatch(MessageIds(batch));
    processed := done + |batch|;
    var capped := limits.maxMessages.Some? && processed >= limits.maxMessages.value;
    raised := batch == [];
    world.workers :=
      world.workers[me := world.workers[me].(processed := processed,
                                             running := world.workers[me].running && !capped,
                                             phase := if raised then Crashed else AtLoopHead)];
    assert world.Current() == DoAck(before, me);
  }

  // ---------- The loop ----------

  /** Lets the others act. */
  method Meanwhile(world: World, steps: seq<Step>, me: nat, ghost start: System, ghost trace: seq<Step>)
    returns (ghost longer: seq<Step>)
    requires me < |world.workers| && Follows(start, trace, world.Current(), me, world.workers[me])
    requires forall step | step in steps :: Foreign(step, me)
    modifies world
    ensures me < |world.workers|
    ensures world.workers[me] == old(world.workers[me]).(running := world.workers[me].running)
    ensures world.workers[me].running ==> old(world.workers[me].running)
    ensures Follows(start, longer, world.Current(), me, world.workers[me])
  {
    hide Follows, Run, Foreign, Apply;
    OthersRan(start, trace, world.Current(), me, world.workers[me], steps);
    world.Others(steps);
    longer := trace + steps;
  }

  /** An own action that leaves the process where the protocol step leaves it extends the trace. */
  lemma Acted(start: System, trace: seq<Step>, before: System, me: nat, step: Step, now: System)
    requires me < |before.workers| && Follows(start, trace, before, me, before.workers[me])
    requires !Foreign(step, me) && Enabled(before, step) && now == Apply(before, step)
    requires me < |now.workers|
    ensures Follows(start, trace + [step], now, me, now.workers[me])
  {
    hide Follows, Apply, Enabled, Foreign;
    OwnStep(start, trace, before, me, before.workers[me], step);
  }

  lemma Connection(start: System, trace: seq<Step>, now: System, me: nat)
    requires me < |now.workers| && Follows(start, trace, now, me, now.workers[me])
    ensures now.workers[me].group in now.groups
    ensures now.groups[now.workers[me].group].cursor <= |now.stream|
    ensures now == Run(start, trace) && Genuine(start, trace, me) && Invariant(now)
  {
  }

  lemma Connected(start: System, now: System, group: string, limits: Limits)
    requires Invariant(start) && limits.readBatchSize >= 1
    requires now.groups == EnsureGroup(start.groups, group)
    requires now.workers == start.workers + [Worker(group, limits, AtLoopHead, true, 0, 0)]
    requires now.sequences == start.sequences && now.stream == start.stream && now.table == start.table
    ensures Follows(start, [Spawn(group, limits)], now, |start.workers|, now.workers[|start.workers|])
  {
    hide Invariant;
    var trace := [Spawn(group, limits)];
    assert now == Apply(start, trace[0]);
    assert trace[..0] == [];
    assert Run(start, trace[..0]) == start;
    assert Run(start, trace) == Apply(start, trace[0]);
    StepKeepsInvariant(start, trace[0]);
  }

  /** What the message cap promises: a process that still loops is below it, or has done nothing. */
  predicate BelowCap(limits: Limits, processed: nat, running: bool) {
    limits.maxMessages.Some? ==>
      && processed <= limits.maxMessages.value
      && (running && processed > 0 ==> processed < limits.maxMessages.value)
  }

  /** The second half of a turn: write the batch, then acknowledge it. */
  method StoreBatch(world: World, consumer: StreamConsumer, limits: Limits, turn: Turn, done: nat, batch: seq<Entry>,
                    ghost start: System, ghost soFar: seq<Step>)
    returns (processed: nat, raised: bool, ghost trace: seq<Step>)
    requires consumer.world == world && consumer.consumer < |world.workers|
    requires world.workers[consumer.consumer].phase == Holding(batch)
    requires IsAt(world.workers[consumer.consumer], consumer, limits, done, 0)
    requires Follows(start, soFar, world.Current(), consumer.consumer, world.workers[consumer.consumer])
    requires Elsewhere(turn, consumer.consumer)
    modifies world
    ensures consumer.consumer < |world.workers|
    ensures IsAt(world.workers[consumer.consumer], consumer, limits, processed, 0)
    ensures Follows(start, trace, world.Current(), consumer.consumer, world.workers[consumer.consumer])
    ensures world.workers[consumer.consumer].phase == if raised then Crashed else AtLoopHead
    ensures processed == done + |batch| && raised == (batch == [])
    ensures world.workers[consumer.consumer].running && limits.maxMessages.Some? ==>
              processed < limits.maxMessages.value
  {
    hide Follows, Run, Apply, Enabled, Invariant, Genuine, Foreign, RowsOf;
    var me := consumer.consumer;
    trace := Meanwhile(world, turn.beforeWrite, me, start, soFar);
    ghost var before := world.Current();
    WriteIsOwn(before, me);
    WriteBatch(world, me, batch);
    Acted(start, trace, before, me, Write(me), world.Current());
    trace := Meanwhile(world, turn.beforeAck, me, start, trace + [Write(me)]);
    Connection(start, trace, world.Current(), me);
    before := world.Current();
    AckIsOwn(before, me);
    processed, raised := AcknowledgeBatch(world, consumer, limits, batch, done);
    Acted(start, trace, before, me, Ack(me), world.Current());
    trace := trace + [Ack(me)];
    if !raised {
      trace := Meanwhile(world, turn.afterAck, me, start, trace);
    }
  }

  /** One turn of the loop from the read to the acknowledgement. */
  method TakeTurn(world: World, consumer: StreamConsumer, limits: Limits, turn: Turn, done: nat, idle: nat,
                  ghost start: System, ghost soFar: seq<Step>)
    returns (processed: nat, idleReads: nat, stop: bool, raised: bool, ghost trace: seq<Step>)
    requires consumer.world == world && consumer.consumer < |world.workers| && limits.readBatchSize >= 1
    requires world.workers[consumer.consumer].phase.Polling?
    requires IsAt(world.workers[consumer.consumer], consumer, limits, done, idle)
    requires Follows(start, soFar, world.Current(), consumer.consumer, world.workers[consumer.consumer])
    requires Elsewhere(turn, consumer.consumer)
    requires BelowCap(limits, done, true)
    modifies world
    ensures consumer.consumer < |world.workers|
    ensures IsAt(world.workers[consumer.consumer], consumer, limits, processed, idleReads)
    ensures Follows(start, trace, world.Current(), consumer.consumer, world.workers[consumer.consumer])
    ensures world.workers[consumer.consumer].phase == if raised then Crashed else if stop then Stopped else AtLoopHead
    ensures BelowCap(limits, processed, world.workers[consumer.consumer].running)
    ensures raised ==> limits.maxMessages == Some(0) && processed == 0
  {
    hide Follows, Run, Apply, Enabled, Invariant, Genuine, Foreign;
    var me := consumer.consumer;
    trace := Meanwhile(world, turn.beforeRead, me, start, soFar);
    Connection(start, trace, world.Current(), me);
    ghost var before := world.Current();
    ReadIsOwn(before, me);
    var batch;
    batch, idleReads, stop := ReadBatch(world, consumer, limits, done, idle);
    Acted(start, trace, before, me, Read(me), world.Current());
    trace := trace + [Read(me)];
    processed, raised := done, false;
    if idleReads == 0 {
      processed, raised, trace := StoreBatch(world, consumer, limits, turn, done, batch, start, trace);
    } else if !stop {
      trace := Meanwhile(world, turn.afterAck, me, start, trace);
    }
  }

  lemma ReadIsOwn(s: System, me: nat)
    requires me < |s.workers| && s.workers[me].phase.Polling? && s.workers[me].group in s.groups
    ensures Enabled(s, Read(me)) && !Foreign(Read(me), me)
  {
  }

  lemma WriteIsOwn(s: System, me: nat)
    requires me < |s.workers| && s.workers[me].phase.Holding?
    ensures Enabled(s, Write(me)) && !Foreign(Write(me), me)
  {
  }

  lemma AckIsOwn(s: System, me: nat)
    requires me < |s.workers| && s.workers[me].phase.Stored? && s.workers[me].group in s.groups
    ensures Enabled(s, Ack(me)) && !Foreign(Ack(me), me)
  {
  }

  lemma CheckIsOwn(s: System, me: nat)
    requires me < |s.workers| && s.workers[me].phase.AtLoopHead?
    ensures Enabled(s, CheckRunning(me)) && !Foreign(CheckRunning(me), me)
  {
  }

  /** The worker's process: connect, loop, return. `me` is the entry it was given. A return value
      counts what was written and acknowledged and never exceeds the cap; it raises only for a cap
      of zero. */
  method RunWorker(world: World, group: string, limits: Limits, turns: seq<Turn>)
    returns (outcome: Outcome, me: nat, ghost trace: seq<Step>)
    requires Invariant(world.Current()) && limits.readBatchSize >= 1
    requires forall turn | turn in turns :: Elsewhere(turn, |world.workers|)
    modifies world
    ensures me == |old(world.workers)| < |world.workers|
    ensures world.Current() == Run(old(world.Current()), trace)
    ensures Genuine(old(world.Current()), trace, me)
    ensures Invariant(world.Current())
    ensures var worker := world.workers[me];
            match outcome
            case Returned(processed) =>
              && worker.phase.Stopped? && worker.processed == processed
              && (limits.maxMessages.Some? ==> processed <= limits.maxMessages.value)
            case Raised => worker.phase.Crashed? && limits.maxMessages == Some(0) && worker.processed == 0
            case Unfinished => worker.phase.AtLoopHead?
  {
    hide Follows, Run, Apply, Invariant, Genuine, Foreign, Elsewhere;
    me := |world.workers|;
    ghost var start := world.Current();
    var consumer := new StreamConsumer(world, group, me);
    world.workers := world.workers + [Worker(group, limits, AtLoopHead, true, 0, 0)];
    trace := [Spawn(group, limits)];
    Connected(start, world.Current(), group, limits);
    var processed, idleReads := 0, 0;
    var t := 0;
    while t < |turns|
      invariant 0 <= t <= |turns|
      invariant me < |world.workers| && world.workers[me].phase.AtLoopHead?
      invariant IsAt(world.workers[me], consumer, limits, processed, idleReads)
      invariant Follows(start, trace, world.Current(), me, world.workers[me])
      invariant BelowCap(limits, processed, world.workers[me].running)
    {
      ghost var before := world.Current();
      CheckIsOwn(before, me);
      var stillRunning := CheckLoop(world, me);
      Acted(start, trace, before, me, CheckRunning(me), world.Current());
      trace := trace + [CheckRunning(me)];
      if !stillRunning {
        Connection(start, trace, world.Current(), me);
        return Returned(processed), me, trace;
      }
      var stop, raised;
      processed, idleReads, stop, raised, trace :=
        TakeTurn(world, consumer, limits, turns[t], processed, idleReads, start, trace);
      if stop || raised {
        Connection(start, trace, world.Current(), me);
        return if raised then Raised else Returned(processed), me, trace;
      }
      t := t + 1;
    }
    Connection(start, trace, world.Current(), me);
    outcome := Unfinished;
  }
}
