/** The consumer side of the stream as objects: the state that processes share, the Redis commands
    on it, and one process's `StreamConsumer`. Each command is proved to do what the corresponding
    protocol step does to the group.
 */
module RedisStream {
  import opened Models
  import opened Delivery

  /** What all processes share, and each process's own variables as the protocol sees them: process
      `w` writes only entry `w`. */
  class World {
    var sequences: map<Symbol, nat>
    var stream: seq<Tick>
    var groups: map<string, Group>
    var workers: seq<Worker>
    var table: seq<Row>

    ghost function Current(): System
      reads this
    {
      System(sequences, stream, groups, workers, table)
    }

    constructor ()
      ensures Current() == EMPTY
    {
      sequences, stream, groups, workers, table := map[], [], map[], [], [];
    }

    /** Everything that happens elsewhere between two actions of a process. */
    method Others(steps: seq<Step>)
      modifies this
      ensures Current() == Run(old(Current()), steps)
    {
      for i := 0 to |steps|
        invariant Current() == Run(old(Current()), steps[..i])
      {
        assert steps[..i + 1][..i] == steps[..i];
        var next := Apply(System(sequences, stream, groups, workers, table), steps[i]);
        sequences, stream, groups, workers, table :=
          next.sequences, next.stream, next.groups, next.workers, next.table;
      }
      assert steps[..|steps|] == steps;
    }

    method WriteTicksBatch(batch: seq<Entry>, worker: nat)
      modifies this`table
      ensures table == old(table) + RowsOf(batch, worker)
    {
      table := table + RowsOf(batch, worker);
    }
  }

  /** Not an action of process `me`; a signal to it counts as foreign. */
  predicate Foreign(step: Step, me: nat) {
    match step
    case CheckRunning(w) => w != me
    case Read(w) => w != me
    case Write(w) => w != me
    case Ack(w) => w != me
    case Claim(w, _) => w != me
    case Crash(w) => w != me
    case _ => true
  }

  /** The first `count` stale pending ids, in stream order: all of them when there is room, and otherwise
      none above one left behind. */
  function Stale(pending: map<nat, nat>, stale: set<nat>, upTo: nat, count: nat): (ids: seq<nat>)
    ensures Increasing(ids) && |ids| <= count
    ensures forall id | id in ids :: id in pending && id in stale && id < upTo
    ensures |ids| < count ==> forall id | id in pending && id in stale && id < upTo :: id in ids
    ensures forall id, other | id in pending && id in stale && id < upTo && id !in ids && other in ids :: other < id
  {
    if upTo == 0 then
      []
    else
      var before := Stale(pending, stale, upTo - 1, count);
      if upTo - 1 in pending && upTo - 1 in stale && |before| < count then
        assert forall i | 0 <= i < |before| :: before[i] in before;
        before + [upTo - 1]
      else
        before
  }

  /** The messages are the first `count` of the entries below the cursor whose ids are wanted. */
  ghost predicate HandsOutFirst(messages: seq<Entry>, stream: seq<Tick>, wanted: set<nat>, cursor: nat, count: nat) {
    && |messages| <= count
    && (forall i, j | 0 <= i < j < |messages| :: messages[i].id < messages[j].id)
    && (forall e | e in messages :: e.id in wanted && e.id < |stream| && e.tick == stream[e.id])
    && (forall id | id in wanted && id < cursor && id !in IdsOf(messages) ::
          |messages| == count && forall e | e in messages :: e.id < id)
  }

  lemma StaleComeFirst(stream: seq<Tick>, pending: map<nat, nat>, stale: set<nat>, cursor: nat, count: nat)
    requires cursor <= |stream|
    ensures var ids := Stale(pending, stale, cursor, count);
            && (forall id | id in ids :: id < |stream|)
            && HandsOutFirst(Claimed(stream, ids), stream, pending.Keys * stale, cursor, count)
            && (forall id :: id in IdsOf(Claimed(stream, ids)) <==> id in ids)
  {
    hide Stale;
    var ids := Stale(pending, stale, cursor, count);
    var messages := Claimed(stream, ids);
    forall id
      ensures id in IdsOf(messages) <==> id in ids
    {
      if id in ids {
        var i :| 0 <= i < |ids| && ids[i] == id;
        assert messages[i] in messages && messages[i].id == id;
      }
    }
    forall e | e in messages
      ensures e.id in ids
    {
      var i :| 0 <= i < |messages| && messages[i] == e;
      assert ids[i] in ids;
    }
  }

  lemma TakenOver(pending: map<nat, nat>, ids: seq<nat>, taken: set<nat>, consumer: nat)
    requires forall id | id in ids :: id in pending
    requires forall id :: id in taken <==> id in ids
    ensures pending + (map id | id in ids :: consumer)
         == map id | id in pending :: if id in taken then consumer else pending[id]
  {
  }

  function Listed(ids: seq<nat>): set<nat> {
    set id | id in ids
  }

  function Acknowledged(g: Group, ids: set<nat>): Group {
    g.(pending := g.pending - ids, acked := g.acked + (ids * g.pending.Keys))
  }

  class StreamConsumer {
    const world: World
    const group: string
    const consumer: nat

    /** Creating the group is part of connecting; an existing group is left alone. */
    constructor (world: World, group: string, consumer: nat)
      modifies world`groups
      ensures this.world == world && this.group == group && this.consumer == consumer
      ensures world.groups == EnsureGroup(old(world.groups), group)
      ensures group in world.groups
      ensures group !in old(world.groups) ==> world.groups[group] == Group(0, map[], {})
      ensures forall name | name in old(world.groups) ::
                name in world.groups && world.groups[name] == old(world.groups)[name]
    {
      this.world, this.group, this.consumer := world, group, consumer;
      new;
      if group !in world.groups {
        world.groups := world.groups[group := Group(0, map[], {})];
      }
    }

    /** `XREADGROUP ... >`: hands out entries nobody in the group was given, and makes them pending. */
    method Read(count: nat) returns (messages: seq<Entry>)
      requires group in world.groups && world.groups[group].cursor <= |world.stream|
      modifies world`groups
      ensures var g, end := old(world.groups[group]), ReadEnd(old(world.groups[group]), world.stream, count);
              && messages == EntriesBetween(world.stream, g.cursor, end)
              && world.groups
                 == (if messages == [] then old(world.groups)
                     else old(world.groups)[group :=
                            g.(cursor := end, pending := g.pending + Own(g.cursor, end, consumer))])
      ensures var g, h := old(world.groups[group]), world.groups[group];
              && |messages| == Min(count, |world.stream| - g.cursor)
              && (forall i | 0 <= i < |messages| :: messages[i] == Entry(g.cursor + i, world.stream[g.cursor + i]))
              && h.cursor == g.cursor + |messages| && h.acked == g.acked
              && (forall id :: id in h.pending <==> id in g.pending || g.cursor <= id < h.cursor)
              && (forall id | id in h.pending ::
                    h.pending[id] == if g.cursor <= id < h.cursor then consumer else g.pending[id])
    {
      var g := world.groups[group];
      messages := [];
      var next := g.cursor;
      while next < |world.stream| && |messages| < count
        invariant g.cursor <= next <= |world.stream| && |messages| == next - g.cursor <= count
        invariant messages == EntriesBetween(world.stream, g.cursor, next)
      {
        messages := messages + [Entry(next, world.stream[next])];
        next := next + 1;
      }
      assert next == ReadEnd(g, world.stream, count);
      if messages != [] {
        world.groups := world.groups[group := g.(cursor := next, pending := g.pending + Own(g.cursor, next, consumer))];
      }
    }

    /** `XAUTOCLAIM`: takes over stale pending entries, whoever owns them. */
    method ClaimStale(stale: set<nat>, count: nat) returns (messages: seq<Entry>)
      requires group in world.groups
      requires world.groups[group].cursor <= |world.stream|
      modifies world`groups
      ensures var g := old(world.groups[group]);
              var ids := Stale(g.pending, stale, g.cursor, count);
              && messages == Claimed(world.stream, ids)
              && world.groups == old(world.groups)[group := g.(pending := g.pending + map id | id in ids :: consumer)]
      ensures var g := old(world.groups[group]);
              && HandsOutFirst(messages, world.stream, g.pending.Keys * stale, g.cursor, count)
              && world.groups[group].pending
                 == map id | id in g.pending :: if id in IdsOf(messages) then consumer else g.pending[id]
    {
      var g := world.groups[group];
      var ids: seq<nat> := [];
      for id := 0 to g.cursor
        invariant ids == Stale(g.pending, stale, id, count)
      {
        if id in g.pending && id in stale && |ids| < count {
          ids := ids + [id];
        }
      }
      hide Stale, HandsOutFirst, IdsOf, Claimed;
      StaleComeFirst(world.stream, g.pending, stale, g.cursor, count);
      messages := Claimed(world.stream, ids);
      TakenOver(g.pending, ids, IdsOf(messages), consumer);
      world.groups := world.groups[group := g.(pending := g.pending + map id | id in ids :: consumer)];
    }

    /** `XACK`; acknowledging nothing is not sent. Ids that are not pending are ignored. */
    method AckBatch(ids: seq<nat>)
      requires group in world.groups
      modifies world`groups
      ensures world.groups == old(world.groups)[group := Acknowledged(old(world.groups[group]), Listed(ids))]
      ensures var g, h := old(world.groups[group]), world.groups[group];
              && h.cursor == g.cursor
              && h.pending == (map id | id in g.pending && id !in ids :: g.pending[id])
              && (forall id :: id in h.acked <==> id in g.acked || (id in g.pending && id in ids))
    {
      if ids == [] {
        NothingAcknowledged(world.groups[group]);
        return;
      }
      world.groups := world.groups[group := Acknowledged(world.groups[group], Listed(ids))];
    }
  }

  lemma NothingAcknowledged(g: Group)
    ensures Acknowledged(g, Listed([])) == g
  {
  }
}
