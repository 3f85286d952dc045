/** The bronze writer: buffers raw lines per partition and puts them as objects when a buffer is
    full, has aged, or the writer shuts down. A put can fail, and can fail after the object landed.

    `Writer` and the functions on it describe each call; the class performs the calls on its own
    fields and is proved to do exactly that. Uuids, clock readings and put outcomes are inputs.
 */
module Bronze {
  import opened Models
  import opened Ndjson
  import opened Partitions

  datatype PutOutcome = Stored | FailedUnlanded | FailedLanded

  /** What happens when a partition is put: the name drawn for the object, and how the put ends. */
  datatype Put = Put(uuid: string, outcome: PutOutcome)

  datatype Object = Object(key: string, body: string)

  /** Python dictionaries keep insertion order: `partitions` and `started` list the keys of
      `buffers` and `startedAt` in it. */
  datatype Writer = Writer(
    buffers: map<string, seq<string>>,
    partitions: seq<string>,
    startedAt: map<string, int>,
    started: seq<string>,
    lines: nat,
    objects: nat,
    bucket: seq<Object>)

  const NEW := Writer(map[], [], map[], [], 0, 0, [])

  datatype Limits = Limits(maxLines: int, maxAge: int)

  function Buffer(buffers: map<string, seq<string>>, p: string): seq<string> {
    if p in buffers then buffers[p] else []
  }

  function AddKey(keys: seq<string>, p: string): seq<string> {
    if p in keys then keys else keys + [p]
  }

  function DropKey(keys: seq<string>, p: string): seq<string> {
    if keys == [] then
      []
    else
      DropKey(keys[..|keys| - 1], p) + if keys[|keys| - 1] == p then [] else [keys[|keys| - 1]]
  }

  // ---------- Each call, as a function of the writer; the flag says whether it raised ----------

  function FlushOne(s: Writer, p: string, put: Put): (Writer, bool) {
    var lines := Buffer(s.buffers, p);
    if lines == [] then
      (s, false)
    else
      var landed := Object(ObjectKey(p, put.uuid), Body(lines));
      match put.outcome
      case FailedUnlanded => (s, true)
      case FailedLanded => (s.(bucket := s.bucket + [landed]), true)
      case Stored =>
        (s.(buffers := s.buffers[p := []],
            startedAt := s.startedAt - {p},
            started := DropKey(s.started, p),
            lines := s.lines + |lines|,
            objects := s.objects + 1,
            bucket := s.bucket + [landed]), false)
  }

  /** Flushes the partitions in turn; the first put that fails ends it. */
  function FlushEach(s: Writer, order: seq<string>, puts: string -> Put): (Writer, bool)
    decreases order
  {
    if order == [] then
      (s, false)
    else
      var (t, raised) := FlushOne(s, order[0], puts(order[0]));
      if raised then (t, true) else FlushEach(t, order[1..], puts)
  }

  function Due(s: Writer, keys: seq<string>, now: int, maxAge: int): seq<string>
    requires forall p | p in keys :: p in s.startedAt
  {
    if keys == [] then
      []
    else
      var last := keys[|keys| - 1];
      assert last in keys;
      Due(s, keys[..|keys| - 1], now, maxAge)
      + if now - s.startedAt[last] >= maxAge && Buffer(s.buffers, last) != [] then [last] else []
  }

  function Buffered(s: Writer, p: string, line: string, now: int): Writer {
    var lines := Buffer(s.buffers, p);
    s.(buffers := s.buffers[p := lines + [line]],
       partitions := AddKey(s.partitions, p),
       startedAt := if lines == [] then s.startedAt[p := now] else s.startedAt,
       started := if lines == [] then AddKey(s.started, p) else s.started)
  }

  function AppendLine(s: Writer, p: string, line: string, now: int, maxLines: int, put: Put): (Writer, bool) {
    var t := Buffered(s, p, line, now);
    if |t.buffers[p]| >= maxLines then FlushOne(t, p, put) else (t, false)
  }

  // ---------- Keys and maps agree ----------

  ghost predicate Distinct(keys: seq<string>) {
    forall i, j | 0 <= i < j < |keys| :: keys[i] != keys[j]
  }

  /** The key listings are exact, and a start time exists exactly for the buffers that hold lines. */
  ghost predicate Valid(s: Writer) {
    && (forall p :: p in s.partitions <==> p in s.buffers)
    && (forall p :: p in s.started <==> p in s.startedAt)
    && (forall p :: p in s.startedAt <==> Buffer(s.buffers, p) != [])
    && Distinct(s.partitions) && Distinct(s.started)
  }

  lemma {:induction false} DropKeyDrops(keys: seq<string>, p: string)
    ensures forall q :: q in DropKey(keys, p) <==> q in keys && q != p
    ensures Distinct(keys) ==> Distinct(DropKey(keys, p))
  {
    if keys != [] {
      var front, last := keys[..|keys| - 1], keys[|keys| - 1];
      assert keys == front + [last];
      DropKeyDrops(front, p);
      if Distinct(keys) {
        LastIsNew(front, last);
        OneMoreDistinct(DropKey(front, p), last);
      }
    }
  }

  lemma LastIsNew(front: seq<string>, last: string)
    requires Distinct(front + [last])
    ensures Distinct(front) && last !in front
  {
    var keys := front + [last];
    assert forall i | 0 <= i < |front| :: front[i] == keys[i];
    assert last == keys[|front|];
  }

  lemma OneMoreDistinct(keys: seq<string>, p: string)
    requires Distinct(keys) && p !in keys
    ensures Distinct(keys + [p])
  {
  }

  lemma AddKeyAdds(keys: seq<string>, p: string)
    ensures forall q :: q in AddKey(keys, p) <==> q in keys || q == p
    ensures Distinct(keys) ==> Distinct(AddKey(keys, p))
  {
  }

  lemma FlushOneKeepsValid(s: Writer, p: string, put: Put)
    requires Valid(s)
    ensures Valid(FlushOne(s, p, put).0)
  {
    DropKeyDrops(s.started, p);
  }

  lemma BufferedKeepsValid(s: Writer, p: string, line: string, now: int)
    requires Valid(s)
    ensures Valid(Buffered(s, p, line, now))
  {
  }

  lemma AppendKeepsValid(s: Writer, p: string, line: string, now: int, maxLines: int, put: Put)
    requires Valid(s)
    ensures Valid(AppendLine(s, p, line, now, maxLines, put).0)
  {
    hide Valid;
    BufferedKeepsValid(s, p, line, now);
    FlushOneKeepsValid(Buffered(s, p, line, now), p, put);
  }

  lemma {:induction false} FlushEachKeepsValid(s: Writer, order: seq<string>, puts: string -> Put)
    requires Valid(s)
    ensures Valid(FlushEach(s, order, puts).0)
    decreases order
  {
    hide Valid, FlushOne;
    if order != [] {
      FlushOneKeepsValid(s, order[0], puts(order[0]));
      FlushEachKeepsValid(FlushOne(s, order[0], puts(order[0])).0, order[1..], puts);
    }
  }

  // ---------- What a call that returns leaves behind ----------

  /** An append that returns leaves its buffer below the limit, even if earlier puts had failed. */
  lemma AppendLeavesRoom(s: Writer, p: string, line: string, now: int, maxLines: int, put: Put)
    requires maxLines >= 1
    ensures var (t, raised) := AppendLine(s, p, line, now, maxLines, put);
            && (!raised ==> |Buffer(t.buffers, p)| < maxLines)
            && (raised ==> Buffer(t.buffers, p) == Buffer(s.buffers, p) + [line])
            && (forall q | q != p :: Buffer(t.buffers, q) == Buffer(s.buffers, q))
  {
  }

  /** What an append does: below the limit it only keeps the line; at the limit it puts the whole buffer as
      one object, and the buffer stays exactly if the put fails. */
  ghost predicate Appends(s: Writer, t: Writer, raised: bool, p: string, line: string, maxLines: int, put: Put) {
    var lines := Buffer(s.buffers, p) + [line];
    && (forall q | q != p :: Buffer(t.buffers, q) == Buffer(s.buffers, q))
    && (if |lines| < maxLines then
          !raised && Buffer(t.buffers, p) == lines
          && t.bucket == s.bucket && t.lines == s.lines && t.objects == s.objects
        else
          && raised == !put.outcome.Stored?
          && Buffer(t.buffers, p) == (if raised then lines else [])
          && t.bucket
             == s.bucket
                + (if put.outcome.FailedUnlanded? then [] else [Object(ObjectKey(p, put.uuid), Body(lines))])
          && t.lines == s.lines + (if raised then 0 else |lines|)
          && t.objects == s.objects + (if raised then 0 else 1))
  }

  lemma AppendAppends(s: Writer, p: string, line: string, now: int, maxLines: int, put: Put)
    ensures var (t, raised) := AppendLine(s, p, line, now, maxLines, put);
            Appends(s, t, raised, p, line, maxLines, put)
  {
    hide ObjectKey, Body;
    assert s.bucket + [] == s.bucket;
  }

  /** The object that putting the partition creates, if its buffer holds lines. */
  function PutObject(buffers: map<string, seq<string>>, p: string, put: Put): seq<Object> {
    if Buffer(buffers, p) == [] then [] else [Object(ObjectKey(p, put.uuid), Body(Buffer(buffers, p)))]
  }

  function PutObjects(buffers: map<string, seq<string>>, order: seq<string>, puts: string -> Put): seq<Object> {
    if order == [] then
      []
    else
      PutObject(buffers, order[0], puts(order[0])) + PutObjects(buffers, order[1..], puts)
  }

  lemma {:induction false} PutObjectsIgnore(
      a: map<string, seq<string>>, b: map<string, seq<string>>, order: seq<string>, puts: string -> Put)
    requires forall p | p in order :: Buffer(a, p) == Buffer(b, p)
    ensures PutObjects(a, order, puts) == PutObjects(b, order, puts)
  {
    if order != [] {
      PutObjectsIgnore(a, b, order[1..], puts);
    }
  }

  ghost predicate PutInTurn(s: Writer, t: Writer, landed: seq<Object>) {
    t.bucket == s.bucket + landed && t.objects == s.objects + |landed|
  }

  lemma PutTwice(s: Writer, t: Writer, u: Writer, first: seq<Object>, rest: seq<Object>)
    requires PutInTurn(s, t, first) && PutInTurn(t, u, rest)
    ensures PutInTurn(s, u, first + rest)
  {
    assert (s.bucket + first) + rest == s.bucket + (first + rest);
  }

  lemma RestIsDistinct(order: seq<string>)
    requires Distinct(order) && order != []
    ensures Distinct(order[1..]) && order[0] !in order[1..]
  {
  }

  lemma FlushOnePuts(s: Writer, p: string, put: Put)
    ensures var (t, raised) := FlushOne(s, p, put);
            && (forall q | q != p :: Buffer(t.buffers, q) == Buffer(s.buffers, q))
            && (!raised ==> PutInTurn(s, t, PutObject(s.buffers, p, put)))
  {
    hide ObjectKey, Body;
    assert s.bucket + [] == s.bucket;
  }

  lemma NothingPut(s: Writer, puts: string -> Put)
    ensures PutInTurn(s, s, PutObjects(s.buffers, [], puts))
  {
  }

  /** A flush that returns has put every buffer it was to put, as one object each and in turn, and left the
      other buffers alone. */
  lemma {:induction false} FlushEachPuts(s: Writer, order: seq<string>, puts: string -> Put)
    requires Distinct(order)
    ensures var (t, raised) := FlushEach(s, order, puts);
            && (forall q | q !in order :: Buffer(t.buffers, q) == Buffer(s.buffers, q))
            && (!raised ==> PutInTurn(s, t, PutObjects(s.buffers, order, puts)))
    decreases order
  {
    hide FlushOne, PutObject, PutInTurn, Distinct, Buffer;
    if order == [] {
      NothingPut(s, puts);
    } else {
      var (t, raised) := FlushOne(s, order[0], puts(order[0]));
      FlushOnePuts(s, order[0], puts(order[0]));
      RestIsDistinct(order);
      FlushEachPuts(t, order[1..], puts);
      if !raised {
        PutObjectsIgnore(s.buffers, t.buffers, order[1..], puts);
        if !FlushEach(t, order[1..], puts).1 {
          PutTwice(s, t, FlushEach(t, order[1..], puts).0, PutObject(s.buffers, order[0], puts(order[0])),
                   PutObjects(t.buffers, order[1..], puts));
        }
      }
    }
  }

  lemma FlushOneEmpties(s: Writer, p: string, put: Put)
    ensures var (t, raised) := FlushOne(s, p, put);
            && (forall q :: Buffer(t.buffers, q) == Buffer(s.buffers, q) || Buffer(t.buffers, q) == [])
            && (!raised ==> Buffer(t.buffers, p) == [])
            && (forall q | q in t.startedAt :: q in s.startedAt && t.startedAt[q] == s.startedAt[q])
  {
  }

  lemma {:induction false} FlushEachEmpties(s: Writer, order: seq<string>, puts: string -> Put)
    ensures var (t, raised) := FlushEach(s, order, puts);
            && (forall q :: Buffer(t.buffers, q) == Buffer(s.buffers, q) || Buffer(t.buffers, q) == [])
            && (!raised ==> forall q | q in order :: Buffer(t.buffers, q) == [])
            && (forall q | q in t.startedAt :: q in s.startedAt && t.startedAt[q] == s.startedAt[q])
    decreases order
  {
    hide FlushOne;
    if order != [] {
      var t := FlushOne(s, order[0], puts(order[0])).0;
      FlushOneEmpties(s, order[0], puts(order[0]));
      FlushEachEmpties(t, order[1..], puts);
      assert forall q | q in order :: q == order[0] || q in order[1..];
    }
  }

  /** After a `flush_all` that returns, nothing is buffered. */
  lemma FlushAllEmpties(s: Writer, puts: string -> Put)
    requires Valid(s)
    ensures var (t, raised) := FlushEach(s, s.partitions, puts);
            !raised ==> t.startedAt == map[] && forall p :: Buffer(t.buffers, p) == []
  {
    var (t, raised) := FlushEach(s, s.partitions, puts);
    FlushEachEmpties(s, s.partitions, puts);
    FlushEachKeepsValid(s, s.partitions, puts);
  }

  lemma {:induction false} DueSelects(s: Writer, keys: seq<string>, now: int, maxAge: int)
    requires forall p | p in keys :: p in s.startedAt
    ensures forall p :: p in Due(s, keys, now, maxAge)
                   <==> p in keys && now - s.startedAt[p] >= maxAge && Buffer(s.buffers, p) != []
    ensures Distinct(keys) ==> Distinct(Due(s, keys, now, maxAge))
  {
    if keys != [] {
      var front, last := keys[..|keys| - 1], keys[|keys| - 1];
      assert keys == front + [last];
      DueSelects(s, front, now, maxAge);
      if Distinct(keys) {
        LastIsNew(front, last);
        OneMoreDistinct(Due(s, front, now, maxAge), last);
      }
    }
  }

  /** After a `flush_due` that returns, no buffer has reached the age limit. */
  lemma FlushDueLeavesNoneOld(s: Writer, now: int, maxAge: int, puts: string -> Put)
    requires Valid(s)
    ensures var (t, raised) := FlushEach(s, Due(s, s.started, now, maxAge), puts);
            !raised ==> forall p | p in t.startedAt :: now - t.startedAt[p] < maxAge
  {
    var order := Due(s, s.started, now, maxAge);
    DueSelects(s, s.started, now, maxAge);
    FlushEachEmpties(s, order, puts);
    FlushEachKeepsValid(s, order, puts);
  }

  // ---------- The writer itself ----------

  class Bucket {
    var stored: seq<Object>

    constructor ()
      ensures stored == []
    {
      stored := [];
    }

    method PutObject(key: string, body: string, outcome: PutOutcome) returns (raised: bool)
      modifies this
      ensures raised == !outcome.Stored?
      ensures stored == if outcome.FailedUnlanded? then old(stored) else old(stored) + [Object(key, body)]
    {
      raised := !outcome.Stored?;
      if !outcome.FailedUnlanded? {
        stored := stored + [Object(key, body)];
      }
    }
  }

  class BronzeWriter {
    const flushMaxLines: int
    const flushMaxSeconds: int
    const client: Bucket
    var buffers: map<string, seq<string>>
    var partitions: seq<string>
    var bufferStartedAt: map<string, int>
    var started: seq<string>
    var totalLinesFlushed: nat
    var totalObjectsFlushed: nat

    ghost function Current(): Writer
      reads this, client
    {
      Writer(buffers, partitions, bufferStartedAt, started, totalLinesFlushed, totalObjectsFlushed, client.stored)
    }

    constructor (client: Bucket, flushMaxLines: int, flushMaxSeconds: int)
      ensures this.client == client
      ensures this.flushMaxLines == flushMaxLines && this.flushMaxSeconds == flushMaxSeconds
      ensures Current() == NEW.(bucket := client.stored)
      ensures Valid(Current())
    {
      this.client, this.flushMaxLines, this.flushMaxSeconds := client, flushMaxLines, flushMaxSeconds;
      buffers, partitions, bufferStartedAt, started := map[], [], map[], [];
      totalLinesFlushed, totalObjectsFlushed := 0, 0;
    }

    method FlushPartition(p: string, put: Put) returns (raised: bool)
      modifies this, client
      ensures (Current(), raised) == FlushOne(old(Current()), p, put)
    {
      var lines := Buffer(buffers, p);
      if lines == [] {
        return false;
      }
      raised := client.PutObject(ObjectKey(p, put.uuid), Body(lines), put.outcome);
      if raised {
        return;
      }
      totalLinesFlushed := totalLinesFlushed + |lines|;
      totalObjectsFlushed := totalObjectsFlushed + 1;
      buffers := buffers[p := []];
      bufferStartedAt := bufferStartedAt - {p};
      started := DropKey(started, p);
    }

    method Flush(order: seq<string>, puts: string -> Put) returns (raised: bool)
      modifies this, client
      ensures (Current(), raised) == FlushEach(old(Current()), order, puts)
    {
      raised := false;
      for i := 0 to |order|
        invariant !raised
        invariant FlushEach(old(Current()), order, puts) == FlushEach(Current(), order[i..], puts)
      {
        raised := FlushPartition(order[i], puts(order[i]));
        if raised {
          return;
        }
      }
    }

    method Append(symbol: Symbol, rawMessage: string, receivedAt: Stamp, now: int, put: Put) returns (raised: bool)
      requires Valid(Current())
      modifies this, client
      ensures Valid(Current())
      ensures (Current(), raised)
           == AppendLine(old(Current()), PartitionKey(symbol, receivedAt), rawMessage, now, flushMaxLines, put)
      ensures Appends(old(Current()), Current(), raised, PartitionKey(symbol, receivedAt), rawMessage, flushMaxLines,
                      put)
    {
      ghost var before := Current();
      var p := PartitionKey(symbol, receivedAt);
      AppendKeepsValid(before, p, rawMessage, now, flushMaxLines, put);
      AppendAppends(before, p, rawMessage, now, flushMaxLines, put);
      hide Appends;
      var buf := Buffer(buffers, p);
      partitions := AddKey(partitions, p);
      if buf == [] {
        bufferStartedAt := bufferStartedAt[p := now];
        started := AddKey(started, p);
      }
      buf := buf + [rawMessage];
      buffers := buffers[p := buf];
      raised := false;
      if |buf| >= flushMaxLines {
        raised := FlushPartition(p, put);
      }
    }

    method FlushDue(now: int, puts: string -> Put) returns (raised: bool)
      requires Valid(Current())
      modifies this, client
      ensures Valid(Current())
      ensures (Current(), raised)
           == FlushEach(old(Current()), Due(old(Current()), old(started), now, flushMaxSeconds), puts)
      ensures !raised ==> forall p | p in bufferStartedAt :: now - bufferStartedAt[p] < flushMaxSeconds
      ensures forall p :: p in old(bufferStartedAt) && now - old(bufferStartedAt)[p] < flushMaxSeconds ==>
                            Buffer(buffers, p) == Buffer(old(buffers), p)
      ensures !raised ==>
                client.stored
                == old(client.stored)
                   + PutObjects(old(buffers), Due(old(Current()), old(started), now, flushMaxSeconds), puts)
    {
      ghost var before := Current();
      var due := [];
      for i := 0 to |started|
        invariant Current() == before
        invariant due == Due(before, started[..i], now, flushMaxSeconds)
      {
        assert started[..i + 1][..i] == started[..i];
        var p := started[i];
        if now - bufferStartedAt[p] >= flushMaxSeconds && Buffer(buffers, p) != [] {
          due := due + [p];
        }
      }
      assert started[..|started|] == started;
      FlushEachKeepsValid(before, due, puts);
      FlushDueLeavesNoneOld(before, now, flushMaxSeconds, puts);
      DueSelects(before, started, now, flushMaxSeconds);
      FlushEachPuts(before, due, puts);
      raised := Flush(due, puts);
    }

    method FlushAll(puts: string -> Put) returns (raised: bool)
      requires Valid(Current())
      modifies this, client
      ensures Valid(Current())
      ensures (Current(), raised) == FlushEach(old(Current()), old(partitions), puts)
      ensures !raised ==> forall p :: Buffer(buffers, p) == []
      ensures !raised ==> client.stored == old(client.stored) + PutObjects(old(buffers), old(partitions), puts)
    {
      FlushEachKeepsValid(Current(), partitions, puts);
      FlushAllEmpties(Current(), puts);
      FlushEachPuts(Current(), partitions, puts);
      raised := Flush(partitions, puts);
    }
  }
}
