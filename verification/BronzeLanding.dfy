/** What every run of the bronze writer lands, and what a silver rebuild then reads.

    A run is any interleaving of appends, age flushes and full flushes, with puts that fail in any
    way. Lines are compared as multisets, because objects are listed in no particular order.
 */
module BronzeLanding {
  import opened Models
  import opened Frames
  import opened Ndjson
  import opened Partitions
  import opened Bronze

  datatype Event =
    | Append(symbol: Symbol, at: Stamp, line: string, now: int, put: Put)
    | FlushDue(now: int, puts: string -> Put)
    | FlushAll(puts: string -> Put)

  /** One call; the flag says whether it raised. */
  function Call(s: Writer, e: Event, limits: Limits): (Writer, bool) {
    match e
    case Append(symbol, at, line, now, put) => AppendLine(s, PartitionKey(symbol, at), line, now, limits.maxLines, put)
    case FlushDue(now, puts) =>
      var keys := Due(s, Live(s.started, s.startedAt), now, limits.maxAge);
      FlushEach(s, keys, puts)
    case FlushAll(puts) => FlushEach(s, s.partitions, puts)
  }

  /** The started keys, as listed; in a valid writer it is the whole listing. */
  function Live(keys: seq<string>, startedAt: map<string, int>): (live: seq<string>)
    ensures forall p | p in live :: p in startedAt
  {
    if forall p | p in keys :: p in startedAt then keys else []
  }

  function RunCalls(events: seq<Event>, limits: Limits): Writer {
    if events == [] then NEW else Call(RunCalls(events[..|events| - 1], limits), events[|events| - 1], limits).0
  }

  lemma {:induction false} EveryRunIsValid(events: seq<Event>, limits: Limits)
    ensures Valid(RunCalls(events, limits))
  {
    hide Valid, AppendLine, FlushEach;
    if events == [] {
      NewIsValid();
    } else {
      var s := RunCalls(events[..|events| - 1], limits);
      EveryRunIsValid(events[..|events| - 1], limits);
      match events[|events| - 1]
      case Append(symbol, at, line, now, put) =>
        AppendKeepsValid(s, PartitionKey(symbol, at), line, now, limits.maxLines, put);
      case FlushDue(now, puts) =>
        FlushEachKeepsValid(s, Due(s, Live(s.started, s.startedAt), now, limits.maxAge), puts);
      case FlushAll(puts) => FlushEachKeepsValid(s, s.partitions, puts);
    }
  }

  lemma NewIsValid()
    ensures Valid(NEW)
  {
  }

  // ---------- Buffer sizes ----------

  predicate Fills(e: Event, p: string) {
    e.Append? && PartitionKey(e.symbol, e.at) == p
  }

  /** How many appends to the partition raised. */
  function FailedAppends(events: seq<Event>, limits: Limits, p: string): nat {
    if events == [] then
      0
    else
      var front, last := events[..|events| - 1], events[|events| - 1];
      FailedAppends(front, limits, p)
      + if Fills(last, p) && Call(RunCalls(front, limits), last, limits).1 then 1 else 0
  }

  /** A buffer stays below the limit, except for one line per append that raised. */
  lemma {:induction false} BuffersAreBounded(events: seq<Event>, limits: Limits, p: string)
    requires limits.maxLines >= 1
    ensures |Buffer(RunCalls(events, limits).buffers, p)| < limits.maxLines + FailedAppends(events, limits, p)
  {
    hide AppendLine, FlushEach, Buffer, PartitionKey;
    if events == [] {
      NewIsEmpty(p);
    } else {
      var front, last := events[..|events| - 1], events[|events| - 1];
      var s := RunCalls(front, limits);
      BuffersAreBounded(front, limits, p);
      match last
      case Append(symbol, at, line, now, put) =>
        AppendLeavesRoom(s, PartitionKey(symbol, at), line, now, limits.maxLines, put);
      case FlushDue(now, puts) =>
        FlushEachEmpties(s, Due(s, Live(s.started, s.startedAt), now, limits.maxAge), puts);
      case FlushAll(puts) => FlushEachEmpties(s, s.partitions, puts);
    }
  }

  lemma NewIsEmpty(p: string)
    ensures Buffer(NEW.buffers, p) == []
  {
  }

  // ---------- Ages ----------

  /** When the lines appended to the partition were appended. */
  function Times(events: seq<Event>, p: string): seq<int> {
    if events == [] then
      []
    else
      var last := events[|events| - 1];
      Times(events[..|events| - 1], p) + if Fills(last, p) then [last.now] else []
  }

  function Lines(events: seq<Event>, p: string): seq<string> {
    if events == [] then
      []
    else
      var last := events[|events| - 1];
      Lines(events[..|events| - 1], p) + if Fills(last, p) then [last.line] else []
  }

  /** A buffer holds the newest lines of its partition, and its start time is when the oldest of
      them was appended. */
  ghost predicate HoldsNewest(s: Writer, p: string, lines: seq<string>, times: seq<int>) {
    var k := |Buffer(s.buffers, p)|;
    && |lines| == |times| && k <= |lines|
    && Buffer(s.buffers, p) == lines[|lines| - k..]
    && (k > 0 ==> p in s.startedAt && s.startedAt[p] == times[|times| - k])
  }

  lemma FlushKeepsNewest(s: Writer, t: Writer, p: string, lines: seq<string>, times: seq<int>)
    requires HoldsNewest(s, p, lines, times) && Valid(t)
    requires Buffer(t.buffers, p) == Buffer(s.buffers, p) || Buffer(t.buffers, p) == []
    requires forall q | q in t.startedAt :: q in s.startedAt && t.startedAt[q] == s.startedAt[q]
    ensures HoldsNewest(t, p, lines, times)
  {
  }

  lemma BufferedKeepsNewest(
      s: Writer, q: string, line: string, now: int, p: string, lines: seq<string>, times: seq<int>)
    requires HoldsNewest(s, p, lines, times)
    ensures HoldsNewest(Buffered(s, q, line, now), p, if p == q then lines + [line] else lines,
                        if p == q then times + [now] else times)
  {
  }

  lemma AppendKeepsNewest(
      s: Writer, q: string, line: string, now: int, maxLines: int, put: Put, p: string,
      lines: seq<string>, times: seq<int>)
    requires HoldsNewest(s, p, lines, times) && Valid(s)
    ensures var t := AppendLine(s, q, line, now, maxLines, put).0;
            HoldsNewest(t, p, if p == q then lines + [line] else lines, if p == q then times + [now] else times)
  {
    hide HoldsNewest, Buffered, FlushOne, Valid;
    var longer, later := if p == q then lines + [line] else lines, if p == q then times + [now] else times;
    var t := Buffered(s, q, line, now);
    BufferedKeepsNewest(s, q, line, now, p, lines, times);
    BufferedKeepsValid(s, q, line, now);
    FlushOneKeepsValid(t, q, put);
    FlushOneEmpties(t, q, put);
    FlushKeepsNewest(t, FlushOne(t, q, put).0, p, longer, later);
  }

  lemma {:induction false} EveryRunHoldsNewest(events: seq<Event>, limits: Limits, p: string)
    ensures HoldsNewest(RunCalls(events, limits), p, Lines(events, p), Times(events, p))
  {
    hide HoldsNewest, AppendLine, FlushEach, Valid, Buffer, PartitionKey;
    if events == [] {
      NewHoldsNewest(p);
    } else {
      var front, last := events[..|events| - 1], events[|events| - 1];
      var s := RunCalls(front, limits);
      EveryRunHoldsNewest(front, limits, p);
      EveryRunIsValid(front, limits);
      EveryRunIsValid(events, limits);
      var lines, times := Lines(front, p), Times(front, p);
      assert lines + [] == lines && times + [] == times;
      match last
      case Append(symbol, at, line, now, put) =>
        AppendKeepsNewest(s, PartitionKey(symbol, at), line, now, limits.maxLines, put, p, lines, times);
      case FlushDue(now, puts) =>
        var order := Due(s, Live(s.started, s.startedAt), now, limits.maxAge);
        FlushEachEmpties(s, order, puts);
        FlushKeepsNewest(s, RunCalls(events, limits), p, lines, times);
      case FlushAll(puts) =>
        FlushEachEmpties(s, s.partitions, puts);
        FlushKeepsNewest(s, RunCalls(events, limits), p, lines, times);
    }
  }

  lemma NewHoldsNewest(p: string)
    ensures HoldsNewest(NEW, p, [], [])
  {
  }

  ghost predicate Nondecreasing(times: seq<int>) {
    forall i, j | 0 <= i <= j < |times| :: times[i] <= times[j]
  }

  /** With a clock that does not go back, no line that is still buffered after a `flush_due` that
      returned is as old as the age limit. */
  lemma NoBufferedLineIsOld(events: seq<Event>, limits: Limits, now: int, puts: string -> Put, p: string)
    ensures var run := events + [FlushDue(now, puts)];
            var lines, times, held := Lines(run, p), Times(run, p), Buffer(RunCalls(run, limits).buffers, p);
            && |held| <= |lines| == |times| && held == lines[|lines| - |held|..]
            && (!Call(RunCalls(events, limits), FlushDue(now, puts), limits).1 && Nondecreasing(times) ==>
                  forall i | |lines| - |held| <= i < |lines| :: now - times[i] < limits.maxAge)
  {
    hide AppendLine, FlushEach, Valid, Lines, Times;
    var run := events + [FlushDue(now, puts)];
    var s, t := RunCalls(events, limits), RunCalls(run, limits);
    assert run[..|run| - 1] == events;
    EveryRunIsValid(events, limits);
    StartedIsLive(s);
    assert run[|run| - 1] == FlushDue(now, puts);
    assert Call(s, FlushDue(now, puts), limits) == FlushEach(s, Due(s, s.started, now, limits.maxAge), puts);
    assert t == FlushEach(s, Due(s, s.started, now, limits.maxAge), puts).0;
    FlushDueLeavesNoneOld(s, now, limits.maxAge, puts);
    EveryRunHoldsNewest(run, limits, p);
    var times, k := Times(run, p), |Buffer(t.buffers, p)|;
    if !Call(s, FlushDue(now, puts), limits).1 && Nondecreasing(times) && k > 0 {
      assert t.startedAt[p] == times[|times| - k];
      assert now - t.startedAt[p] < limits.maxAge;
    }
  }

  lemma StartedIsLive(s: Writer)
    requires Valid(s)
    ensures Live(s.started, s.startedAt) == s.started
  {
  }

  // ---------- What has landed, what is buffered, what was appended ----------

  /** The lines in the objects whose keys start with `prefix`. */
  function Landed(bucket: seq<Object>, prefix: string): multiset<string> {
    if bucket == [] then
      multiset{}
    else
      var last := bucket[|bucket| - 1];
      Landed(bucket[..|bucket| - 1], prefix)
      + if prefix <= last.key then multiset(ReadLines(last.body)) else multiset{}
  }

  predicate Under(prefix: string, p: string) {
    prefix <= p + "/"
  }

  /** What the partition's lines are read as under the prefix. */
  function Share(prefix: string, p: string, lines: seq<string>): multiset<string> {
    if Under(prefix, p) then multiset(AllPieces(lines)) else multiset{}
  }

  function Waiting(partitions: seq<string>, buffers: map<string, seq<string>>, prefix: string): multiset<string> {
    if partitions == [] then
      multiset{}
    else
      var last := partitions[|partitions| - 1];
      Waiting(partitions[..|partitions| - 1], buffers, prefix) + Share(prefix, last, Buffer(buffers, last))
  }

  function Appended(events: seq<Event>, prefix: string): multiset<string> {
    if events == [] then
      multiset{}
    else
      var last := events[|events| - 1];
      Appended(events[..|events| - 1], prefix)
      + if last.Append? then Share(prefix, PartitionKey(last.symbol, last.at), [last.line]) else multiset{}
  }

  lemma {:induction false} WaitingElsewhere(
      partitions: seq<string>, buffers: map<string, seq<string>>, prefix: string, p: string, lines: seq<string>)
    requires p !in partitions
    ensures Waiting(partitions, buffers[p := lines], prefix) == Waiting(partitions, buffers, prefix)
  {
    if partitions != [] {
      WaitingElsewhere(partitions[..|partitions| - 1], buffers, prefix, p, lines);
      assert partitions[|partitions| - 1] in partitions;
    }
  }

  lemma AddToBoth<T>(a: multiset<T>, b: multiset<T>, c: multiset<T>, d: multiset<T>, more: multiset<T>)
    requires a + b == c + d
    ensures (a + more) + b == (c + more) + d
  {
    assert (a + more) + b == (a + b) + more && (c + more) + d == (c + d) + more;
  }

  lemma {:induction false} WaitingUpdate(
      partitions: seq<string>, buffers: map<string, seq<string>>, prefix: string, p: string, lines: seq<string>)
    requires p in partitions && Distinct(partitions)
    ensures Waiting(partitions, buffers[p := lines], prefix) + Share(prefix, p, Buffer(buffers, p))
         == Waiting(partitions, buffers, prefix) + Share(prefix, p, lines)
  {
    hide Share;
    var front, last := partitions[..|partitions| - 1], partitions[|partitions| - 1];
    assert partitions == front + [last];
    assert forall i | 0 <= i < |front| :: front[i] == partitions[i];
    if p == last {
      WaitingElsewhere(front, buffers, prefix, p, lines);
      assert Buffer(buffers[p := lines], last) == lines;
    } else {
      WaitingUpdate(front, buffers, prefix, p, lines);
      assert Buffer(buffers[p := lines], last) == Buffer(buffers, last);
      AddToBoth(Waiting(front, buffers[p := lines], prefix), Share(prefix, p, Buffer(buffers, p)),
                Waiting(front, buffers, prefix), Share(prefix, p, lines), Share(prefix, last, Buffer(buffers, last)));
    }
  }

  lemma LandOne(bucket: seq<Object>, landed: Object, prefix: string)
    ensures Landed(bucket + [landed], prefix)
         == Landed(bucket, prefix) + if prefix <= landed.key then multiset(ReadLines(landed.body)) else multiset{}
  {
  }

  /** The prefix separates whole partitions: an object is under it exactly when its partition is. */
  ghost predicate Separates(prefix: string, p: string) {
    forall uuid :: prefix <= ObjectKey(p, uuid) <==> Under(prefix, p)
  }

  /** The prefix splits none of the writer's partitions. */
  ghost predicate Readable(s: Writer, prefix: string) {
    forall p | p in s.partitions :: Separates(prefix, p)
  }

  function Total(s: Writer, prefix: string): multiset<string> {
    Landed(s.bucket, prefix) + Waiting(s.partitions, s.buffers, prefix)
  }

  /** A put moves the buffer's lines into the bucket; one that fails after landing leaves them in
      both places. */
  lemma FlushOneMoves(s: Writer, p: string, put: Put, prefix: string)
    requires Valid(s) && Readable(s, prefix)
    ensures var t := FlushOne(s, p, put).0;
            && Readable(t, prefix)
            && Total(t, prefix)
               == Total(s, prefix)
                  + if put.outcome == FailedLanded then Share(prefix, p, Buffer(s.buffers, p)) else multiset{}
  {
    hide Waiting, Landed, Separates, ReadLines, Body, ObjectKey;
    var lines := Buffer(s.buffers, p);
    var t := FlushOne(s, p, put).0;
    if lines != [] {
      assert p in s.partitions;
      BodyLands(s.bucket, p, put.uuid, lines, prefix);
      assert put.outcome.Stored? ==> Buffer(t.buffers, p) == [] && Share(prefix, p, []) == multiset{};
      WaitingUpdate(s.partitions, s.buffers, prefix, p, []);
      var l, w, share := Landed(s.bucket, prefix), Waiting(s.partitions, s.buffers, prefix), Share(prefix, p, lines);
      assert (l + share) + w == (l + w) + share;
      if put.outcome.Stored? {
        var w' := Waiting(t.partitions, t.buffers, prefix);
        assert w' + share == w + multiset{};
        assert Total(t, prefix) == (l + share) + w' == l + (w' + share) == Total(s, prefix);
      }
    }
  }

  lemma BodyLands(bucket: seq<Object>, p: string, uuid: string, lines: seq<string>, prefix: string)
    requires Separates(prefix, p) && lines != []
    ensures Landed(bucket + [Object(ObjectKey(p, uuid), Body(lines))], prefix)
         == Landed(bucket, prefix) + Share(prefix, p, lines)
  {
    hide Landed, ReadLines, Body, ObjectKey, Under;
    ReadBody(lines);
    LandOne(bucket, Object(ObjectKey(p, uuid), Body(lines)), prefix);
  }

  lemma BufferedAdds(s: Writer, p: string, line: string, now: int, prefix: string)
    requires Valid(s) && Readable(s, prefix) && Separates(prefix, p)
    ensures var t := Buffered(s, p, line, now);
            Readable(t, prefix) && Total(t, prefix) == Total(s, prefix) + Share(prefix, p, [line])
  {
    hide Landed, Waiting, Separates, AllPieces;
    var t := Buffered(s, p, line, now);
    AddKeyAdds(s.partitions, p);
    BufferedWaiting(s, p, line, now, prefix);
    var l, w, share := Landed(s.bucket, prefix), Waiting(s.partitions, s.buffers, prefix), Share(prefix, p, [line]);
    assert (l + w) + share == l + (w + share);
  }

  lemma Cancel<T>(a: multiset<T>, b: multiset<T>, c: multiset<T>)
    requires a + c == b + c
    ensures a == b
  {
    forall x
      ensures a[x] == b[x]
    {
      assert (a + c)[x] == (b + c)[x];
    }
  }

  lemma OneMoreShared(prefix: string, p: string, lines: seq<string>, line: string)
    ensures Share(prefix, p, lines + [line]) == Share(prefix, p, lines) + Share(prefix, p, [line])
  {
    hide AllPieces;
    PiecesConcat(lines, [line]);
  }

  lemma BufferedWaiting(s: Writer, p: string, line: string, now: int, prefix: string)
    requires Valid(s)
    ensures Waiting(Buffered(s, p, line, now).partitions, Buffered(s, p, line, now).buffers, prefix)
         == Waiting(s.partitions, s.buffers, prefix) + Share(prefix, p, [line])
  {
    hide Share;
    var lines := Buffer(s.buffers, p);
    var buffers := s.buffers[p := lines + [line]];
    var w, one, all := Waiting(s.partitions, s.buffers, prefix), Share(prefix, p, [line]), Share(prefix, p, lines);
    OneMoreShared(prefix, p, lines, line);
    if p in s.partitions {
      hide Waiting;
      WaitingUpdate(s.partitions, s.buffers, prefix, p, lines + [line]);
      assert w + (all + one) == (w + one) + all;
      Cancel(Waiting(s.partitions, buffers, prefix), w + one, all);
    } else {
      WaitingElsewhere(s.partitions, s.buffers, prefix, p, lines + [line]);
      WaitingOneMore(s.partitions, buffers, prefix, p);
      assert lines + [line] == [line];
    }
  }

  lemma WaitingOneMore(partitions: seq<string>, buffers: map<string, seq<string>>, prefix: string, p: string)
    ensures Waiting(partitions + [p], buffers, prefix)
         == Waiting(partitions, buffers, prefix) + Share(prefix, p, Buffer(buffers, p))
  {
  }

  // ---------- Every run, under one prefix ----------

  predicate NeverLandsTwice(put: Put) {
    put.outcome != FailedLanded
  }

  ghost predicate NeverStrays(e: Event) {
    match e
    case Append(_, _, _, _, put) => NeverLandsTwice(put)
    case FlushDue(_, puts) => forall p :: NeverLandsTwice(puts(p))
    case FlushAll(puts) => forall p :: NeverLandsTwice(puts(p))
  }

  /** No put in the run failed after its object had landed. */
  ghost predicate NoStrayObjects(events: seq<Event>) {
    forall e | e in events :: NeverStrays(e)
  }

  /** The prefix splits no partition that was appended to. */
  ghost predicate Landable(events: seq<Event>, prefix: string) {
    forall e | e in events && e.Append? :: Separates(prefix, PartitionKey(e.symbol, e.at))
  }

  /** Nothing is lost, nothing is invented, and with no stray object nothing is doubled. */
  ghost predicate Accounts(total: multiset<string>, appended: multiset<string>, exact: bool) {
    && appended <= total
    && (forall line | line in total :: line in appended)
    && (exact ==> total == appended)
  }

  lemma MovedStillAccounts(total: multiset<string>, appended: multiset<string>, extra: multiset<string>, exact: bool)
    requires Accounts(total, appended, exact)
    requires forall line | line in extra :: line in total
    requires exact ==> extra == multiset{}
    ensures Accounts(total + extra, appended, exact)
  {
  }

  lemma {:induction false} WaitingHolds(
      partitions: seq<string>, buffers: map<string, seq<string>>, prefix: string, p: string, line: string)
    requires p in partitions && line in Share(prefix, p, Buffer(buffers, p))
    ensures line in Waiting(partitions, buffers, prefix)
  {
    if p != partitions[|partitions| - 1] {
      assert partitions == partitions[..|partitions| - 1] + [partitions[|partitions| - 1]];
      WaitingHolds(partitions[..|partitions| - 1], buffers, prefix, p, line);
    }
  }

  lemma FlushOneAccounts(s: Writer, p: string, put: Put, prefix: string, appended: multiset<string>, exact: bool)
    requires Valid(s) && Readable(s, prefix) && Accounts(Total(s, prefix), appended, exact)
    requires exact ==> NeverLandsTwice(put)
    ensures Readable(FlushOne(s, p, put).0, prefix)
    ensures Accounts(Total(FlushOne(s, p, put).0, prefix), appended, exact)
  {
    hide FlushOne, Accounts, Readable, Landed, Waiting;
    FlushOneMoves(s, p, put, prefix);
    var share := Share(prefix, p, Buffer(s.buffers, p));
    forall line | line in share
      ensures line in Total(s, prefix)
    {
      WaitingHolds(s.partitions, s.buffers, prefix, p, line);
    }
    MovedStillAccounts(Total(s, prefix), appended, if put.outcome == FailedLanded then share else multiset{}, exact);
  }

  lemma {:induction false} FlushEachAccounts(
      s: Writer, order: seq<string>, puts: string -> Put, prefix: string, appended: multiset<string>, exact: bool)
    requires Valid(s) && Readable(s, prefix) && Accounts(Total(s, prefix), appended, exact)
    requires exact ==> forall p :: NeverLandsTwice(puts(p))
    ensures Readable(FlushEach(s, order, puts).0, prefix)
    ensures Accounts(Total(FlushEach(s, order, puts).0, prefix), appended, exact)
    decreases order
  {
    hide FlushOne, Accounts, Readable, Total, Valid;
    if order != [] {
      FlushOneAccounts(s, order[0], puts(order[0]), prefix, appended, exact);
      FlushOneKeepsValid(s, order[0], puts(order[0]));
      FlushEachAccounts(FlushOne(s, order[0], puts(order[0])).0, order[1..], puts, prefix, appended, exact);
    }
  }

  lemma GrownStillAccounts(total: multiset<string>, appended: multiset<string>, more: multiset<string>, exact: bool)
    requires Accounts(total, appended, exact)
    ensures Accounts(total + more, appended + more, exact)
  {
  }

  lemma AppendAccounts(
      s: Writer, p: string, line: string, now: int, maxLines: int, put: Put, prefix: string,
      appended: multiset<string>, exact: bool)
    requires Valid(s) && Readable(s, prefix) && Accounts(Total(s, prefix), appended, exact)
    requires Separates(prefix, p) && (exact ==> NeverLandsTwice(put))
    ensures Readable(AppendLine(s, p, line, now, maxLines, put).0, prefix)
    ensures Accounts(Total(AppendLine(s, p, line, now, maxLines, put).0, prefix),
                     appended + Share(prefix, p, [line]), exact)
  {
    hide FlushOne, Accounts, Readable, Total, Valid, Buffered, Separates, Share;
    BufferedAdds(s, p, line, now, prefix);
    GrownStillAccounts(Total(s, prefix), appended, Share(prefix, p, [line]), exact);
    BufferedKeepsValid(s, p, line, now);
    FlushOneAccounts(Buffered(s, p, line, now), p, put, prefix, appended + Share(prefix, p, [line]), exact);
  }

  lemma NewAccounts(prefix: string, exact: bool)
    ensures Readable(NEW, prefix) && Accounts(Total(NEW, prefix), multiset{}, exact)
  {
  }

  lemma {:induction false} EveryRunAccounts(events: seq<Event>, limits: Limits, prefix: string, exact: bool)
    requires Landable(events, prefix) && (exact ==> NoStrayObjects(events))
    ensures Readable(RunCalls(events, limits), prefix)
    ensures Accounts(Total(RunCalls(events, limits), prefix), Appended(events, prefix), exact)
  {
    hide AppendLine, FlushEach, Accounts, Readable, Total, Valid, Separates, Share, PartitionKey;
    if events == [] {
      NewAccounts(prefix, exact);
    } else {
      var front, last := events[..|events| - 1], events[|events| - 1];
      assert last in events && forall e | e in front :: e in events;
      EveryRunAccounts(front, limits, prefix, exact);
      EveryRunIsValid(front, limits);
      var s, before := RunCalls(front, limits), Appended(front, prefix);
      match last
      case Append(symbol, at, line, now, put) =>
        AppendAccounts(s, PartitionKey(symbol, at), line, now, limits.maxLines, put, prefix, before, exact);
      case FlushDue(now, puts) =>
        assert before + multiset{} == before;
        FlushEachAccounts(s, Due(s, Live(s.started, s.startedAt), now, limits.maxAge), puts, prefix, before, exact);
      case FlushAll(puts) =>
        assert before + multiset{} == before;
        FlushEachAccounts(s, s.partitions, puts, prefix, before, exact);
    }
  }

  // ---------- What silver reads ----------

  /** The objects of a prefix listing. */
  function Selected(bucket: seq<Object>, prefix: string): seq<Object> {
    if bucket == [] then
      []
    else
      var last := bucket[|bucket| - 1];
      Selected(bucket[..|bucket| - 1], prefix) + if prefix <= last.key then [last] else []
  }

  function ReadAll(objects: seq<Object>): seq<string> {
    if objects == [] then [] else ReadAll(objects[..|objects| - 1]) + ReadLines(objects[|objects| - 1].body)
  }

  method ReadBronzeLines(objects: seq<Object>) returns (lines: seq<string>)
    ensures lines == ReadAll(objects)
  {
    lines := [];
    for i := 0 to |objects|
      invariant lines == ReadAll(objects[..i])
    {
      assert objects[..i + 1][..i] == objects[..i];
      lines := lines + ReadLines(objects[i].body);
    }
    assert objects[..|objects|] == objects;
  }

  lemma {:induction false} ReadAllConcat(a: seq<Object>, b: seq<Object>)
    ensures ReadAll(a + b) == ReadAll(a) + ReadAll(b)
  {
    hide ReadLines;
    if b == [] {
      assert a + b == a;
    } else {
      ReadAllConcat(a, b[..|b| - 1]);
      assert (a + b)[..|a + b| - 1] == a + b[..|b| - 1];
    }
  }

  lemma ReadAllOneMore(objects: seq<Object>, last: Object)
    ensures ReadAll(objects + [last]) == ReadAll(objects) + ReadLines(last.body)
  {
  }

  lemma ReadAllOne(only: Object)
    ensures ReadAll([only]) == ReadLines(only.body)
  {
  }

  lemma ReadAllWithout(objects: seq<Object>, i: nat)
    requires i < |objects|
    ensures multiset(ReadAll(objects)) == multiset(ReadAll(Without(objects, i))) + multiset(ReadLines(objects[i].body))
  {
    hide ReadLines, ReadAll;
    var front, one, back := objects[..i], [objects[i]], objects[i + 1..];
    assert objects == front + (one + back);
    ReadAllConcat(front, one + back);
    ReadAllConcat(one, back);
    ReadAllConcat(front, back);
    ReadAllOne(objects[i]);
  }

  /** The listing order does not matter. */
  lemma {:induction false} ReadAllPermutes(a: seq<Object>, b: seq<Object>)
    requires Permutation(a, b)
    ensures multiset(ReadAll(a)) == multiset(ReadAll(b))
  {
    hide ReadLines;
    SameMembers(a, b);
    if |a| > 0 {
      var last := a[|a| - 1];
      assert last in b;
      var i :| 0 <= i < |b| && b[i] == last;
      WithoutRemovesOne(b, i);
      WithoutRemovesOne(a, |a| - 1);
      assert Without(a, |a| - 1) == a[..|a| - 1];
      assert multiset(a[..|a| - 1]) == multiset(a) - multiset{last};
      assert multiset(Without(b, i)) == multiset(b) - multiset{last};
      ReadAllPermutes(a[..|a| - 1], Without(b, i));
      ReadAllWithout(b, i);
    }
  }

  lemma {:induction false} SelectedIsLanded(bucket: seq<Object>, prefix: string)
    ensures multiset(ReadAll(Selected(bucket, prefix))) == Landed(bucket, prefix)
  {
    hide ReadLines;
    if bucket != [] {
      var front, last := bucket[..|bucket| - 1], bucket[|bucket| - 1];
      SelectedIsLanded(front, prefix);
      var before := Selected(front, prefix);
      if prefix <= last.key {
        ReadAllOneMore(before, last);
      } else {
        assert before + [] == before;
      }
    }
  }

  lemma {:induction false} NothingWaiting(partitions: seq<string>, buffers: map<string, seq<string>>, prefix: string)
    requires forall p :: Buffer(buffers, p) == []
    ensures Waiting(partitions, buffers, prefix) == multiset{}
  {
    if partitions != [] {
      NothingWaiting(partitions[..|partitions| - 1], buffers, prefix);
    }
  }

  // ---------- Lossless landing ----------

  /** What was appended for the symbol on the date. */
  function AppendedTo(events: seq<Event>, symbol: Symbol, date: string): multiset<string> {
    if events == [] then
      multiset{}
    else
      var last := events[|events| - 1];
      AppendedTo(events[..|events| - 1], symbol, date)
      + if last.Append? && last.symbol == symbol && last.at.date == date then multiset{last.line} else multiset{}
  }

  /** Symbols have no slash in them and receive times are well formed. */
  ghost predicate Addressed(events: seq<Event>) {
    forall e | e in events && e.Append? :: '/' !in e.symbol && IsStamp(e.at)
  }

  lemma PrefixSeparates(symbol: Symbol, date: string, other: Symbol, at: Stamp)
    requires '/' !in symbol && '/' !in date && '/' !in other && IsStamp(at)
    ensures Separates(SilverPrefix(symbol, date), PartitionKey(other, at))
    ensures Under(SilverPrefix(symbol, date), PartitionKey(other, at)) <==> other == symbol && at.date == date
  {
    hide SilverPrefix;
    var p, hour := PartitionKey(other, at), "hour=" + at.hour;
    forall tail: string
      ensures SilverPrefix(symbol, date) <= p + ("/" + tail) <==> other == symbol && at.date == date
    {
      UnderPrefix(other, at.date, hour + ("/" + tail), symbol, date);
      assert p + ("/" + tail)
          == "ticks/" + (SYMBOL_TAG + other) + "/" + (DATE_TAG + at.date) + "/" + (hour + ("/" + tail));
    }
    assert p + ("/" + "") == p + "/";
    forall uuid
      ensures SilverPrefix(symbol, date) <= ObjectKey(p, uuid) <==> Under(SilverPrefix(symbol, date), p)
    {
      assert ObjectKey(p, uuid) == p + ("/" + (uuid + ".ndjson"));
    }
  }

  /** What the lines appended for the symbol on the date are read as. */
  function PiecesTo(events: seq<Event>, symbol: Symbol, date: string): multiset<string> {
    if events == [] then
      multiset{}
    else
      var last := events[|events| - 1];
      PiecesTo(events[..|events| - 1], symbol, date)
      + if last.Append? && last.symbol == symbol && last.at.date == date then multiset(Pieces(last.line))
        else multiset{}
  }

  lemma OnePieceShared(prefix: string, p: string, line: string)
    ensures Share(prefix, p, [line]) == if Under(prefix, p) then multiset(Pieces(line)) else multiset{}
  {
    hide Pieces, Under;
    assert [line][1..] == [] && AllPieces([]) == [];
    assert AllPieces([line]) == Pieces(line) + [] == Pieces(line);
  }

  lemma {:induction false} AppendedIsPieces(events: seq<Event>, symbol: Symbol, date: string)
    requires Addressed(events) && '/' !in symbol && '/' !in date
    ensures Landable(events, SilverPrefix(symbol, date))
    ensures Appended(events, SilverPrefix(symbol, date)) == PiecesTo(events, symbol, date)
  {
    hide Separates, Under, SilverPrefix, PartitionKey, IsStamp, Share, Pieces;
    if events != [] {
      var front, last := events[..|events| - 1], events[|events| - 1];
      assert events == front + [last];
      AppendedIsPieces(front, symbol, date);
      if last.Append? {
        assert last in events;
        PrefixSeparates(symbol, date, last.symbol, last.at);
        OnePieceShared(SilverPrefix(symbol, date), PartitionKey(last.symbol, last.at), last.line);
      }
    }
  }

  lemma {:induction false} SurvivingPieces(events: seq<Event>, symbol: Symbol, date: string)
    requires forall line | line in AppendedTo(events, symbol, date) :: Survives(line)
    ensures PiecesTo(events, symbol, date) == AppendedTo(events, symbol, date)
  {
    hide Survives, Pieces;
    if events != [] {
      SurvivingPieces(events[..|events| - 1], symbol, date);
      var last := events[|events| - 1];
      if last.Append? && last.symbol == symbol && last.at.date == date {
        assert last.line in AppendedTo(events, symbol, date);
        SurvivorIsOnePiece(last.line);
      }
    }
  }

  lemma FlushAllLeavesNothing(events: seq<Event>, limits: Limits, puts: string -> Put)
    ensures !Call(RunCalls(events, limits), FlushAll(puts), limits).1 ==>
              forall p :: Buffer(RunCalls(events + [FlushAll(puts)], limits).buffers, p) == []
  {
    hide FlushEach, Valid;
    var run, s := events + [FlushAll(puts)], RunCalls(events, limits);
    EveryRunIsValid(events, limits);
    FlushAllEmpties(s, puts);
    assert run[..|run| - 1] == events && run[|run| - 1] == FlushAll(puts);
    assert Call(s, FlushAll(puts), limits) == FlushEach(s, s.partitions, puts);
    assert RunCalls(run, limits) == FlushEach(s, s.partitions, puts).0;
  }

  lemma {:induction false} OnlySurvivorsAreRead(objects: seq<Object>)
    ensures forall line | line in ReadAll(objects) :: Survives(line)
  {
    hide ReadLines, Survives;
    if objects != [] {
      OnlySurvivorsAreRead(objects[..|objects| - 1]);
      ReadLinesSurvive(objects[|objects| - 1].body);
    }
  }

  /** Nothing was lost and nothing invented; with no stray object nothing was doubled either. */
  ghost predicate Lossless(lines: seq<string>, appended: multiset<string>, exact: bool) {
    && (forall line :: line in lines <==> line in appended)
    && appended <= multiset(lines)
    && (exact ==> multiset(lines) == appended)
  }

  /** After any run that left nothing buffered, as every run ending in a `flush_all` that returned
      does, and for any listing order: what a rebuild reads for a symbol and date are the pieces of the
      lines appended there, all of them, none fewer times than it should be, and exactly as often when
      no failed put had landed. */
  lemma LandingIsPieces(
      events: seq<Event>, limits: Limits, symbol: Symbol, date: string, listing: seq<Object>, exact: bool)
    requires Addressed(events) && '/' !in symbol && '/' !in date && (exact ==> NoStrayObjects(events))
    requires forall p :: Buffer(RunCalls(events, limits).buffers, p) == []
    requires Permutation(listing, Selected(RunCalls(events, limits).bucket, SilverPrefix(symbol, date)))
    ensures Lossless(ReadAll(listing), PiecesTo(events, symbol, date), exact)
  {
    hide RunCalls, Landed, Selected, Waiting, ReadAll, Addressed, Landable, NoStrayObjects;
    hide Appended, PiecesTo, SilverPrefix;
    var s, prefix := RunCalls(events, limits), SilverPrefix(symbol, date);
    AppendedIsPieces(events, symbol, date);
    ReadAllPermutes(listing, Selected(s.bucket, prefix));
    SelectedIsLanded(s.bucket, prefix);
    NothingWaiting(s.partitions, s.buffers, prefix);
    assert Total(s, prefix) == multiset(ReadAll(listing));
    EveryRunAccounts(events, limits, prefix, exact);
    forall line
      ensures line in ReadAll(listing) <==> line in PiecesTo(events, symbol, date)
    {
      assert line in ReadAll(listing) <==> line in multiset(ReadAll(listing));
    }
  }

  /** And these pieces are the appended lines themselves, so that nothing was lost, invented or, without
      a stray object, doubled, if and only if every line appended there survives the round trip. */
  lemma LandingIsLosslessIff(
      events: seq<Event>, limits: Limits, symbol: Symbol, date: string, listing: seq<Object>)
    requires Addressed(events) && '/' !in symbol && '/' !in date
    requires forall p :: Buffer(RunCalls(events, limits).buffers, p) == []
    requires Permutation(listing, Selected(RunCalls(events, limits).bucket, SilverPrefix(symbol, date)))
    ensures Lossless(ReadAll(listing), AppendedTo(events, symbol, date), NoStrayObjects(events))
       <==> forall line | line in AppendedTo(events, symbol, date) :: Survives(line)
  {
    hide RunCalls, Selected, ReadAll, Addressed, NoStrayObjects, AppendedTo, PiecesTo, SilverPrefix, Survives;
    OnlySurvivorsAreRead(listing);
    if forall line | line in AppendedTo(events, symbol, date) :: Survives(line) {
      LandingIsPieces(events, limits, symbol, date, listing, NoStrayObjects(events));
      SurvivingPieces(events, symbol, date);
    }
  }

  // ---------- The writer's own counters ----------

  function AppendCount(events: seq<Event>): nat {
    if events == [] then 0 else AppendCount(events[..|events| - 1]) + if events[|events| - 1].Append? then 1 else 0
  }

  function BufferedCount(partitions: seq<string>, buffers: map<string, seq<string>>): nat {
    if partitions == [] then
      0
    else
      BufferedCount(partitions[..|partitions| - 1], buffers) + |Buffer(buffers, partitions[|partitions| - 1])|
  }

  lemma {:induction false} CountElsewhere(
      partitions: seq<string>, buffers: map<string, seq<string>>, p: string, lines: seq<string>)
    requires p !in partitions
    ensures BufferedCount(partitions, buffers[p := lines]) == BufferedCount(partitions, buffers)
  {
    if partitions != [] {
      CountElsewhere(partitions[..|partitions| - 1], buffers, p, lines);
      assert partitions[|partitions| - 1] in partitions;
    }
  }

  lemma {:induction false} CountUpdate(
      partitions: seq<string>, buffers: map<string, seq<string>>, p: string, lines: seq<string>)
    requires p in partitions && Distinct(partitions)
    ensures BufferedCount(partitions, buffers[p := lines]) + |Buffer(buffers, p)|
         == BufferedCount(partitions, buffers) + |lines|
  {
    var front, last := partitions[..|partitions| - 1], partitions[|partitions| - 1];
    assert partitions == front + [last];
    assert forall i | 0 <= i < |front| :: front[i] == partitions[i];
    if p == last {
      CountElsewhere(front, buffers, p, lines);
    } else {
      CountUpdate(front, buffers, p, lines);
    }
  }

  function Handled(s: Writer): nat {
    s.lines + BufferedCount(s.partitions, s.buffers)
  }

  lemma FlushOneHandles(s: Writer, p: string, put: Put)
    requires Valid(s)
    ensures Handled(FlushOne(s, p, put).0) == Handled(s)
  {
    hide Body, ObjectKey;
    if Buffer(s.buffers, p) != [] {
      CountUpdate(s.partitions, s.buffers, p, []);
    }
  }

  lemma {:induction false} FlushEachHandles(s: Writer, order: seq<string>, puts: string -> Put)
    requires Valid(s)
    ensures Handled(FlushEach(s, order, puts).0) == Handled(s)
    decreases order
  {
    hide FlushOne, Handled, Valid;
    if order != [] {
      FlushOneHandles(s, order[0], puts(order[0]));
      FlushOneKeepsValid(s, order[0], puts(order[0]));
      FlushEachHandles(FlushOne(s, order[0], puts(order[0])).0, order[1..], puts);
    }
  }

  lemma BufferedHandles(s: Writer, p: string, line: string, now: int)
    requires Valid(s)
    ensures Handled(Buffered(s, p, line, now)) == Handled(s) + 1
  {
    var lines := Buffer(s.buffers, p) + [line];
    if p in s.partitions {
      CountUpdate(s.partitions, s.buffers, p, lines);
    } else {
      CountElsewhere(s.partitions, s.buffers, p, lines);
      assert (s.partitions + [p])[..|s.partitions|] == s.partitions;
    }
  }

  /** Flushed plus buffered lines are the lines appended, whatever failed. */
  lemma {:induction false} CountersAddUp(events: seq<Event>, limits: Limits)
    ensures var s := RunCalls(events, limits);
            s.lines + BufferedCount(s.partitions, s.buffers) == AppendCount(events)
  {
    hide FlushEach, FlushOne, Buffered, Valid, PartitionKey;
    if events != [] {
      var front, last := events[..|events| - 1], events[|events| - 1];
      var s := RunCalls(front, limits);
      CountersAddUp(front, limits);
      EveryRunIsValid(front, limits);
      match last
      case Append(symbol, at, line, now, put) =>
        var p := PartitionKey(symbol, at);
        BufferedHandles(s, p, line, now);
        BufferedKeepsValid(s, p, line, now);
        FlushOneHandles(Buffered(s, p, line, now), p, put);
      case FlushDue(now, puts) =>
        FlushEachHandles(s, Due(s, Live(s.started, s.startedAt), now, limits.maxAge), puts);
      case FlushAll(puts) => FlushEachHandles(s, s.partitions, puts);
    }
  }
}
