/** The load harness: a publisher that paces its batches, and the verdict that a load step drained.

    Clock readings are real numbers of seconds built from non-negative waits; a sleep lasts at least
    as long as asked.
 */
module LoadHarness {
  import opened Models
  import opened Delivery
  import opened DeliverySafety
  import opened DeliveryCounts
  import opened RedisStream

  // ---------- Pacing ----------

  /** How long publishing took, how much longer than asked the sleep took, and the rest of the turn. */
  datatype Waits = Waits(publish: real, oversleep: real, rest: real)

  predicate NonNegative(waits: Waits) {
    waits.publish >= 0.0 && waits.oversleep >= 0.0 && waits.rest >= 0.0
  }

  /** All but the last batch fit into the duration at the target rate. */
  predicate Paced(published: nat, batchSize: nat, targetRate: real, duration: real) {
    published == 0 || (published - batchSize) as real < duration * targetRate
  }

  function Spent(turns: seq<Waits>): real {
    if turns == [] then
      0.0
    else
      var last := turns[|turns| - 1];
      Spent(turns[..|turns| - 1]) + last.publish + last.oversleep + last.rest
  }

  /** The time between two batches at the target rate; none without a rate. */
  function Interval(batchSize: nat, targetRate: real): real {
    if targetRate > 0.0 then batchSize as real / targetRate else 0.0
  }

  lemma IntervalIsPaced(batchSize: nat, targetRate: real)
    ensures targetRate > 0.0 ==> Interval(batchSize, targetRate) * targetRate == batchSize as real
    ensures Interval(batchSize, targetRate) >= 0.0
  {
  }

  /** When batch `k` is due. */
  function DueAt(start: real, k: nat, interval: real): real {
    start + k as real * interval
  }

  lemma NothingDue(start: real, interval: real)
    ensures DueAt(start, 0, interval) == start
  {
  }

  lemma OneMoreDue(start: real, k: nat, interval: real)
    ensures DueAt(start, k + 1, interval) == DueAt(start, k, interval) + interval
  {
    assert (k + 1) as real * interval == k as real * interval + interval;
  }

  /** The k-th batch was sent k intervals after the start or later. */
  lemma SentInTime(start: real, k: nat, batchSize: nat, targetRate: real, duration: real, now: real)
    requires now - start < duration && DueAt(start, k, Interval(batchSize, targetRate)) <= now
    ensures targetRate > 0.0 ==> Paced(Published(k + 1, batchSize), batchSize, targetRate, duration)
  {
    if targetRate > 0.0 {
      var interval := Interval(batchSize, targetRate);
      assert k as real * interval < duration;
      assert k as real * interval * targetRate < duration * targetRate;
      assert k as real * interval * targetRate == (k * batchSize) as real;
      assert (k + 1) * batchSize - batchSize == k * batchSize;
    }
  }

  function Published(batches: nat, batchSize: nat): nat {
    batches * batchSize
  }

  lemma OneMorePublished(k: nat, batchSize: nat)
    ensures Published(0, batchSize) == 0
    ensures Published(k + 1, batchSize) == Published(k, batchSize) + batchSize
  {
    assert (k + 1) * batchSize == k * batchSize + batchSize;
  }

  /** Sends a batch, then sleeps until the next one is due. Never ahead of the target rate by more than a
      batch, and behind it only by the time that publishing, oversleeping and the rest of the turns took. */
  method PublishProcess(start: real, targetRate: real, duration: real, batchSize: nat, turns: seq<Waits>)
    returns (published: nat, elapsed: real, finished: bool, ghost batches: nat)
    requires forall waits | waits in turns :: NonNegative(waits)
    ensures published == batches * batchSize && batches <= |turns|
    ensures duration > 0.0 && turns != [] ==> batches > 0
    ensures !finished ==> batches == |turns|
    ensures targetRate > 0.0 ==> Paced(published, batchSize, targetRate, duration)
    ensures finished ==> elapsed >= duration
    ensures batches <= |turns|
            && elapsed <= DueAt(0.0, batches, Interval(batchSize, targetRate)) + Spent(turns[..batches])
  {
    hide DueAt, Paced, Interval, Published;
    var interval := Interval(batchSize, targetRate);
    IntervalIsPaced(batchSize, targetRate);
    NothingDue(start, interval);
    OneMorePublished(0, batchSize);
    NothingPaced(batchSize, targetRate, duration);
    var now, nextSend := start, start;
    published := 0;
    var k := 0;
    while now - start < duration && k < |turns|
      invariant 0 <= k <= |turns|
      invariant published == Published(k, batchSize)
      invariant nextSend == DueAt(start, k, interval) <= now <= nextSend + Spent(turns[..k])
      invariant duration > 0.0 && turns != [] && k == 0 ==> now - start < duration
      invariant targetRate > 0.0 ==> Paced(published, batchSize, targetRate, duration)
      decreases |turns| - k
    {
      var waits := turns[k];
      assert waits in turns && turns[..k + 1][..k] == turns[..k];
      SentInTime(start, k, batchSize, targetRate, duration, now);
      OneMorePublished(k, batchSize);
      OneMoreDue(start, k, interval);
      now := now + waits.publish;
      published := published + batchSize;
      nextSend := nextSend + interval;
      var sleepFor := nextSend - now;
      if sleepFor > 0.0 {
        now := now + sleepFor + waits.oversleep;
      }
      now := now + waits.rest;
      k := k + 1;
    }
    elapsed, finished, batches := now - start, now - start >= duration, k;
    DueSince(start, k, interval);
    PublishedIs(k, batchSize);
  }

  lemma NothingPaced(batchSize: nat, targetRate: real, duration: real)
    ensures Paced(0, batchSize, targetRate, duration)
  {
  }

  lemma DueSince(start: real, k: nat, interval: real)
    ensures DueAt(start, k, interval) - start == DueAt(0.0, k, interval)
  {
  }

  lemma PublishedIs(k: nat, batchSize: nat)
    ensures Published(k, batchSize) == k * batchSize
  {
  }

  function Total(published: seq<nat>): nat {
    if published == [] then 0 else Total(published[..|published| - 1]) + published[|published| - 1]
  }

  lemma {:induction false} TotalOfPaced(published: seq<nat>, batchSize: nat, rate: real, duration: real)
    requires rate > 0.0 && duration >= 0.0
    requires forall n | n in published :: Paced(n, batchSize, rate, duration)
    ensures Total(published) as real <= |published| as real * (duration * rate + batchSize as real)
  {
    if published != [] {
      var front, last := published[..|published| - 1], published[|published| - 1];
      TotalOfPaced(front, batchSize, rate, duration);
      var each := duration * rate + batchSize as real;
      assert last in published;
      assert duration * rate >= 0.0;
      assert last as real <= each;
      assert |published| as real * each == |front| as real * each + each;
    }
  }

  /** Processes that share a target rate publish at most one batch each over target times duration. */
  lemma ProcessesStayPaced(published: seq<nat>, batchSize: nat, target: real, duration: real)
    requires published != [] && target > 0.0 && duration >= 0.0
    requires forall n | n in published :: Paced(n, batchSize, target / |published| as real, duration)
    ensures Total(published) as real <= target * duration + (|published| * batchSize) as real
  {
    var p, b := |published| as real, batchSize as real;
    var rate := target / p;
    assert rate > 0.0;
    TotalOfPaced(published, batchSize, rate, duration);
    assert p * rate == target;
    assert p * (duration * rate + b) == duration * (p * rate) + p * b;
  }

  // ---------- The drain verdict ----------

  /** The lag the harness sees: zero for a group that does not exist. */
  function LagOf(stream: seq<Tick>, groups: map<string, Group>, name: string): int {
    if name in groups then |stream| - groups[name].cursor else 0
  }

  /** The published messages that the group was never given. */
  ghost function Undelivered(s: System, name: string): set<nat>
    requires name in s.groups
  {
    set id: nat | id < |s.stream| && id !in s.groups[name].pending && id !in s.groups[name].acked
  }

  /** The lag of a group is how many published messages it was never given. */
  lemma LagCountsUndelivered(s: System, name: string)
    requires Invariant(s) && name in s.groups
    ensures LagOf(s.stream, s.groups, name) == |Undelivered(s, name)|
  {
    var g := s.groups[name];
    assert GroupSplit(g, |s.stream|);
    forall id: nat | id < |s.stream|
      ensures id in Undelivered(s, name) <==> g.cursor <= id
    {
    }
    assert Undelivered(s, name) == Range(g.cursor, |s.stream|);
  }

  /** A group that was never created looks caught up, though it was given nothing; one that exists does
      exactly when every published message was delivered to it. */
  lemma ZeroLagIff(s: System, name: string)
    requires Invariant(s)
    ensures LagOf(s.stream, s.groups, name) == 0
       <==> name !in s.groups
            || forall id: nat | id < |s.stream| :: id in s.groups[name].pending || id in s.groups[name].acked
  {
    if name in s.groups {
      assert GroupSplit(s.groups[name], |s.stream|);
      if s.groups[name].cursor < |s.stream| {
        assert s.groups[name].cursor !in s.groups[name].pending;
      }
    }
  }

  lemma MissingGroupHasNoRow(s: System, name: string, id: nat)
    requires Invariant(s) && name !in s.groups
    ensures LagOf(s.stream, s.groups, name) == 0 && !HasRow(s, name, id)
  {
    forall row | row in s.table
      ensures !WrittenFor(s, row, name, id)
    {
      assert RowOk(s, row);
    }
  }

  /** What a verdict for calm workers guarantees: all but W * B messages have a row of the group, and all
      of them have one if and only if no worker is between reading a batch and writing it. */
  ghost predicate VerdictHolds(s: System, name: string, most: nat) {
    && |s.stream| - |WithRow(s, name)| <= GroupSize(s.workers, name) * most
    && ((forall id: nat | id < |s.stream| :: HasRow(s, name, id)) <==> NobodyHolds(s, name))
  }

  lemma VerdictBoundsLoss(trace: seq<Step>, name: string, most: nat)
    requires Calm(trace, most) && name in Run(EMPTY, trace).groups
    requires LagOf(Run(EMPTY, trace).stream, Run(EMPTY, trace).groups, name) == 0
    ensures VerdictHolds(Run(EMPTY, trace), name, most)
  {
    hide Run, WithRow, HasRow, GroupSize, NobodyHolds;
    CaughtUpBound(trace, name, most);
    CaughtUpIsStoredIff(trace, name, most);
  }

  /** The steps taken once the turns have passed. */
  function AfterTurns(soFar: seq<Step>, turns: seq<seq<Step>>): seq<Step> {
    if turns == [] then soFar else AfterTurns(soFar, turns[..|turns| - 1]) + turns[|turns| - 1]
  }

  lemma OneMoreTurn(soFar: seq<Step>, turns: seq<seq<Step>>, k: nat)
    requires k < |turns|
    ensures AfterTurns(soFar, turns[..k + 1]) == AfterTurns(soFar, turns[..k]) + turns[k]
  {
    assert turns[..k + 1][..k] == turns[..k];
  }

  lemma {:induction false} TurnsExtend(soFar: seq<Step>, turns: seq<seq<Step>>)
    ensures soFar <= AfterTurns(soFar, turns)
  {
    if turns != [] {
      TurnsExtend(soFar, turns[..|turns| - 1]);
    }
  }

  /** The published messages that the group was never given after the steps; none for a group that does not
      exist. */
  ghost function LagAfter(trace: seq<Step>, name: string): int {
    var s := Run(EMPTY, trace);
    if name in s.groups then |Undelivered(s, name)| else 0
  }

  lemma LagIsRead(trace: seq<Step>, name: string)
    ensures LagOf(Run(EMPTY, trace).stream, Run(EMPTY, trace).groups, name) == LagAfter(trace, name)
  {
    hide Run, Undelivered, Invariant;
    EveryRunKeepsInvariant(trace);
    if name in Run(EMPTY, trace).groups {
      LagCountsUndelivered(Run(EMPTY, trace), name);
    }
  }

  /** The turns that had passed when sample `i` was taken: the turn in which the publishers ended has a
      reading of its own. */
  function Passed(i: nat, publishing: nat): nat {
    if i < publishing then i + 1 else i + 2
  }

  /** Each sample is the lag after the turns that had passed. */
  ghost predicate ReadAsPassed(
      samples: seq<int>, soFar: seq<Step>, turns: seq<seq<Step>>, publishing: nat, name: string)
  {
    forall i | 0 <= i < |samples| && Passed(i, publishing) <= |turns| ::
      samples[i] == LagAfter(AfterTurns(soFar, turns[..Passed(i, publishing)]), name)
  }

  lemma OneMoreReading(
      samples: seq<int>, lag: int, soFar: seq<Step>, turns: seq<seq<Step>>, publishing: nat, name: string)
    requires ReadAsPassed(samples, soFar, turns, publishing, name)
    requires Passed(|samples|, publishing) <= |turns|
    requires lag == LagAfter(AfterTurns(soFar, turns[..Passed(|samples|, publishing)]), name)
    ensures ReadAsPassed(samples + [lag], soFar, turns, publishing, name)
  {
    hide LagAfter, AfterTurns;
  }

  /** Lets the pipeline work on for turn `k`, then reads the lag. */
  method Sample(world: World, name: string, turn: seq<Step>, ghost soFar: seq<Step>, ghost turns: seq<seq<Step>>,
                ghost k: nat)
    returns (lag: int)
    requires k < |turns| && turn == turns[k]
    requires world.Current() == Run(EMPTY, AfterTurns(soFar, turns[..k]))
    modifies world
    ensures world.Current() == Run(EMPTY, AfterTurns(soFar, turns[..k + 1]))
    ensures lag == LagAfter(AfterTurns(soFar, turns[..k + 1]), name)
  {
    hide Run, Apply, AfterTurns, LagAfter;
    RunInTwo(EMPTY, AfterTurns(soFar, turns[..k]), turn);
    LagIsRead(AfterTurns(soFar, turns[..k + 1]), name);
    OneMoreTurn(soFar, turns, k);
    world.Others(turn);
    lag := LagOf(world.stream, world.groups, name);
  }

  /** One load step: samples the lag while publishers run, once when they have ended, then through the
      grace period until it reads zero, and judges by one last reading. The turns are what the publishers
      and the workers do meanwhile; every reading is the group's lag after the turns that had passed. */
  method RunStep(
      world: World, name: string, stepTurns: seq<seq<Step>>, endTurn: seq<Step>, graceTurns: seq<seq<Step>>,
      lastTurn: seq<Step>, ghost soFar: seq<Step>)
    returns (samples: seq<int>, lagAtStepEnd: int, maxLag: int, caughtUp: bool, ghost trace: seq<Step>)
    requires world.Current() == Run(EMPTY, soFar)
    modifies world
    ensures soFar <= trace && world.Current() == Run(EMPTY, trace)
    ensures |stepTurns| <= |samples| <= |stepTurns| + |graceTurns|
    ensures var turns := stepTurns + [endTurn] + graceTurns;
            && trace == AfterTurns(soFar, turns[..|samples| + 1] + [lastTurn])
            && lagAtStepEnd == LagAfter(AfterTurns(soFar, turns[..|stepTurns| + 1]), name)
            && ReadAsPassed(samples, soFar, turns, |stepTurns|, name)
    ensures forall i | |stepTurns| <= i < |samples| - 1 :: samples[i] != 0
    ensures |samples| < |stepTurns| + |graceTurns| ==> samples != [] && samples[|samples| - 1] == 0
    ensures samples == [] ==> maxLag == 0
    ensures samples != [] ==> maxLag in samples && forall lag | lag in samples :: lag <= maxLag
    ensures caughtUp <==> LagAfter(trace, name) == 0
    ensures forall most: nat | Calm(trace, most) && caughtUp && name in world.groups ::
              VerdictHolds(world.Current(), name, most)
  {
    hide Run, Calm, VerdictHolds, LagOf, LagAfter, AfterTurns, ReadAsPassed;
    ghost var turns := stepTurns + [endTurn] + graceTurns;
    samples := [];
    NothingPassed(soFar, turns, |stepTurns|, name);
    var lag;
    for i := 0 to |stepTurns|
      invariant |samples| == i && world.Current() == Run(EMPTY, AfterTurns(soFar, turns[..i]))
      invariant ReadAsPassed(samples, soFar, turns, |stepTurns|, name)
    {
      lag := Sample(world, name, stepTurns[i], soFar, turns, i);
      OneMoreReading(samples, lag, soFar, turns, |stepTurns|, name);
      samples := samples + [lag];
    }
    lagAtStepEnd := Sample(world, name, endTurn, soFar, turns, |stepTurns|);
    var i := 0;
    while i < |graceTurns|
      invariant 0 <= i <= |graceTurns| && |samples| == |stepTurns| + i
      invariant world.Current() == Run(EMPTY, AfterTurns(soFar, turns[..|samples| + 1]))
      invariant forall j | |stepTurns| <= j < |samples| :: samples[j] != 0
      invariant ReadAsPassed(samples, soFar, turns, |stepTurns|, name)
    {
      lag := Sample(world, name, graceTurns[i], soFar, turns, |samples| + 1);
      OneMoreReading(samples, lag, soFar, turns, |stepTurns|, name);
      samples := samples + [lag];
      i := i + 1;
      if lag == 0 {
        break;
      }
    }
    maxLag := Largest(samples);
    ghost var all := turns[..|samples| + 1] + [lastTurn];
    assert all[..|samples| + 1] == turns[..|samples| + 1] && all[..|all|] == all;
    lag := Sample(world, name, lastTurn, soFar, all, |samples| + 1);
    trace := AfterTurns(soFar, all);
    TurnsExtend(soFar, all);
    caughtUp := lag == 0;
    forall most: nat | Calm(trace, most) && caughtUp && name in world.groups
      ensures VerdictHolds(world.Current(), name, most)
    {
      JudgedByLast(world.Current(), trace, name, most);
    }
  }

  lemma NothingPassed(soFar: seq<Step>, turns: seq<seq<Step>>, publishing: nat, name: string)
    ensures AfterTurns(soFar, turns[..0]) == soFar && ReadAsPassed([], soFar, turns, publishing, name)
  {
  }

  lemma JudgedByLast(s: System, trace: seq<Step>, name: string, most: nat)
    requires s == Run(EMPTY, trace) && Calm(trace, most) && name in s.groups && LagAfter(trace, name) == 0
    ensures VerdictHolds(s, name, most)
  {
    hide Run, Calm, VerdictHolds, LagOf, LagAfter;
    LagIsRead(trace, name);
    VerdictBoundsLoss(trace, name, most);
  }

  /** `max(samples, default=0)`. */
  method Largest(samples: seq<int>) returns (largest: int)
    ensures samples == [] ==> largest == 0
    ensures samples != [] ==> largest in samples && forall lag | lag in samples :: lag <= largest
  {
    largest := 0;
    for j := 0 to |samples|
      invariant j == 0 ==> largest == 0
      invariant j > 0 ==> largest in samples[..j] && forall lag | lag in samples[..j] :: lag <= largest
    {
      assert samples[..j + 1] == samples[..j] + [samples[j]];
      if j == 0 || samples[j] > largest {
        largest := samples[j];
      }
    }
    assert samples[..|samples|] == samples;
  }
}
