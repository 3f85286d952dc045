/** What the reconciler can see of the sequence gaps that the simulator plants.

    The starting point is a symbol whose stored ticks form one contiguous block that contains every
    tick the simulator will observe, in order and without skips. Over any run of plants from there,
    reported runs number at most the logged events, and what is not reported is a deleted prefix.
 */
module PlantedGaps {
  import opened Models
  import opened Frames
  import opened SequenceGaps
  import opened Stores
  import opened Simulation

  ghost function StoredSequences(ticks: seq<Tick>, symbol: Symbol): set<int> {
    set t | t in ticks && t.symbol == symbol :: t.sequence
  }

  function LoggedGaps(planted: seq<Planted>, symbol: Symbol): nat {
    if planted == [] then
      0
    else
      var last := planted[|planted| - 1];
      LoggedGaps(planted[..|planted| - 1], symbol)
      + if last.anomaly == SequenceGap && last.symbol == symbol then 1 else 0
  }

  // ---------- Deleting a stretch below the top adds at most one run ----------

  ghost function RunStarts(stored: set<int>): set<int> {
    set x | x in stored && OpensRun(stored, x)
  }

  ghost function Prevs(gaps: seq<Gap>): set<int> {
    set g | g in gaps :: g.prev
  }

  lemma {:induction false} PrevsAreDistinct(gaps: seq<Gap>)
    requires Ordered(gaps)
    ensures |Prevs(gaps)| == |gaps|
  {
    hide Ordered;
    if gaps == [] {
      assert Prevs(gaps) == {};
    } else {
      var front, last := gaps[..|gaps| - 1], gaps[|gaps| - 1];
      assert gaps == front + [last];
      LastPrevIsNew(front, last);
      PrevsAreDistinct(front);
      assert Prevs(gaps) == Prevs(front) + {last.prev};
    }
  }

  lemma LastPrevIsNew(front: seq<Gap>, last: Gap)
    requires Ordered(front + [last])
    ensures Ordered(front) && last.prev !in Prevs(front)
  {
    var gaps := front + [last];
    assert forall i :: 0 <= i < |front| ==> front[i] == gaps[i];
    forall i, j | 0 <= i < j < |front|
      ensures front[i].prev < front[i].curr <= front[j].prev < front[j].curr
    {
      assert gaps[i].prev < gaps[i].curr <= gaps[j].prev < gaps[j].curr;
    }
    forall g | g in front
      ensures g.prev < last.prev
    {
      var i :| 0 <= i < |front| && front[i] == g;
      assert gaps[i].prev < gaps[i].curr <= gaps[|front|].prev;
    }
  }

  lemma PrevsAreRunStarts(stored: set<int>, gaps: seq<Gap>)
    requires forall g :: g in gaps <==> IsGap(stored, g)
    ensures Prevs(gaps) == RunStarts(stored)
  {
    forall x | x in RunStarts(stored)
      ensures x in Prevs(gaps)
    {
      var above := set y | y in stored && x < y;
      var y :| y in stored && x < y;
      assert y in above;
      var g := Gap(x, Least(above));
      assert forall z :: z in stored && x < z ==> z in above;
      assert IsGap(stored, g);
    }
    forall x | x in Prevs(gaps)
      ensures x in RunStarts(stored)
    {
      var g :| g in gaps && g.prev == x;
      assert IsGap(stored, g);
    }
  }

  lemma CountIsRunStarts(stored: set<int>)
    ensures |GapList(stored)| == |RunStarts(stored)|
  {
    hide GapList;
    GapListIsExact(stored);
    PrevsAreDistinct(GapList(stored));
    PrevsAreRunStarts(stored, GapList(stored));
  }

  lemma DeletionAddsAtMostOneRun(stored: set<int>, first: int, last: int, top: int)
    requires top in stored && last < top
    ensures |GapList(stored - Between(first, last))| <= |GapList(stored)| + 1
  {
    var rest := stored - Between(first, last);
    CountIsRunStarts(stored);
    CountIsRunStarts(rest);
    hide GapList;
    forall x | x in RunStarts(rest)
      ensures x in RunStarts(stored) + {first - 1}
    {
      var y :| y in rest && x < y;
      assert y in stored;
    }
    SubsetSize(RunStarts(rest), RunStarts(stored) + {first - 1});
  }

  lemma {:induction false} SubsetSize(a: set<int>, b: set<int>)
    requires a <= b
    ensures |a| <= |b|
  {
    assert b == a + (b - a);
    assert |a + (b - a)| == |a| + |b - a|;
  }

  /** Two plants that touch are one missing run in the data. */
  lemma AdjacentPlantsMerge(lo: int, hi: int, first: int, middle: int, last: int)
    requires lo < first <= middle < last < hi
    ensures GapList(Between(lo, hi) - Between(first, middle) - Between(middle + 1, last))
         == [Gap(first - 1, last + 1)]
  {
    var stored := Between(lo, hi) - Between(first, middle) - Between(middle + 1, last);
    assert forall x :: x in stored <==> lo <= x < first || last < x <= hi;
    OnlyHole(stored, lo, first - 1, last + 1, hi);
    GapListIsExact(stored);
    OneMember(GapList(stored), Gap(first - 1, last + 1));
  }

  lemma OnlyHole(stored: set<int>, lo: int, prev: int, curr: int, hi: int)
    requires lo <= prev && prev + 1 < curr <= hi
    requires forall x :: x in stored <==> lo <= x <= prev || curr <= x <= hi
    ensures forall g :: IsGap(stored, g) <==> g == Gap(prev, curr)
  {
    forall g | IsGap(stored, g)
      ensures g == Gap(prev, curr)
    {
      assert g.prev + 1 !in stored && g.curr - 1 !in stored;
    }
  }

  lemma OneMember(gaps: seq<Gap>, g: Gap)
    requires Ordered(gaps) && forall h :: h in gaps <==> h == g
    ensures gaps == [g]
  {
    assert g in gaps;
    var a, b := gaps[0], gaps[|gaps| - 1];
    assert a in gaps && b in gaps;
    assert a.prev == b.prev;
    assert |gaps| == 1;
  }

  // ---------- One plant ----------

  /** The remembered sequences are the last ones observed, without skips. */
  ghost predicate Consecutive(seqs: seq<int>, next: int) {
    forall i | 0 <= i < |seqs| :: seqs[i] == next - |seqs| + i
  }

  lemma RememberKeepsConsecutive(seqs: seq<int>, next: int)
    requires Consecutive(seqs, next)
    ensures Consecutive(Remember(seqs, next), next + 1)
    ensures |Remember(seqs, next)| <= |seqs| + 1
    ensures |Remember(seqs, next)| > 0
  {
  }

  /** A plant picks consecutive sequences and never the newest one. */
  lemma ChosenIsAStretchBelowNewest(seqs: seq<int>, next: int, d: Draws)
    requires Consecutive(seqs, next) && |seqs| >= 6 && Possible(d)
    ensures var chosen := ChosenGap(seqs, d);
            && 1 <= |chosen| <= 3
            && Elements(chosen) == Between(chosen[0], chosen[|chosen| - 1])
            && next - |seqs| <= chosen[0] && chosen[|chosen| - 1] < next - 1
  {
    var chosen, start := ChosenGap(seqs, d), GapStart(d, |seqs|);
    forall i | 0 <= i < |chosen|
      ensures chosen[i] == chosen[0] + i
    {
      assert chosen[i] == seqs[start + i];
    }
    forall x | x in Between(chosen[0], chosen[|chosen| - 1])
      ensures x in chosen
    {
      assert chosen[x - chosen[0]] == x;
    }
  }

  lemma ConsecutiveIsSorted(seqs: seq<int>, next: int)
    requires Consecutive(seqs, next)
    ensures SortInts(seqs) == seqs
  {
  }

  lemma KeptSequences(ticks: seq<Tick>, at: Symbol, chosen: set<int>, symbol: Symbol)
    ensures StoredSequences(KeepOthers(ticks, at, chosen), symbol)
         == StoredSequences(ticks, symbol) - if at == symbol then chosen else {}
  {
    var kept := KeepOthers(ticks, at, chosen);
    forall t
      ensures t in kept <==> t in ticks && !(t.symbol == at && t.sequence in chosen)
    {
      KeepSelects(ticks, NotAmong(at, chosen), t);
    }
  }

  lemma NothingDeleted(ticks: seq<Tick>, symbol: Symbol, chosen: set<int>)
    requires Returning(ticks, symbol, chosen) == []
    ensures StoredSequences(ticks, symbol) !! chosen
  {
  }

  // ---------- Every run of plants ----------

  /** Nothing from the newest observed sequence up has been deleted, and reported runs do not
      outnumber logged events. */
  ghost predicate OnlyPlanted(
      stored: set<int>, seqs: seq<int>, logged: nat, lo: int, hi: int, first: int, next: int)
  {
    && lo <= first <= next <= hi + 1
    && Consecutive(seqs, next) && |seqs| <= next - first && (next > first ==> |seqs| > 0)
    && (forall x | x in stored :: lo <= x <= hi)
    && (forall x :: (if next > first then next - 1 else lo) <= x <= hi ==> x in stored)
    && |GapList(stored)| <= logged
  }

  ghost predicate GapInvariant(s: State, symbol: Symbol, lo: int, hi: int, first: int, next: int) {
    OnlyPlanted(StoredSequences(s.ticks, symbol), Get(s.recent, symbol, []),
                LoggedGaps(s.planted, symbol), lo, hi, first, next)
  }

  lemma LogGapOrNot(planted: seq<Planted>, entry: Planted, symbol: Symbol)
    ensures LoggedGaps(planted + [entry], symbol)
         == LoggedGaps(planted, symbol) + if entry.anomaly == SequenceGap && entry.symbol == symbol then 1 else 0
  {
  }

  lemma StretchKeepsOnlyPlanted(
      stored: set<int>, seqs: seq<int>, logged: nat, lo: int, hi: int, first: int, next: int, a: int, b: int)
    requires OnlyPlanted(stored, seqs, logged, lo, hi, first, next)
    requires b < next - 1 && first < next
    ensures OnlyPlanted(stored - Between(a, b), seqs, logged + 1, lo, hi, first, next)
  {
    hide GapList;
    DeletionAddsAtMostOneRun(stored, a, b, next - 1);
  }

  /** What a deletion does to one symbol's stored set and to its count of logged events. */
  lemma DeleteEffect(s: State, at: Symbol, time: int, chosen: set<int>, symbol: Symbol)
    ensures var t := Delete(s, at, time, chosen);
            && t.recent == s.recent
            && (if at == symbol && Returning(s.ticks, at, chosen) != [] then
                  && StoredSequences(t.ticks, symbol) == StoredSequences(s.ticks, symbol) - chosen
                  && LoggedGaps(t.planted, symbol) == LoggedGaps(s.planted, symbol) + 1
                else
                  && StoredSequences(t.ticks, symbol) == StoredSequences(s.ticks, symbol)
                  && LoggedGaps(t.planted, symbol) == LoggedGaps(s.planted, symbol))
  {
    hide LoggedGaps, KeepOthers, StoredSequences;
    KeptSequences(s.ticks, at, chosen, symbol);
    var stored := StoredSequences(s.ticks, symbol);
    assert stored - {} == stored;
    if Returning(s.ticks, at, chosen) == [] {
      NothingDeleted(s.ticks, at, chosen);
      assert at == symbol ==> stored - chosen == stored;
    } else {
      LogGapOrNot(s.planted, Delete(s, at, time, chosen).planted[|s.planted|], symbol);
    }
  }

  lemma PlantKeepsInvariant(
      s: State, at: Symbol, time: int, d: Draws, symbol: Symbol, lo: int, hi: int, first: int, next: int)
    requires GapInvariant(s, symbol, lo, hi, first, next) && Possible(d)
    ensures GapInvariant(PlantGap(s, at, time, d), symbol, lo, hi, first, next)
  {
    hide GapList, StoredSequences, LoggedGaps, Delete, ChosenGap, Returning;
    var seqs := Get(s.recent, at, []);
    if |SortInts(seqs)| >= 6 {
      var chosen := ChosenGap(SortInts(seqs), d);
      DeleteEffect(s, at, time, Elements(chosen), symbol);
      if at == symbol {
        ConsecutiveIsSorted(seqs, next);
        ChosenIsAStretchBelowNewest(seqs, next, d);
        StretchKeepsOnlyPlanted(StoredSequences(s.ticks, symbol), seqs, LoggedGaps(s.planted, symbol),
                                lo, hi, first, next, chosen[0], chosen[|chosen| - 1]);
      }
    }
  }

  /** How many of the events are observations of the symbol. */
  function Observations(events: seq<Event>, symbol: Symbol): nat {
    if events == [] then
      0
    else
      var last := events[|events| - 1];
      Observations(events[..|events| - 1], symbol)
      + if last.Observe? && last.tick.symbol == symbol then 1 else 0
  }

  /** The symbol's ticks arrive in sequence, and nothing is stored meanwhile. */
  ghost predicate InSequence(events: seq<Event>, symbol: Symbol, first: int) {
    forall i | 0 <= i < |events| ::
      && events[i].Observe?
      && (events[i].draws.Some? ==> Possible(events[i].draws.value))
      && (events[i].tick.symbol == symbol ==>
            events[i].tick.sequence == first + Observations(events[..i], symbol))
  }

  lemma TradeKeepsInvariant(
      s: State, tick: Tick, d: Draws, symbol: Symbol, lo: int, hi: int, first: int, next: int)
    requires GapInvariant(s, symbol, lo, hi, first, next) && Possible(d)
    ensures GapInvariant(Trade(s, tick, d), symbol, lo, hi, first, next)
  {
    hide OnlyPlanted, LoggedGaps, StoredSequences, PlantGap;
    var t := Record(Book(s, NewFill(s, tick, d)), tick, d);
    if d.anomaly == Some(UnmatchedFill) || d.anomaly == Some(PositionDrift) {
      LogGapOrNot(s.planted, t.planted[|s.planted|], symbol);
    }
    assert GapInvariant(t, symbol, lo, hi, first, next);
    PlantKeepsInvariant(t, tick.symbol, tick.time, d, symbol, lo, hi, first, next);
  }

  lemma TrackKeepsInvariant(s: State, tick: Tick, symbol: Symbol, lo: int, hi: int, first: int, next: int)
    requires GapInvariant(s, symbol, lo, hi, first, next)
    requires tick.symbol == symbol ==> tick.sequence == next <= hi
    ensures GapInvariant(Track(s, tick), symbol, lo, hi, first, if tick.symbol == symbol then next + 1 else next)
  {
    hide GapList, StoredSequences, LoggedGaps;
    if tick.symbol == symbol {
      RememberKeepsConsecutive(Get(s.recent, symbol, []), next);
    }
  }

  lemma StepKeepsInvariant(s: State, e: Event, symbol: Symbol, lo: int, hi: int, first: int, next: int)
    requires GapInvariant(s, symbol, lo, hi, first, next)
    requires e.Observe? && (e.draws.Some? ==> Possible(e.draws.value))
    requires e.tick.symbol == symbol ==> e.tick.sequence == next <= hi
    ensures GapInvariant(Step(s, e), symbol, lo, hi, first, if e.tick.symbol == symbol then next + 1 else next)
  {
    hide Track, Trade, GapInvariant;
    TrackKeepsInvariant(s, e.tick, symbol, lo, hi, first, next);
    if e.draws.Some? {
      TradeKeepsInvariant(Track(s, e.tick), e.tick, e.draws.value, symbol, lo, hi, first,
                          if e.tick.symbol == symbol then next + 1 else next);
    }
  }

  lemma {:induction false} RunKeepsInvariant(s: State, events: seq<Event>, symbol: Symbol, lo: int, hi: int, first: int)
    requires GapInvariant(s, symbol, lo, hi, first, first) && InSequence(events, symbol, first)
    requires first + Observations(events, symbol) <= hi + 1
    ensures GapInvariant(RunEvents(s, events), symbol, lo, hi, first, first + Observations(events, symbol))
  {
    hide Step, GapInvariant;
    if events != [] {
      var front, last := events[..|events| - 1], events[|events| - 1];
      assert forall i :: 0 <= i < |front| ==> front[i] == events[i] && front[..i] == events[..i];
      RunKeepsInvariant(s, front, symbol, lo, hi, first);
      StepKeepsInvariant(RunEvents(s, front), last, symbol, lo, hi, first, first + Observations(front, symbol));
    }
  }

  /** The symbol's stored sequences are exactly `lo..hi`. */
  ghost predicate StoredBlock(ticks: seq<Tick>, symbol: Symbol, lo: int, hi: int) {
    lo <= hi && StoredSequences(ticks, symbol) == Between(lo, hi)
  }

  lemma BlockHasNoGap(lo: int, hi: int)
    requires lo <= hi
    ensures GapList(Between(lo, hi)) == []
  {
    hide GapList;
    var block := Between(lo, hi);
    forall g
      ensures !IsGap(block, g)
    {
      assert IsGap(block, g) ==> g.prev + 1 in block;
    }
    NoGapNothingReported(block);
  }

  /** Every absent sequence below a stored top is in a reported gap or below all stored ones, and
      counting both accounts for every absent sequence. */
  ghost predicate Accounted(stored: set<int>, lo: int, hi: int) {
    && hi in stored && Greatest(stored) == hi
    && (forall q | lo <= q <= hi && q !in stored :: q < Least(stored) || InReportedGap(stored, q))
    && (hi - lo + 1) - |stored| == TotalMissing(GapList(stored)) + (Least(stored) - lo)
  }

  ghost predicate InReportedGap(stored: set<int>, q: int) {
    exists g :: g in GapList(stored) && g.prev < q < g.curr
  }

  lemma BelowTopIsAccounted(stored: set<int>, lo: int, hi: int)
    requires hi in stored && forall x | x in stored :: lo <= x <= hi
    ensures Accounted(stored, lo, hi)
  {
    hide GapList, TotalMissing, IsGap;
    assert IsGreatest(hi, stored);
    assert Greatest(stored) == hi;
    ReportedMissingIsInterior(stored);
    GapListIsExact(stored);
    forall q | lo <= q <= hi && q !in stored && q >= Least(stored)
      ensures InReportedGap(stored, q)
    {
      var g := HoleLiesInAGap(stored, q);
      assert g in GapList(stored);
    }
  }

  lemma BlockStartsInvariant(s: State, symbol: Symbol, lo: int, hi: int, first: int)
    requires StoredBlock(s.ticks, symbol, lo, hi) && symbol !in s.recent
    requires lo <= first <= hi + 1
    ensures GapInvariant(s, symbol, lo, hi, first, first)
  {
    hide StoredSequences, LoggedGaps, OnlyPlanted, GapList;
    BlockIsOnlyPlanted(lo, hi, first, LoggedGaps(s.planted, symbol));
  }

  lemma BlockIsOnlyPlanted(lo: int, hi: int, first: int, logged: nat)
    requires lo <= hi && lo <= first <= hi + 1
    ensures OnlyPlanted(Between(lo, hi), [], logged, lo, hi, first, first)
  {
    hide GapList;
    BlockHasNoGap(lo, hi);
  }

  lemma InvariantAccounts(s: State, symbol: Symbol, lo: int, hi: int, first: int, next: int)
    requires lo <= hi && GapInvariant(s, symbol, lo, hi, first, next)
    ensures |GapList(StoredSequences(s.ticks, symbol))| <= LoggedGaps(s.planted, symbol)
    ensures Accounted(StoredSequences(s.ticks, symbol), lo, hi)
  {
    hide GapList, StoredSequences, LoggedGaps, Accounted;
    BelowTopIsAccounted(StoredSequences(s.ticks, symbol), lo, hi);
  }

  /** Over any run of plants: reported runs number at most the logged events, the top of the block
      is never deleted, and every deleted sequence is inside a reported gap or in a deleted prefix. */
  lemma PlantedGapsAreReported(
      s: State, events: seq<Event>, symbol: Symbol, lo: int, hi: int, first: int)
    requires lo <= hi && StoredBlock(s.ticks, symbol, lo, hi) && symbol !in s.recent
    requires lo <= first && first + Observations(events, symbol) <= hi + 1
    requires InSequence(events, symbol, first)
    ensures var t := RunEvents(s, events);
            && |GapList(StoredSequences(t.ticks, symbol))| <= LoggedGaps(t.planted, symbol)
            && Accounted(StoredSequences(t.ticks, symbol), lo, hi)
  {
    hide *;
    BlockStartsInvariant(s, symbol, lo, hi, first);
    RunKeepsInvariant(s, events, symbol, lo, hi, first);
    InvariantAccounts(RunEvents(s, events), symbol, lo, hi, first, first + Observations(events, symbol));
  }
}
