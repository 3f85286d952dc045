/** The silver rebuild of one (symbol, date) partition from its bronze objects: read their lines, drop
    repeated ones, normalize with the live ingestor's code, clear the partition's files, build a table
    under the fixed schema and write one file.

    What a line parses to is an uninterpreted function. A row whose amounts do not fit the schema makes
    the table raise, after the old files are gone.
 */
module Silver {
  import opened Models
  import opened Ingestor
  import opened DeliveryOrder
  import opened Bronze
  import opened BronzeLanding

  // ---------- Dropping repeats ----------

  /** The first occurrence of each line, in order. */
  function Dedup(lines: seq<string>): seq<string> {
    if lines == [] then
      []
    else
      var front, last := lines[..|lines| - 1], lines[|lines| - 1];
      Dedup(front) + if last in front then [] else [last]
  }

  lemma {:induction false} DedupSelects(lines: seq<string>)
    ensures forall line :: line in Dedup(lines) <==> line in lines
    ensures forall line :: multiset(Dedup(lines))[line] <= 1
    ensures |Dedup(lines)| <= |lines|
  {
    if lines != [] {
      var front, last := lines[..|lines| - 1], lines[|lines| - 1];
      assert lines == front + [last];
      DedupSelects(front);
      assert last !in front ==> last !in multiset(Dedup(front));
    }
  }

  /** A repeat anywhere after a first occurrence changes nothing. */
  lemma {:induction false} RepeatIsDropped(before: seq<string>, line: string, after: seq<string>)
    requires line in before
    ensures Dedup(before + [line] + after) == Dedup(before + after)
  {
    if after == [] {
      assert before + [line] + after == before + [line] && before + after == before;
      assert (before + [line])[..|before|] == before;
    } else {
      var front, last := after[..|after| - 1], after[|after| - 1];
      var longer, shorter := before + [line] + after, before + after;
      RepeatIsDropped(before, line, front);
      assert longer[..|longer| - 1] == before + [line] + front;
      assert shorter[..|shorter| - 1] == before + front;
    }
  }

  lemma {:induction false} DistinctLinesStay(lines: seq<string>)
    requires forall line :: multiset(lines)[line] <= 1
    ensures Dedup(lines) == lines
  {
    if lines != [] {
      var front, last := lines[..|lines| - 1], lines[|lines| - 1];
      assert lines == front + [last];
      assert multiset(lines) == multiset(front) + multiset{last};
      assert last in front ==> multiset(front)[last] >= 1;
      assert multiset(lines)[last] <= 1;
      forall line
        ensures multiset(front)[line] <= 1
      {
        assert multiset(lines)[line] <= 1;
      }
      DistinctLinesStay(front);
    }
  }

  // ---------- Normalizing a list of lines ----------

  /** What became of a line's message, and the counters after it. */
  function NormalizeLine(sequences: map<Symbol, nat>, parsed: Parsed): (map<Symbol, nat>, Outcome) {
    match parsed
    case NotJson => (sequences, Rejected)
    case NotAnObject => (sequences, Raised)
    case Message(_, product, quote) => Normalize(sequences, product, quote)
  }

  datatype Progress = Progress(sequences: map<Symbol, nat>, rows: seq<Tick>, failures: nat, raised: bool)

  function NormalizeAll(parse: string -> Parsed, lines: seq<string>): Progress {
    if lines == [] then
      Progress(map[], [], 0, false)
    else
      var p := NormalizeAll(parse, lines[..|lines| - 1]);
      if p.raised then
        p
      else
        var (sequences, outcome) := NormalizeLine(p.sequences, parse(lines[|lines| - 1]));
        match outcome
        case Rejected => p.(failures := p.failures + 1)
        case Raised => p.(raised := true)
        case Accepted(tick) => p.(sequences := sequences, rows := p.rows + [tick])
  }

  lemma {:induction false} RaisedStays(parse: string -> Parsed, lines: seq<string>, i: nat)
    requires i <= |lines| && NormalizeAll(parse, lines[..i]).raised
    ensures NormalizeAll(parse, lines) == NormalizeAll(parse, lines[..i])
  {
    if i == |lines| {
      assert lines[..i] == lines;
    } else {
      assert lines[..|lines| - 1][..i] == lines[..i];
      RaisedStays(parse, lines[..|lines| - 1], i);
    }
  }

  /** Every line that was normalized became a row or a failure, and the rows of each product are
      numbered 1, 2, 3, ... in order: a rejected line consumes no number. */
  lemma {:induction false} RowsAreNumbered(parse: string -> Parsed, lines: seq<string>)
    ensures var p := NormalizeAll(parse, lines);
            && NumberedStream(p.rows) && CountersMatch(p.sequences, p.rows)
            && (!p.raised ==> |p.rows| + p.failures == |lines|)
  {
    hide NumberedStream, CountersMatch;
    if lines == [] {
      NothingNumbered();
    } else {
      var front, last := lines[..|lines| - 1], lines[|lines| - 1];
      RowsAreNumbered(parse, front);
      var p := NormalizeAll(parse, front);
      match parse(last) {
        case Message(_, Some(product), Priced(price, size, time)) =>
          AppendKeepsNumbering(p.sequences, p.rows, product, price, size, time);
        case _ =>
      }
    }
  }

  // ---------- The schema ----------

  /** The amount counted in units of the eighth decimal. */
  function InUnits(x: real): real {
    x * 100_000_000.0
  }

  /** Eighteen digits, eight of them after the point: `decimal128(18, 8)`. */
  predicate FitsColumn(x: real) {
    && InUnits(x).Floor as real == InUnits(x)
    && -1_000_000_000_000_000_000.0 < InUnits(x) < 1_000_000_000_000_000_000.0
  }

  predicate FitsSchema(t: Tick) {
    FitsColumn(t.price) && (t.size.Some? ==> FitsColumn(t.size.value))
  }

  predicate AllFit(rows: seq<Tick>) {
    forall t | t in rows :: FitsSchema(t)
  }

  // ---------- What fits, in digits ----------

  /** How many decimal digits it takes to write the number. */
  function Digits(n: nat): nat {
    if n < 10 then 1 else 1 + Digits(n / 10)
  }

  function Power(k: nat): nat {
    if k == 0 then 1 else 10 * Power(k - 1)
  }

  lemma {:induction false} DigitsBelowPower(n: nat, k: nat)
    requires k >= 1
    ensures Digits(n) <= k <==> n < Power(k)
  {
    if n >= 10 {
      if k >= 2 {
        DigitsBelowPower(n / 10, k - 1);
      } else {
        assert Power(1) == 10;
      }
    } else {
      PowerIsPositive(k - 1);
    }
  }

  lemma {:induction false} PowerIsPositive(k: nat)
    ensures Power(k) >= 1
  {
    if k > 0 {
      PowerIsPositive(k - 1);
    }
  }

  lemma EighteenDigits()
    ensures Power(18) == 1_000_000_000_000_000_000
  {
    assert Power(6) == 1_000_000;
    assert Power(12) == 1_000_000_000_000;
  }

  /** The amount is `n` in the eighth decimal. */
  ghost predicate InEighths(x: real, n: int) {
    x == n as real / 100_000_000.0
  }

  /** An amount that is a multiple of 10^-8 fits exactly when the multiple takes at most eighteen digits, and
      no other amount ever fits. */
  lemma FitsIffDigits(x: real, n: int)
    requires InEighths(x, n)
    ensures FitsColumn(x) <==> Digits(Abs(n)) <= 18
  {
    DigitsBelowPower(Abs(n), 18);
    EighteenDigits();
    assert InUnits(x) == n as real;
    assert (n as real).Floor == n;
    assert n as real < 1_000_000_000_000_000_000.0 <==> n < 1_000_000_000_000_000_000;
  }

  lemma OnlyEighthsFit(x: real)
    ensures FitsColumn(x) ==> exists n: int :: InEighths(x, n)
  {
    if FitsColumn(x) {
      assert InEighths(x, InUnits(x).Floor);
    }
  }

  /** At most ten digits before the point and at most eight after it. */
  ghost predicate Ordinary(x: real) {
    -10_000_000_000.0 < x < 10_000_000_000.0 && exists n: int :: InEighths(x, n)
  }

  lemma FitsIffOrdinary(x: real)
    ensures FitsColumn(x) <==> Ordinary(x)
  {
    OnlyEighthsFit(x);
    if n: int :| InEighths(x, n) {
      FitsIffDigits(x, n);
      DigitsBelowPower(Abs(n), 18);
      EighteenDigits();
      assert n as real == x * 100_000_000.0;
    }
  }

  ghost predicate OrdinaryTick(t: Tick) {
    Ordinary(t.price) && (t.size.Some? ==> Ordinary(t.size.value))
  }

  lemma AllFitIff(rows: seq<Tick>)
    ensures AllFit(rows) <==> forall t | t in rows :: OrdinaryTick(t)
  {
    hide Ordinary, FitsColumn;
    forall t | t in rows
      ensures FitsSchema(t) <==> OrdinaryTick(t)
    {
      FitsIffOrdinary(t.price);
      if t.size.Some? {
        FitsIffOrdinary(t.size.value);
      }
    }
  }

  // ---------- The rebuild ----------

  datatype Result = Result(linesRead: nat, duplicatesDropped: nat, normalizationFailures: nat, rowsWritten: nat)

  /** How a rebuild ends: it returns, a line raises before anything is touched, or the table raises after
      the partition was cleared. */
  datatype Ending =
    | Returned(result: Result)
    | RaisedEarly
    | RaisedLate

  type Partition = (Symbol, string)

  /** The part-files of each partition directory. */
  class SilverStore {
    var files: map<Partition, seq<seq<Tick>>>

    constructor ()
      ensures files == map[]
    {
      files := map[];
    }

    method ClearPartition(partition: Partition)
      modifies this
      ensures files == old(files)[partition := []]
    {
      files := files[partition := []];
    }

    method WriteTable(partition: Partition, rows: seq<Tick>)
      requires partition in files
      modifies this
      ensures files == old(files)[partition := old(files)[partition] + [rows]]
    {
      files := files[partition := files[partition] + [rows]];
    }
  }

  method DropRepeats(rawLines: seq<string>) returns (deduped: seq<string>, dropped: nat)
    ensures deduped == Dedup(rawLines)
    ensures dropped + |deduped| == |rawLines|
  {
    var seen := {};
    deduped, dropped := [], 0;
    for i := 0 to |rawLines|
      invariant forall line :: line in seen <==> line in rawLines[..i]
      invariant deduped == Dedup(rawLines[..i])
      invariant dropped + |deduped| == i
    {
      assert rawLines[..i + 1][..i] == rawLines[..i];
      assert rawLines[..i + 1] == rawLines[..i] + [rawLines[i]];
      if rawLines[i] in seen {
        dropped := dropped + 1;
      } else {
        seen := seen + {rawLines[i]};
        deduped := deduped + [rawLines[i]];
      }
    }
    assert rawLines[..|rawLines|] == rawLines;
  }

  method NormalizeLines(parse: string -> Parsed, lines: seq<string>)
    returns (ticks: seq<Tick>, failures: nat, raised: bool)
    ensures var p := NormalizeAll(parse, lines);
            ticks == p.rows && failures == p.failures && raised == p.raised
  {
    var ingestor := new AsyncIngestor();
    ticks, failures, raised := [], 0, false;
    for i := 0 to |lines|
      invariant NormalizeAll(parse, lines[..i]) == Progress(ingestor.sequences, ticks, failures, false)
      invariant !raised
    {
      assert lines[..i + 1][..i] == lines[..i];
      var outcome;
      match parse(lines[i]) {
        case NotJson => outcome := Rejected;
        case NotAnObject => outcome := Raised;
        case Message(_, product, quote) => outcome := ingestor.NormalizeMessage(product, quote);
      }
      match outcome {
        case Rejected => failures := failures + 1;
        case Raised =>
          raised := true;
          RaisedStays(parse, lines, i + 1);
          return;
        case Accepted(tick) => ticks := ticks + [tick];
      }
    }
    assert lines[..|lines|] == lines;
  }

  method BuildTable(rows: seq<Tick>) returns (raised: bool)
    ensures raised == !AllFit(rows)
    ensures raised <==> exists t | t in rows :: !OrdinaryTick(t)
  {
    hide FitsSchema, OrdinaryTick;
    AllFitIff(rows);
    for i := 0 to |rows|
      invariant AllFit(rows[..i])
    {
      if !FitsSchema(rows[i]) {
        assert rows[i] in rows;
        return true;
      }
      assert rows[..i + 1] == rows[..i] + [rows[i]];
    }
    assert rows[..|rows|] == rows;
    raised := false;
  }

  /** The partition's files after a rebuild that returned. */
  function FileFor(rows: seq<Tick>): seq<seq<Tick>> {
    if rows == [] then [] else [rows]
  }

  datatype Rebuild = Rebuild(partition: Partition, lines: seq<string>)

  function RebuildOne(
      files: map<Partition, seq<seq<Tick>>>, parse: string -> Parsed, r: Rebuild): map<Partition, seq<seq<Tick>>>
  {
    var p := NormalizeAll(parse, Dedup(r.lines));
    if p.raised then files
    else files[r.partition := if AllFit(p.rows) then FileFor(p.rows) else []]
  }

  /** A rebuild that raises early has changed no file; one that raises late has emptied the partition; one
      that returns leaves exactly the partition's rows, in at most one file, whatever was there before. */
  method TransformSymbolDate(
      store: SilverStore, partition: Partition, parse: string -> Parsed, listing: seq<Object>)
    returns (ending: Ending)
    modifies store
    ensures store.files == RebuildOne(old(store.files), parse, Rebuild(partition, ReadAll(listing)))
    ensures var rawLines, p := ReadAll(listing), NormalizeAll(parse, Dedup(ReadAll(listing)));
            && (ending.RaisedEarly? <==> p.raised)
            && (ending.RaisedEarly? ==> store.files == old(store.files))
            && (ending.RaisedLate? ==> store.files == old(store.files)[partition := []])
            && (ending.Returned? ==>
                  store.files == old(store.files)[partition := if p.rows == [] then [] else [p.rows]])
            && (ending.RaisedLate? <==> !p.raised && exists t | t in p.rows :: !OrdinaryTick(t))
            && (ending.Returned? ==>
                  var result := ending.result;
                  && result.rowsWritten == |p.rows|
                  && result.normalizationFailures == p.failures
                  && result.linesRead == |rawLines|
                  && result.linesRead
                     == result.duplicatesDropped + result.normalizationFailures + result.rowsWritten)
  {
    hide Dedup, NormalizeAll, ReadAll, FitsSchema, OrdinaryTick;
    var rawLines := ReadBronzeLines(listing);
    var deduped, dropped := DropRepeats(rawLines);
    RowsAreNumbered(parse, deduped);
    var ticks, failures, raised := NormalizeLines(parse, deduped);
    if raised {
      return RaisedEarly;
    }
    store.ClearPartition(partition);
    if ticks == [] {
      return Returned(Result(|rawLines|, dropped, failures, 0));
    }
    var late := BuildTable(ticks);
    if late {
      return RaisedLate;
    }
    ghost var cleared := store.files;
    store.WriteTable(partition, ticks);
    assert cleared[partition] == [] && [] + [ticks] == [ticks];
    assert store.files == old(store.files)[partition := [ticks]];
    ending := Returned(Result(|rawLines|, dropped, failures, |ticks|));
  }

  /** A rebuild whose lines give only ordinary amounts leaves exactly their rows. */
  lemma OrdinaryRowsAreWritten(files: map<Partition, seq<seq<Tick>>>, parse: string -> Parsed, r: Rebuild)
    requires !NormalizeAll(parse, Dedup(r.lines)).raised
    requires forall t | t in NormalizeAll(parse, Dedup(r.lines)).rows :: OrdinaryTick(t)
    ensures RebuildOne(files, parse, r) == files[r.partition := FileFor(NormalizeAll(parse, Dedup(r.lines)).rows)]
  {
    hide NormalizeAll, Dedup, OrdinaryTick, FitsSchema;
    AllFitIff(NormalizeAll(parse, Dedup(r.lines)).rows);
  }

  // ---------- Any sequence of rebuilds ----------

  function Rebuilt(parse: string -> Parsed, rebuilds: seq<Rebuild>): map<Partition, seq<seq<Tick>>> {
    if rebuilds == [] then
      map[]
    else
      RebuildOne(Rebuilt(parse, rebuilds[..|rebuilds| - 1]), parse, rebuilds[|rebuilds| - 1])
  }

  /** The rows of the partition's last rebuild that returned. */
  function LastRows(parse: string -> Parsed, rebuilds: seq<Rebuild>, partition: Partition): seq<Tick> {
    if rebuilds == [] then
      []
    else
      var last := rebuilds[|rebuilds| - 1];
      var p := NormalizeAll(parse, Dedup(last.lines));
      if last.partition == partition && !p.raised && AllFit(p.rows) then p.rows
      else LastRows(parse, rebuilds[..|rebuilds| - 1], partition)
  }

  /** Since then a rebuild of the partition normalized rows that do not fit the schema. */
  predicate ClearedSince(parse: string -> Parsed, rebuilds: seq<Rebuild>, partition: Partition) {
    if rebuilds == [] then
      false
    else
      var last := rebuilds[|rebuilds| - 1];
      var p := NormalizeAll(parse, Dedup(last.lines));
      if last.partition == partition && !p.raised then !AllFit(p.rows)
      else ClearedSince(parse, rebuilds[..|rebuilds| - 1], partition)
  }

  function FilesOf(files: map<Partition, seq<seq<Tick>>>, partition: Partition): seq<seq<Tick>> {
    if partition in files then files[partition] else []
  }

  lemma {:induction false} PartitionHolds(parse: string -> Parsed, rebuilds: seq<Rebuild>, partition: Partition)
    ensures FilesOf(Rebuilt(parse, rebuilds), partition)
         == if ClearedSince(parse, rebuilds, partition) then [] else FileFor(LastRows(parse, rebuilds, partition))
  {
    hide NormalizeAll, Dedup, AllFit;
    if rebuilds != [] {
      PartitionHolds(parse, rebuilds[..|rebuilds| - 1], partition);
    }
  }

  /** After any sequence of overlapping rebuilds a partition holds at most one file; and it holds exactly
      the rows of its last rebuild that returned if and only if no later one raised after clearing it, or
      there were no rows to lose. */
  lemma {:induction false} OneFilePerPartitionIff(parse: string -> Parsed, rebuilds: seq<Rebuild>, partition: Partition)
    ensures |FilesOf(Rebuilt(parse, rebuilds), partition)| <= 1
    ensures FilesOf(Rebuilt(parse, rebuilds), partition) == FileFor(LastRows(parse, rebuilds, partition))
       <==> !ClearedSince(parse, rebuilds, partition) || LastRows(parse, rebuilds, partition) == []
  {
    hide Rebuilt, LastRows, ClearedSince;
    PartitionHolds(parse, rebuilds, partition);
  }

  /** The losing input: a price with nine decimals in a line that arrives after a good rebuild. The next
      rebuild leaves the partition empty. */
  lemma NinthDecimalLosesPartition(
      parse: string -> Parsed, partition: Partition, good: string, bad: string, kind: string, product: Symbol,
      time: int)
    requires good != bad
    requires parse(good) == Message(kind, Some(product), Priced(1.0, None, time))
    requires parse(bad) == Message(kind, Some(product), Priced(0.123456789, None, time))
    ensures var rebuilds := [Rebuild(partition, [good]), Rebuild(partition, [good, bad])];
            && LastRows(parse, rebuilds, partition) == [Tick(product, 1, 1.0, None, time)]
            && FilesOf(Rebuilt(parse, rebuilds), partition) == []
  {
    hide NormalizeAll, Dedup, AllFit;
    var row, unfit := Tick(product, 1, 1.0, None, time), Tick(product, 2, 0.123456789, None, time);
    var rebuilds := [Rebuild(partition, [good]), Rebuild(partition, [good, bad])];
    assert rebuilds[..1] == [Rebuild(partition, [good])] && rebuilds[..1][..0] == [];
    DistinctLinesStay([good]);
    DistinctLinesStay([good, bad]);
    TwoQuotes(parse, good, bad, kind, product, 1.0, 0.123456789, time);
    OneFits(row, unfit);
    PartitionHolds(parse, rebuilds, partition);
  }

  lemma TwoQuotes(
      parse: string -> Parsed, first: string, second: string, kind: string, product: Symbol, p: real, q: real,
      time: int)
    requires parse(first) == Message(kind, Some(product), Priced(p, None, time))
    requires parse(second) == Message(kind, Some(product), Priced(q, None, time))
    ensures NormalizeAll(parse, [first])
         == Progress(map[product := 1], [Tick(product, 1, p, None, time)], 0, false)
    ensures NormalizeAll(parse, [first, second])
         == Progress(map[product := 2], [Tick(product, 1, p, None, time), Tick(product, 2, q, None, time)], 0, false)
  {
    assert [first, second][..1] == [first] && [first][..0] == [];
  }

  lemma OneFits(row: Tick, unfit: Tick)
    requires row.price == 1.0 && row.size == None && unfit.price == 0.123456789
    ensures AllFit([row]) && !AllFit([row, unfit])
  {
    assert InUnits(1.0) == 100_000_000.0;
    assert InUnits(0.123456789) == 12_345_678.9;
    assert (12_345_678.9 as real).Floor == 12_345_678;
    assert unfit in [row, unfit];
  }

  // ---------- What gold counts ----------

  function RowCountOf(parts: seq<seq<Tick>>): nat {
    if parts == [] then 0 else RowCountOf(parts[..|parts| - 1]) + |parts[|parts| - 1]|
  }

  /** What gold's glob over every part-file counts. */
  function GoldRows(files: map<Partition, seq<seq<Tick>>>, partitions: seq<Partition>): nat {
    if partitions == [] then
      0
    else
      GoldRows(files, partitions[..|partitions| - 1]) + RowCountOf(FilesOf(files, partitions[|partitions| - 1]))
  }

  function LastWritten(parse: string -> Parsed, rebuilds: seq<Rebuild>, partitions: seq<Partition>): nat {
    if partitions == [] then
      0
    else
      LastWritten(parse, rebuilds, partitions[..|partitions| - 1])
      + |LastRows(parse, rebuilds, partitions[|partitions| - 1])|
  }

  lemma OneFileCounts(rows: seq<Tick>)
    ensures RowCountOf(FileFor(rows)) == |rows|
  {
  }

  /** Over any listing of partitions gold never counts more than what the last completed rebuilds wrote,
      and counts exactly that if and only if no partition with rows was cleared since. */
  lemma {:induction false} GoldCountsLastRowsIff(
      parse: string -> Parsed, rebuilds: seq<Rebuild>, partitions: seq<Partition>)
    ensures GoldRows(Rebuilt(parse, rebuilds), partitions) <= LastWritten(parse, rebuilds, partitions)
    ensures GoldRows(Rebuilt(parse, rebuilds), partitions) == LastWritten(parse, rebuilds, partitions)
       <==> forall partition | partition in partitions ::
              !ClearedSince(parse, rebuilds, partition) || LastRows(parse, rebuilds, partition) == []
  {
    hide Rebuilt, LastRows, ClearedSince;
    if partitions != [] {
      var front, last := partitions[..|partitions| - 1], partitions[|partitions| - 1];
      assert partitions == front + [last];
      GoldCountsLastRowsIff(parse, rebuilds, front);
      PartitionHolds(parse, rebuilds, last);
      OneFileCounts(LastRows(parse, rebuilds, last));
    }
  }
}
