/** One normalization for the live feed and for replay.

    Handling a message lands its raw text first and normalizes it afterwards. The main result is that
    replaying the landed objects gives the same ticks, apart from their numbers, as the live run
    published.
 */
module LiveFeed {
  import opened Models
  import opened Frames
  import opened Ndjson
  import opened Partitions
  import opened Ingestor
  import opened Bronze
  import opened BronzeLanding
  import opened Silver

  predicate Relevant(kind: string) {
    kind == "ticker" || kind == "match" || kind == "last_match"
  }

  datatype FeedState = FeedState(writer: Writer, sequences: map<Symbol, nat>, published: seq<Tick>)

  /** Handling one message; the flag says whether it raised. */
  function Handle(
      s: FeedState, parsed: Parsed, raw: string, at: Stamp, now: int, put: Put, maxLines: int): (FeedState, bool) {
    match parsed
    case NotJson => (s, true)
    case NotAnObject => (s, true)
    case Message(kind, product, quote) =>
      if !Relevant(kind) || product.None? then
        (s, false)
      else
        var (writer, failed) := AppendLine(s.writer, PartitionKey(product.value, at), raw, now, maxLines, put);
        if failed then
          (s.(writer := writer), true)
        else
          var (sequences, outcome) := Normalize(s.sequences, product, quote);
          var published := if outcome.Accepted? then s.published + [outcome.tick] else s.published;
          (FeedState(writer, sequences, published), outcome.Raised?)
  }

  class Feed {
    const ingestor: AsyncIngestor
    const writer: BronzeWriter
    var published: seq<Tick>

    ghost function Current(): FeedState
      reads this, ingestor, writer, writer.client
    {
      FeedState(writer.Current(), ingestor.sequences, published)
    }

    constructor (ingestor: AsyncIngestor, writer: BronzeWriter)
      ensures this.ingestor == ingestor && this.writer == writer && published == []
    {
      this.ingestor, this.writer, published := ingestor, writer, [];
    }

    method HandleMessage(parsed: Parsed, raw: string, at: Stamp, now: int, put: Put) returns (raised: bool)
      requires Valid(writer.Current())
      modifies this, ingestor, writer, writer.client
      ensures Valid(writer.Current())
      ensures (Current(), raised) == Handle(old(Current()), parsed, raw, at, now, put, writer.flushMaxLines)
      ensures parsed.Message? && parsed.kind !in {"ticker", "match", "last_match"} ==>
                !raised && Current() == old(Current())
      ensures parsed.Message? && parsed.kind in {"ticker", "match", "last_match"} && parsed.product.Some? ==>
                writer.Current()
                == AppendLine(old(writer.Current()), PartitionKey(parsed.product.value, at), raw, now,
                              writer.flushMaxLines, put).0
    {
      hide AppendLine, Valid, Normalize, PartitionKey;
      match parsed {
        case NotJson => return true;
        case NotAnObject => return true;
        case Message(kind, product, quote) =>
          if !Relevant(kind) {
            return false;
          }
          if product.Some? {
            raised := writer.Append(product.value, raw, at, now, put);
            if raised {
              return;
            }
          } else {
            NoProductIsRejected(ingestor.sequences, quote);
          }
          var outcome := ingestor.NormalizeMessage(product, quote);
          raised := outcome.Raised?;
          if outcome.Accepted? {
            published := published + [outcome.tick];
          }
      }
    }
  }

  lemma NoProductIsRejected(sequences: map<Symbol, nat>, quote: Quote)
    ensures Normalize(sequences, None, quote) == (sequences, Rejected)
  {
  }

  // ---------- Runs of the feed ----------

  /** A message arrives, or the writer is flushed. */
  datatype FeedEvent =
    | Arrive(raw: string, at: Stamp, now: int, put: Put)
    | Age(now: int, puts: string -> Put)
    | Close(puts: string -> Put)

  function FeedStep(s: FeedState, parse: string -> Parsed, limits: Limits, e: FeedEvent): (FeedState, bool) {
    match e
    case Arrive(raw, at, now, put) => Handle(s, parse(raw), raw, at, now, put, limits.maxLines)
    case Age(now, puts) =>
      var (writer, failed) := Call(s.writer, FlushDue(now, puts), limits);
      (s.(writer := writer), failed)
    case Close(puts) =>
      var (writer, failed) := Call(s.writer, FlushAll(puts), limits);
      (s.(writer := writer), failed)
  }

  function FeedRun(parse: string -> Parsed, limits: Limits, feed: seq<FeedEvent>): FeedState {
    if feed == [] then
      FeedState(NEW, map[], [])
    else
      FeedStep(FeedRun(parse, limits, feed[..|feed| - 1]), parse, limits, feed[|feed| - 1]).0
  }

  /** The product a message lands under, if it lands. */
  function Landing(parsed: Parsed): Option<Symbol> {
    if parsed.Message? && Relevant(parsed.kind) then parsed.product else None
  }

  /** What the feed asks of the bronze writer. */
  function WriterCalls(parse: string -> Parsed, feed: seq<FeedEvent>): seq<Event> {
    if feed == [] then
      []
    else
      WriterCalls(parse, feed[..|feed| - 1])
      + match feed[|feed| - 1] {
          case Arrive(raw, at, now, put) =>
            if Landing(parse(raw)).Some? then [Append(Landing(parse(raw)).value, at, raw, now, put)] else []
          case Age(now, puts) => [FlushDue(now, puts)]
          case Close(puts) => [FlushAll(puts)]
        }
  }

  lemma CallOneMore(events: seq<Event>, e: Event, limits: Limits)
    ensures RunCalls(events + [e], limits) == Call(RunCalls(events, limits), e, limits).0
  {
  }

  lemma HandlingLands(s: FeedState, parsed: Parsed, raw: string, at: Stamp, now: int, put: Put, limits: Limits)
    ensures var t := Handle(s, parsed, raw, at, now, put, limits.maxLines).0;
            t.writer == match Landing(parsed)
                        case None => s.writer
                        case Some(product) => Call(s.writer, Append(product, at, raw, now, put), limits).0
  {
  }

  lemma NoCalls(limits: Limits)
    ensures RunCalls([], limits) == NEW
  {
  }

  /** Landing comes first: whatever normalization then does, the writer has been given every relevant
      message that names a product. */
  lemma {:induction false} EveryRelevantMessageLands(parse: string -> Parsed, limits: Limits, feed: seq<FeedEvent>)
    ensures FeedRun(parse, limits, feed).writer == RunCalls(WriterCalls(parse, feed), limits)
  {
    hide Handle, Call, RunCalls;
    if feed == [] {
      NoCalls(limits);
    } else {
      var front, last := feed[..|feed| - 1], feed[|feed| - 1];
      var before := WriterCalls(parse, front);
      EveryRelevantMessageLands(parse, limits, front);
      match last
      case Arrive(raw, at, now, put) =>
        HandlingLands(FeedRun(parse, limits, front), parse(raw), raw, at, now, put, limits);
        if Landing(parse(raw)).Some? {
          CallOneMore(before, Append(Landing(parse(raw)).value, at, raw, now, put), limits);
        } else {
          assert before + [] == before;
        }
      case Age(now, puts) => CallOneMore(before, FlushDue(now, puts), limits);
      case Close(puts) => CallOneMore(before, FlushAll(puts), limits);
    }
  }

  // ---------- Payloads: a tick without its number ----------

  type Payload = (Symbol, real, Option<real>, int)

  function PayloadOf(tick: Tick): Payload {
    (tick.symbol, tick.price, tick.size, tick.time)
  }

  function Payloads(ticks: seq<Tick>): multiset<Payload> {
    if ticks == [] then multiset{} else Payloads(ticks[..|ticks| - 1]) + multiset{PayloadOf(ticks[|ticks| - 1])}
  }

  /** What a message carries, whoever normalizes it and when. */
  function Carried(parsed: Parsed): multiset<Payload> {
    match parsed
    case Message(_, Some(product), Priced(price, size, time)) => multiset{(product, price, size, time)}
    case _ => multiset{}
  }

  predicate Raises(parsed: Parsed) {
    || parsed.NotAnObject?
    || (parsed.Message? && parsed.product.Some? && (parsed.quote.Unreadable? || parsed.quote.Refused?))
  }

  function CarriedBy(parse: string -> Parsed, lines: seq<string>): multiset<Payload> {
    if lines == [] then
      multiset{}
    else
      CarriedBy(parse, lines[..|lines| - 1]) + Carried(parse(lines[|lines| - 1]))
  }

  lemma CarriedAppend(parse: string -> Parsed, lines: seq<string>, line: string)
    ensures CarriedBy(parse, lines + [line]) == CarriedBy(parse, lines) + Carried(parse(line))
  {
    hide Carried;
    assert (lines + [line])[..|lines|] == lines;
  }

  lemma CarriedNone(parse: string -> Parsed)
    ensures CarriedBy(parse, []) == multiset{}
  {
  }

  lemma {:induction false} CarriedConcat(parse: string -> Parsed, a: seq<string>, b: seq<string>)
    ensures CarriedBy(parse, a + b) == CarriedBy(parse, a) + CarriedBy(parse, b)
  {
    hide Carried;
    if b == [] {
      assert a + b == a;
    } else {
      CarriedConcat(parse, a, b[..|b| - 1]);
      assert (a + b)[..|a + b| - 1] == a + b[..|b| - 1];
    }
  }

  lemma CarriedOne(parse: string -> Parsed, line: string)
    ensures CarriedBy(parse, [line]) == Carried(parse(line))
  {
  }

  lemma CarriedWithout(parse: string -> Parsed, lines: seq<string>, i: nat)
    requires i < |lines|
    ensures CarriedBy(parse, lines) == CarriedBy(parse, Without(lines, i)) + Carried(parse(lines[i]))
  {
    hide Carried, CarriedBy;
    var front, one, back := lines[..i], [lines[i]], lines[i + 1..];
    assert lines == front + (one + back);
    CarriedConcat(parse, front, one + back);
    CarriedConcat(parse, one, back);
    CarriedConcat(parse, front, back);
    CarriedOne(parse, lines[i]);
  }

  lemma {:induction false} CarriedPermutes(parse: string -> Parsed, a: seq<string>, b: seq<string>)
    requires Permutation(a, b)
    ensures CarriedBy(parse, a) == CarriedBy(parse, b)
  {
    hide Carried;
    SameMembers(a, b);
    if |a| > 0 {
      var last := a[|a| - 1];
      assert last in b;
      var i :| 0 <= i < |b| && b[i] == last;
      WithoutRemovesOne(b, i);
      WithoutRemovesOne(a, |a| - 1);
      assert Without(a, |a| - 1) == a[..|a| - 1];
      assert multiset(a[..|a| - 1]) == multiset(a) - multiset{last};
      assert multiset(Without(b, i)) == multiset(b) - multiset{last};
      CarriedPermutes(parse, a[..|a| - 1], Without(b, i));
      CarriedWithout(parse, b, i);
    }
  }

  /** Normalizing a list loses no payload and adds none, and raises exactly when a line does. */
  lemma {:induction false} NormalizingKeepsPayloads(parse: string -> Parsed, lines: seq<string>)
    ensures NormalizeAll(parse, lines).raised <==> exists line | line in lines :: Raises(parse(line))
    ensures !NormalizeAll(parse, lines).raised ==> Payloads(NormalizeAll(parse, lines).rows) == CarriedBy(parse, lines)
  {
    if lines != [] {
      var front, last := lines[..|lines| - 1], lines[|lines| - 1];
      assert lines == front + [last];
      NormalizingKeepsPayloads(parse, front);
      var p := NormalizeAll(parse, front);
      NormalizingOneKeepsPayload(p.sequences, parse(last), p.rows);
    }
  }

  lemma NormalizingOneKeepsPayload(sequences: map<Symbol, nat>, parsed: Parsed, rows: seq<Tick>)
    ensures var outcome := NormalizeLine(sequences, parsed).1;
            && (outcome.Raised? <==> Raises(parsed))
            && (outcome.Accepted? ==> Payloads(rows + [outcome.tick]) == Payloads(rows) + Carried(parsed))
            && (outcome.Rejected? ==> Carried(parsed) == multiset{})
  {
    hide Payloads;
    var outcome := NormalizeLine(sequences, parsed).1;
    if outcome.Accepted? {
      OneMorePayload(rows, outcome.tick);
    }
  }

  lemma OneMorePayload(rows: seq<Tick>, tick: Tick)
    ensures Payloads(rows + [tick]) == Payloads(rows) + multiset{PayloadOf(tick)}
  {
    assert (rows + [tick])[..|rows|] == rows;
  }

  // ---------- Replay agrees with live ----------

  predicate ArrivesFor(parse: string -> Parsed, e: FeedEvent, symbol: Symbol, date: string) {
    e.Arrive? && Landing(parse(e.raw)) == Some(symbol) && e.at.date == date
  }

  /** The raw messages of the symbol that arrived on the date, in order. */
  function Arrived(parse: string -> Parsed, feed: seq<FeedEvent>, symbol: Symbol, date: string): seq<string> {
    if feed == [] then
      []
    else
      var last := feed[|feed| - 1];
      Arrived(parse, feed[..|feed| - 1], symbol, date)
      + if ArrivesFor(parse, last, symbol, date) then [last.raw] else []
  }

  /** The ticks that the live run published for them. */
  function LiveTicks(
      parse: string -> Parsed, limits: Limits, feed: seq<FeedEvent>, symbol: Symbol, date: string): seq<Tick> {
    if feed == [] then
      []
    else
      var front, last := feed[..|feed| - 1], feed[|feed| - 1];
      var s := FeedRun(parse, limits, front);
      LiveTicks(parse, limits, front, symbol, date)
      + if ArrivesFor(parse, last, symbol, date) then NewlyPublished(s, FeedStep(s, parse, limits, last).0) else []
  }

  function NewlyPublished(s: FeedState, t: FeedState): seq<Tick> {
    if |s.published| <= |t.published| then t.published[|s.published|..] else []
  }

  /** The messages of those whose handling did not raise. */
  function Handled(
      parse: string -> Parsed, limits: Limits, feed: seq<FeedEvent>, symbol: Symbol, date: string): seq<string>
  {
    if feed == [] then
      []
    else
      var front, last := feed[..|feed| - 1], feed[|feed| - 1];
      Handled(parse, limits, front, symbol, date)
      + if ArrivesFor(parse, last, symbol, date) && !FeedStep(FeedRun(parse, limits, front), parse, limits, last).1
        then [last.raw]
        else []
  }

  /** No message's handling raised. Flushes may fail: they run in a task of their own. */
  ghost predicate NoArrivalRaised(parse: string -> Parsed, limits: Limits, feed: seq<FeedEvent>) {
    forall i | 0 <= i < |feed| && feed[i].Arrive? ::
      !FeedStep(FeedRun(parse, limits, feed[..i]), parse, limits, feed[i]).1
  }

  lemma {:induction false} EveryArrivalHandled(
      parse: string -> Parsed, limits: Limits, feed: seq<FeedEvent>, symbol: Symbol, date: string)
    requires NoArrivalRaised(parse, limits, feed)
    ensures Handled(parse, limits, feed, symbol, date) == Arrived(parse, feed, symbol, date)
  {
    hide FeedRun, FeedStep, ArrivesFor;
    if feed != [] {
      var front, last := feed[..|feed| - 1], feed[|feed| - 1];
      assert forall i | 0 <= i < |front| :: feed[i] == front[i] && feed[..i] == front[..i];
      EveryArrivalHandled(parse, limits, front, symbol, date);
      if ArrivesFor(parse, last, symbol, date) {
        ArrivesIsArrive(parse, last, symbol, date);
        assert feed[|front|] == last && feed[..|front|] == front;
      }
    }
  }

  lemma {:induction false} ArrivedIsPieces(parse: string -> Parsed, feed: seq<FeedEvent>, symbol: Symbol, date: string)
    ensures multiset(AllPieces(Arrived(parse, feed, symbol, date))) == PiecesTo(WriterCalls(parse, feed), symbol, date)
  {
    hide PiecesTo, Landing, Pieces;
    if feed == [] {
      NoPiecesTo(symbol, date);
    } else {
      var front, last := feed[..|feed| - 1], feed[|feed| - 1];
      var before, arrived := WriterCalls(parse, front), Arrived(parse, front, symbol, date);
      ArrivedIsPieces(parse, front, symbol, date);
      assert arrived + [] == arrived && before + [] == before;
      match last
      case Arrive(raw, at, now, put) =>
        OneMorePiece(arrived, raw);
        if Landing(parse(raw)).Some? {
          PiecesOneMore(before, Append(Landing(parse(raw)).value, at, raw, now, put), symbol, date);
        }
      case Age(now, puts) => PiecesOneMore(before, FlushDue(now, puts), symbol, date);
      case Close(puts) => PiecesOneMore(before, FlushAll(puts), symbol, date);
    }
  }

  lemma NoPiecesTo(symbol: Symbol, date: string)
    ensures PiecesTo([], symbol, date) == multiset{} && AllPieces([]) == []
  {
  }

  lemma OneMorePiece(lines: seq<string>, line: string)
    ensures AllPieces(lines + [line]) == AllPieces(lines) + Pieces(line)
  {
    hide Pieces;
    PiecesConcat(lines, [line]);
    assert [line][1..] == [] && AllPieces([]) == [];
    assert AllPieces([line]) == Pieces(line) + [] == Pieces(line);
  }

  lemma PiecesOneMore(events: seq<Event>, e: Event, symbol: Symbol, date: string)
    ensures PiecesTo(events + [e], symbol, date)
         == PiecesTo(events, symbol, date)
            + if e.Append? && e.symbol == symbol && e.at.date == date then multiset(Pieces(e.line)) else multiset{}
  {
    hide Pieces;
    assert (events + [e])[..|events|] == events;
  }

  /** What handling one message of a product publishes: nothing if it raises, and otherwise the tick with
      what the message carries. */
  lemma HandlingOne(s: FeedState, parsed: Parsed, raw: string, at: Stamp, now: int, put: Put, maxLines: int)
    requires Landing(parsed).Some?
    ensures var (t, raised) := Handle(s, parsed, raw, at, now, put, maxLines);
            if raised then
              t.published == s.published
            else
              && !Raises(parsed)
              && s.published <= t.published && |t.published| <= |s.published| + 1
              && Carried(parsed)
                 == (if t.published == s.published then multiset{}
                     else multiset{PayloadOf(t.published[|s.published|])})
  {
    hide AppendLine, PartitionKey, NextSequence;
  }

  lemma HandlingPublishes(
      s: FeedState, parse: string -> Parsed, limits: Limits, e: FeedEvent, symbol: Symbol, date: string,
      ticks: seq<Tick>)
    requires ArrivesFor(parse, e, symbol, date)
    ensures var (t, raised) := FeedStep(s, parse, limits, e);
            if raised then
              NewlyPublished(s, t) == []
            else
              !Raises(parse(e.raw))
              && Payloads(ticks + NewlyPublished(s, t)) == Payloads(ticks) + Carried(parse(e.raw))
  {
    hide Handle, Carried, Raises, PayloadOf;
    ArrivesIsArrive(parse, e, symbol, date);
    HandlingOne(s, parse(e.raw), e.raw, e.at, e.now, e.put, limits.maxLines);
    var added := NewlyPublished(s, FeedStep(s, parse, limits, e).0);
    if added == [] {
      assert ticks + added == ticks;
    } else {
      assert added == [added[0]];
      assert (ticks + added)[..|ticks|] == ticks;
    }
  }

  /** The live run publishes exactly the payloads of the messages whose handling did not raise. */
  lemma {:induction false} LivePublishesWhatWasHandled(
      parse: string -> Parsed, limits: Limits, feed: seq<FeedEvent>, symbol: Symbol, date: string)
    ensures Payloads(LiveTicks(parse, limits, feed, symbol, date))
         == CarriedBy(parse, Handled(parse, limits, feed, symbol, date))
    ensures forall line | line in Handled(parse, limits, feed, symbol, date) :: !Raises(parse(line))
  {
    hide FeedRun, FeedStep, Carried, Raises, ArrivesFor, NewlyPublished, Payloads;
    if feed == [] {
      NoPayloads();
    } else {
      var front, last := feed[..|feed| - 1], feed[|feed| - 1];
      LivePublishesWhatWasHandled(parse, limits, front, symbol, date);
      var ticks, lines := LiveTicks(parse, limits, front, symbol, date), Handled(parse, limits, front, symbol, date);
      assert ticks + [] == ticks && lines + [] == lines;
      if ArrivesFor(parse, last, symbol, date) {
        HandlingPublishes(FeedRun(parse, limits, front), parse, limits, last, symbol, date, ticks);
        ArrivesIsArrive(parse, last, symbol, date);
        CarriedAppend(parse, lines, last.raw);
      }
    }
  }

  lemma NoPayloads()
    ensures Payloads([]) == multiset{}
  {
  }

  lemma ArrivesIsArrive(parse: string -> Parsed, e: FeedEvent, symbol: Symbol, date: string)
    requires ArrivesFor(parse, e, symbol, date)
    ensures e.Arrive?
  {
  }

  lemma LosslessLines(lines: seq<string>, appended: multiset<string>)
    requires Lossless(lines, appended, false)
    ensures forall line :: line in lines <==> line in appended
  {
  }

  lemma SameOnce(a: seq<string>, b: seq<string>)
    requires forall line :: line in a <==> line in b
    requires forall line :: multiset(a)[line] <= 1 && multiset(b)[line] <= 1
    ensures Permutation(a, b)
  {
    forall line
      ensures multiset(a)[line] == multiset(b)[line]
    {
      assert line in multiset(a) <==> line in a;
      assert line in multiset(b) <==> line in b;
    }
  }

  /** Replay, with nothing assumed about failures: over any run of the feed that left nothing buffered,
      whatever appends, age flushes and puts failed and in whatever order objects are listed, a rebuild
      normalizes the distinct pieces of everything that arrived for the symbol and date; it raises
      exactly when one of them does. */
  lemma ReplayIsWhatArrived(
      parse: string -> Parsed, limits: Limits, feed: seq<FeedEvent>, symbol: Symbol, date: string, listing: seq<Object>)
    requires Addressed(WriterCalls(parse, feed)) && '/' !in symbol && '/' !in date
    requires forall p :: Buffer(FeedRun(parse, limits, feed).writer.buffers, p) == []
    requires Permutation(listing, Selected(FeedRun(parse, limits, feed).writer.bucket, SilverPrefix(symbol, date)))
    ensures var replay := NormalizeAll(parse, Dedup(ReadAll(listing)));
            var pieces := Dedup(AllPieces(Arrived(parse, feed, symbol, date)));
            && (replay.raised <==> exists line | line in pieces :: Raises(parse(line)))
            && (!replay.raised ==> Payloads(replay.rows) == CarriedBy(parse, pieces))
  {
    hide *;
    var events, read := WriterCalls(parse, feed), ReadAll(listing);
    var all := AllPieces(Arrived(parse, feed, symbol, date));
    EveryRelevantMessageLands(parse, limits, feed);
    ArrivedIsPieces(parse, feed, symbol, date);
    LandingIsPieces(events, limits, symbol, date, listing, false);
    LosslessLines(read, PiecesTo(events, symbol, date));
    assert forall line :: line in all <==> line in PiecesTo(events, symbol, date);
    DedupSelects(read);
    DedupSelects(all);
    SameOnce(Dedup(read), Dedup(all));
    CarriedPermutes(parse, Dedup(read), Dedup(all));
    NormalizingKeepsPayloads(parse, Dedup(read));
  }

  // ---------- Repeated texts ----------

  /** The lines that a deduplication drops. */
  function Repeats(lines: seq<string>): seq<string> {
    if lines == [] then
      []
    else
      var front, last := lines[..|lines| - 1], lines[|lines| - 1];
      Repeats(front) + if last in front then [last] else []
  }

  lemma {:induction false} RepeatsSelect(lines: seq<string>, line: string)
    ensures line in Repeats(lines) <==> multiset(lines)[line] >= 2
  {
    if lines != [] {
      var front, last := lines[..|lines| - 1], lines[|lines| - 1];
      assert lines == front + [last];
      RepeatsSelect(front, line);
      assert last in front <==> multiset(front)[last] >= 1;
    }
  }

  lemma {:induction false} RepeatsAreTheRest(parse: string -> Parsed, lines: seq<string>)
    ensures CarriedBy(parse, lines) == CarriedBy(parse, Dedup(lines)) + CarriedBy(parse, Repeats(lines))
  {
    hide Carried, CarriedBy;
    if lines == [] {
      CarriedNone(parse);
    } else {
      var front, last := lines[..|lines| - 1], lines[|lines| - 1];
      var kept, dropped := Dedup(front), Repeats(front);
      assert front + [last] == lines && kept + [] == kept && dropped + [] == dropped;
      RepeatsAreTheRest(parse, front);
      CarriedAppend(parse, front, last);
      CarriedAppend(parse, kept, last);
      CarriedAppend(parse, dropped, last);
    }
  }

  lemma {:induction false} NothingCarriedIff(parse: string -> Parsed, lines: seq<string>)
    ensures CarriedBy(parse, lines) == multiset{} <==> forall line | line in lines :: Carried(parse(line)) == multiset{}
  {
    hide Carried;
    if lines != [] {
      var front, last := lines[..|lines| - 1], lines[|lines| - 1];
      assert lines == front + [last];
      NothingCarriedIff(parse, front);
      SumIsEmptyIff(CarriedBy(parse, front), Carried(parse(last)));
    }
  }

  lemma SumIsEmptyIff<T>(a: multiset<T>, b: multiset<T>)
    ensures a + b == multiset{} <==> a == multiset{} && b == multiset{}
  {
    assert |a + b| == |a| + |b|;
  }

  lemma AddsNothingIff<T>(a: multiset<T>, b: multiset<T>)
    ensures a == a + b <==> b == multiset{}
  {
    assert |a + b| == |a| + |b|;
  }

  /** No text that carries a payload arrived twice. */
  ghost predicate NoPayloadRepeats(parse: string -> Parsed, lines: seq<string>) {
    forall line | multiset(lines)[line] >= 2 :: Carried(parse(line)) == multiset{}
  }

  lemma DistinctCarryAllIff(parse: string -> Parsed, lines: seq<string>)
    ensures CarriedBy(parse, Dedup(lines)) == CarriedBy(parse, lines) <==> NoPayloadRepeats(parse, lines)
  {
    hide Carried, CarriedBy, Dedup, Repeats;
    RepeatsAreTheRest(parse, lines);
    NothingCarriedIff(parse, Repeats(lines));
    AddsNothingIff(CarriedBy(parse, Dedup(lines)), CarriedBy(parse, Repeats(lines)));
    forall line
      ensures line in Repeats(lines) <==> multiset(lines)[line] >= 2
    {
      RepeatsSelect(lines, line);
    }
  }

  // ---------- When replay agrees with live ----------

  lemma {:induction false} CarriedSplits(parse: string -> Parsed, lines: seq<string>, keep: string -> bool)
    ensures CarriedBy(parse, lines)
         == CarriedBy(parse, Keep(lines, keep)) + CarriedBy(parse, Keep(lines, Other(keep)))
  {
    hide Carried, CarriedBy;
    if lines == [] {
      CarriedNone(parse);
    } else {
      var front, last := lines[..|lines| - 1], lines[|lines| - 1];
      var kept, rest := Keep(front, keep), Keep(front, Other(keep));
      assert front + [last] == lines && kept + [] == kept && rest + [] == rest;
      CarriedSplits(parse, front, keep);
      CarriedAppend(parse, front, last);
      CarriedAppend(parse, kept, last);
      CarriedAppend(parse, rest, last);
    }
  }

  function Among(lines: seq<string>): string -> bool {
    (line: string) => line in lines
  }

  function Other(keep: string -> bool): string -> bool {
    (line: string) => !keep(line)
  }

  /** The texts that a rebuild reads and the live run did not handle: torn pieces, and messages whose
      handling raised. */
  function OnlyReplayed(arrived: seq<string>, handled: seq<string>): seq<string> {
    Keep(Dedup(AllPieces(arrived)), Other(Among(handled)))
  }

  /** The texts that the live run handled beyond what a rebuild reads: those that are not read back whole,
      and repeats. */
  function OnlyLive(arrived: seq<string>, handled: seq<string>): seq<string> {
    Keep(Dedup(handled), Other(Among(AllPieces(arrived)))) + Repeats(handled)
  }

  lemma CommonTexts(a: seq<string>, b: seq<string>)
    ensures Permutation(Keep(Dedup(a), Among(b)), Keep(Dedup(b), Among(a)))
  {
    hide Keep, Dedup;
    DedupSelects(a);
    DedupSelects(b);
    forall line
      ensures multiset(Keep(Dedup(a), Among(b)))[line] == multiset(Keep(Dedup(b), Among(a)))[line]
    {
      KeepCounts(Dedup(a), Among(b), line);
      KeepCounts(Dedup(b), Among(a), line);
      assert line in Dedup(a) <==> line in multiset(Dedup(a));
      assert line in Dedup(b) <==> line in multiset(Dedup(b));
    }
  }

  lemma CarriedDifference(parse: string -> Parsed, arrived: seq<string>, handled: seq<string>)
    ensures CarriedBy(parse, Dedup(AllPieces(arrived))) == CarriedBy(parse, handled)
       <==> CarriedBy(parse, OnlyReplayed(arrived, handled)) == CarriedBy(parse, OnlyLive(arrived, handled))
  {
    hide Carried, CarriedBy, Dedup, Repeats, Keep, AllPieces;
    var pieces := AllPieces(arrived);
    RepeatsAreTheRest(parse, handled);
    CarriedSplits(parse, Dedup(pieces), Among(handled));
    CarriedSplits(parse, Dedup(handled), Among(pieces));
    CommonTexts(pieces, handled);
    CarriedPermutes(parse, Keep(Dedup(pieces), Among(handled)), Keep(Dedup(handled), Among(pieces)));
    CarriedConcat(parse, Keep(Dedup(handled), Other(Among(pieces))), Repeats(handled));
    SameWithoutCommon(CarriedBy(parse, Keep(Dedup(pieces), Among(handled))),
                      CarriedBy(parse, OnlyReplayed(arrived, handled)), CarriedBy(parse, OnlyLive(arrived, handled)));
  }

  lemma SameWithoutCommon<T>(common: multiset<T>, a: multiset<T>, b: multiset<T>)
    ensures common + a == common + b <==> a == b
  {
    assert common + a - common == a && common + b - common == b;
  }

  /** The Kappa promise, exactly, whatever appends, flushes and puts failed and whatever the texts hold:
      rebuilding from bronze returns with the payloads that the live run published, each as often, if and
      only if nothing that is read raises and what only the rebuild reads carries the same as what only
      the live run handled. */
  lemma ReplayAgreesWithLiveIff(
      parse: string -> Parsed, limits: Limits, feed: seq<FeedEvent>, symbol: Symbol, date: string, listing: seq<Object>)
    requires Addressed(WriterCalls(parse, feed)) && '/' !in symbol && '/' !in date
    requires forall p :: Buffer(FeedRun(parse, limits, feed).writer.buffers, p) == []
    requires Permutation(listing, Selected(FeedRun(parse, limits, feed).writer.bucket, SilverPrefix(symbol, date)))
    ensures var replay := NormalizeAll(parse, Dedup(ReadAll(listing)));
            var arrived := Arrived(parse, feed, symbol, date);
            var handled := Handled(parse, limits, feed, symbol, date);
            !replay.raised && Payloads(replay.rows) == Payloads(LiveTicks(parse, limits, feed, symbol, date))
            <==> (forall line | line in AllPieces(arrived) :: !Raises(parse(line)))
                 && CarriedBy(parse, OnlyReplayed(arrived, handled)) == CarriedBy(parse, OnlyLive(arrived, handled))
  {
    hide *;
    var arrived, handled := Arrived(parse, feed, symbol, date), Handled(parse, limits, feed, symbol, date);
    ReplayIsWhatArrived(parse, limits, feed, symbol, date, listing);
    LivePublishesWhatWasHandled(parse, limits, feed, symbol, date);
    DedupSelects(AllPieces(arrived));
    CarriedDifference(parse, arrived, handled);
  }

  /** No two texts carry the same payload. */
  ghost predicate TextsTell(parse: string -> Parsed, lines: seq<string>) {
    forall a, b | a in lines && b in lines && Carried(parse(a)) == Carried(parse(b)) != multiset{} :: a == b
  }

  lemma {:induction false} CarriedMember(parse: string -> Parsed, lines: seq<string>, payload: Payload)
    ensures payload in CarriedBy(parse, lines) <==> exists line :: line in lines && payload in Carried(parse(line))
  {
    hide Carried;
    if lines != [] {
      var front, last := lines[..|lines| - 1], lines[|lines| - 1];
      assert lines == front + [last];
      CarriedMember(parse, front, payload);
    }
  }

  lemma CarriesOne(parsed: Parsed, other: Parsed, payload: Payload)
    requires payload in Carried(parsed) && payload in Carried(other)
    ensures Carried(parsed) == Carried(other) != multiset{}
  {
  }

  lemma TellingTextsShareNothing(parse: string -> Parsed, a: seq<string>, b: seq<string>)
    requires TextsTell(parse, a + b) && forall line | line in a :: line !in b
    requires CarriedBy(parse, a) == CarriedBy(parse, b)
    ensures CarriedBy(parse, a) == multiset{}
  {
    hide Carried, CarriedBy;
    forall payload
      ensures payload !in CarriedBy(parse, a)
    {
      CarriedMember(parse, a, payload);
      CarriedMember(parse, b, payload);
      assert forall line | line in a || line in b :: line in a + b;
      if payload in CarriedBy(parse, a) {
        var x :| x in a && payload in Carried(parse(x));
        var y :| y in b && payload in Carried(parse(y));
        CarriesOne(parse(x), parse(y), payload);
        assert false;
      }
    }
  }

  ghost predicate Carrying(parse: string -> Parsed, line: string) {
    Carried(parse(line)) != multiset{}
  }

  /** When no two texts carry the same payload, they agree if and only if nothing that is read raises,
      every carrying text that is read was handled, every carrying text that was handled is read back
      whole, and none was handled twice. */
  lemma TellingTextsAgreeIff(
      parse: string -> Parsed, limits: Limits, feed: seq<FeedEvent>, symbol: Symbol, date: string, listing: seq<Object>)
    requires Addressed(WriterCalls(parse, feed)) && '/' !in symbol && '/' !in date
    requires forall p :: Buffer(FeedRun(parse, limits, feed).writer.buffers, p) == []
    requires Permutation(listing, Selected(FeedRun(parse, limits, feed).writer.bucket, SilverPrefix(symbol, date)))
    requires TextsTell(parse, AllPieces(Arrived(parse, feed, symbol, date))
                              + Handled(parse, limits, feed, symbol, date))
    ensures var replay := NormalizeAll(parse, Dedup(ReadAll(listing)));
            var pieces := AllPieces(Arrived(parse, feed, symbol, date));
            var handled := Handled(parse, limits, feed, symbol, date);
            !replay.raised && Payloads(replay.rows) == Payloads(LiveTicks(parse, limits, feed, symbol, date))
            <==> (forall line | line in pieces :: !Raises(parse(line)))
                 && (forall line | Carrying(parse, line) :: line in pieces <==> line in handled)
                 && NoPayloadRepeats(parse, handled)
  {
    hide *;
    var arrived, handled := Arrived(parse, feed, symbol, date), Handled(parse, limits, feed, symbol, date);
    ReplayAgreesWithLiveIff(parse, limits, feed, symbol, date, listing);
    TellingDifference(parse, arrived, handled);
  }

  lemma TellingDifference(parse: string -> Parsed, arrived: seq<string>, handled: seq<string>)
    requires TextsTell(parse, AllPieces(arrived) + handled)
    ensures CarriedBy(parse, OnlyReplayed(arrived, handled)) == CarriedBy(parse, OnlyLive(arrived, handled))
       <==> (forall line | Carrying(parse, line) :: line in AllPieces(arrived) <==> line in handled)
            && NoPayloadRepeats(parse, handled)
  {
    hide Carried, CarriedBy, Dedup, Repeats, Keep, AllPieces;
    var pieces, a, b := AllPieces(arrived), OnlyReplayed(arrived, handled), OnlyLive(arrived, handled);
    forall line
      ensures line in a <==> line in pieces && line !in handled
      ensures line in b <==> (line in handled && line !in pieces) || multiset(handled)[line] >= 2
    {
      KeepSelects(Dedup(pieces), Other(Among(handled)), line);
      KeepSelects(Dedup(handled), Other(Among(pieces)), line);
      DedupSelects(pieces);
      DedupSelects(handled);
      RepeatsSelect(handled, line);
    }
    assert forall line :: multiset(handled)[line] >= 2 ==> line in handled;
    assert TextsTell(parse, a + b);
    if CarriedBy(parse, a) == CarriedBy(parse, b) {
      TellingTextsShareNothing(parse, a, b);
    }
    NothingCarriedIff(parse, a);
    NothingCarriedIff(parse, b);
  }

  /** When no message's handling raised and every text survives the round trip, whatever flushes failed,
      even after their object had landed: they agree if and only if no text that carries a payload
      arrived twice. */
  lemma UnraisedFeedAgreesIff(
      parse: string -> Parsed, limits: Limits, feed: seq<FeedEvent>, symbol: Symbol, date: string, listing: seq<Object>)
    requires NoArrivalRaised(parse, limits, feed)
    requires Addressed(WriterCalls(parse, feed)) && '/' !in symbol && '/' !in date
    requires forall line | line in Arrived(parse, feed, symbol, date) :: Survives(line)
    requires forall p :: Buffer(FeedRun(parse, limits, feed).writer.buffers, p) == []
    requires Permutation(listing, Selected(FeedRun(parse, limits, feed).writer.bucket, SilverPrefix(symbol, date)))
    ensures var replay := NormalizeAll(parse, Dedup(ReadAll(listing)));
            && !replay.raised
            && (Payloads(replay.rows) == Payloads(LiveTicks(parse, limits, feed, symbol, date))
                <==> NoPayloadRepeats(parse, Arrived(parse, feed, symbol, date)))
  {
    hide *;
    var arrived := Arrived(parse, feed, symbol, date);
    ReplayIsWhatArrived(parse, limits, feed, symbol, date, listing);
    SurvivorsArePieces(arrived);
    EveryArrivalHandled(parse, limits, feed, symbol, date);
    LivePublishesWhatWasHandled(parse, limits, feed, symbol, date);
    DedupSelects(arrived);
    DistinctCarryAllIff(parse, arrived);
  }

  // ---------- Two feeds on which they disagree ----------

  lemma {:induction false} GoodPutsReturn(s: Writer, order: seq<string>, puts: string -> Put)
    requires forall p :: puts(p).outcome == PutOutcome.Stored
    ensures !FlushEach(s, order, puts).1
    decreases order
  {
    if order != [] {
      GoodPutsReturn(FlushOne(s, order[0], puts(order[0])).0, order[1..], puts);
    }
  }

  /** Closing with good puts leaves nothing buffered. */
  lemma ClosedFeedIsEmpty(parse: string -> Parsed, limits: Limits, feed: seq<FeedEvent>, puts: string -> Put)
    requires forall p :: puts(p).outcome == PutOutcome.Stored
    ensures forall p :: Buffer(FeedRun(parse, limits, feed + [Close(puts)]).writer.buffers, p) == []
  {
    hide FlushEach, Handle;
    var calls := WriterCalls(parse, feed);
    assert (feed + [Close(puts)])[..|feed|] == feed;
    EveryRelevantMessageLands(parse, limits, feed);
    EveryRelevantMessageLands(parse, limits, feed + [Close(puts)]);
    assert WriterCalls(parse, feed + [Close(puts)]) == calls + [FlushAll(puts)];
    GoodPutsReturn(RunCalls(calls, limits), RunCalls(calls, limits).partitions, puts);
    FlushAllLeavesNothing(calls, limits, puts);
  }

  /** What the two texts below are: a relevant message with a price. */
  ghost predicate IsQuote(parsed: Parsed, payload: Payload) {
    && parsed.Message? && Relevant(parsed.kind) && parsed.product == Some(payload.0)
    && parsed.quote == Priced(payload.1, payload.2, payload.3)
  }

  /** A text that arrives twice, with room in the buffer and every put good, is published twice and
      replayed once. */
  lemma RepeatedTextIsReplayedOnce(
      parse: string -> Parsed, limits: Limits, raw: string, payload: Payload, at: Stamp, now: int, put: Put,
      puts: string -> Put, listing: seq<Object>)
    requires limits.maxLines >= 3 && IsStamp(at) && '/' !in payload.0 && '/' !in at.date
    requires Survives(raw) && IsQuote(parse(raw), payload)
    requires forall p :: puts(p).outcome == PutOutcome.Stored
    requires var feed := [Arrive(raw, at, now, put), Arrive(raw, at, now, put), Close(puts)];
             Permutation(listing,
                         Selected(FeedRun(parse, limits, feed).writer.bucket, SilverPrefix(payload.0, at.date)))
    ensures var feed := [Arrive(raw, at, now, put), Arrive(raw, at, now, put), Close(puts)];
            && Payloads(LiveTicks(parse, limits, feed, payload.0, at.date)) == multiset{payload, payload}
            && !NormalizeAll(parse, Dedup(ReadAll(listing))).raised
            && Payloads(NormalizeAll(parse, Dedup(ReadAll(listing))).rows) == multiset{payload}
  {
    hide FeedRun, LiveTicks, Payloads, NormalizeAll, Dedup, ReadAll, Selected, SilverPrefix, Survives, Addressed;
    hide AllPieces;
    var arrive, symbol, date := Arrive(raw, at, now, put), payload.0, at.date;
    var feed := [arrive, arrive, Close(puts)];
    assert feed == [arrive, arrive] + [Close(puts)];
    ClosedFeedIsEmpty(parse, limits, [arrive, arrive], puts);
    TwoQuietArrivals(parse, limits, arrive, puts, payload);
    SurvivorsArePieces([raw, raw]);
    ReplayIsWhatArrived(parse, limits, feed, symbol, date, listing);
    LivePublishesWhatWasHandled(parse, limits, feed, symbol, date);
    OnceAndTwice(parse, raw, payload);
  }

  lemma OnceAndTwice(parse: string -> Parsed, raw: string, payload: Payload)
    requires IsQuote(parse(raw), payload)
    ensures Dedup([raw, raw]) == [raw] == Dedup([raw]) && !Raises(parse(raw))
    ensures CarriedBy(parse, [raw]) == multiset{payload} && CarriedBy(parse, [raw, raw]) == multiset{payload, payload}
  {
    assert [raw, raw][..1] == [raw] && [raw][..0] == [];
    assert Dedup([raw]) == [raw];
    assert Dedup([raw, raw]) == Dedup([raw]) + [];
  }

  /** An arrival that leaves room in its buffer does not raise. */
  lemma QuietArrival(s: FeedState, parsed: Parsed, raw: string, at: Stamp, now: int, put: Put, maxLines: int,
                     payload: Payload)
    requires IsQuote(parsed, payload) && |Buffer(s.writer.buffers, PartitionKey(payload.0, at))| + 1 < maxLines
    ensures var (t, raised) := Handle(s, parsed, raw, at, now, put, maxLines);
            && !raised
            && |Buffer(t.writer.buffers, PartitionKey(payload.0, at))|
               == |Buffer(s.writer.buffers, PartitionKey(payload.0, at))| + 1
  {
    hide PartitionKey;
  }

  lemma FeedOneMore(
      parse: string -> Parsed, limits: Limits, feed: seq<FeedEvent>, e: FeedEvent, symbol: Symbol, date: string)
    ensures FeedRun(parse, limits, feed + [e]) == FeedStep(FeedRun(parse, limits, feed), parse, limits, e).0
    ensures Arrived(parse, feed + [e], symbol, date)
         == Arrived(parse, feed, symbol, date) + if ArrivesFor(parse, e, symbol, date) then [e.raw] else []
    ensures Handled(parse, limits, feed + [e], symbol, date)
         == Handled(parse, limits, feed, symbol, date)
            + if ArrivesFor(parse, e, symbol, date) && !FeedStep(FeedRun(parse, limits, feed), parse, limits, e).1
              then [e.raw]
              else []
  {
    hide FeedStep, ArrivesFor;
    assert (feed + [e])[..|feed|] == feed;
  }

  lemma NothingArrived(parse: string -> Parsed, limits: Limits, symbol: Symbol, date: string)
    ensures FeedRun(parse, limits, []) == FeedState(NEW, map[], [])
    ensures Arrived(parse, [], symbol, date) == [] == Handled(parse, limits, [], symbol, date)
  {
  }

  lemma {:induction false} CallsAreAddressed(parse: string -> Parsed, feed: seq<FeedEvent>, payload: Payload)
    requires '/' !in payload.0
    requires forall e | e in feed && e.Arrive? :: IsStamp(e.at) && IsQuote(parse(e.raw), payload)
    ensures Addressed(WriterCalls(parse, feed))
  {
    if feed != [] {
      assert feed[|feed| - 1] in feed;
      CallsAreAddressed(parse, feed[..|feed| - 1], payload);
    }
  }

  lemma TwoQuietArrivals(
      parse: string -> Parsed, limits: Limits, e: FeedEvent, puts: string -> Put, payload: Payload)
    requires e.Arrive? && limits.maxLines >= 3 && IsStamp(e.at) && '/' !in payload.0 && IsQuote(parse(e.raw), payload)
    ensures var feed := [e, e, Close(puts)];
            && Arrived(parse, feed, payload.0, e.at.date) == [e.raw, e.raw]
            && Handled(parse, limits, feed, payload.0, e.at.date) == [e.raw, e.raw]
            && Addressed(WriterCalls(parse, feed))
  {
    hide Handle, PartitionKey, FlushEach, FeedRun, Arrived, Handled, WriterCalls, Addressed;
    var start, symbol, date := FeedState(NEW, map[], []), payload.0, e.at.date;
    assert [] + [e] == [e] && [e] + [e] == [e, e] && [e, e] + [Close(puts)] == [e, e, Close(puts)];
    NothingArrived(parse, limits, symbol, date);
    FeedOneMore(parse, limits, [], e, symbol, date);
    FeedOneMore(parse, limits, [e], e, symbol, date);
    FeedOneMore(parse, limits, [e, e], Close(puts), symbol, date);
    QuietArrival(start, parse(e.raw), e.raw, e.at, e.now, e.put, limits.maxLines, payload);
    QuietArrival(FeedRun(parse, limits, [e]), parse(e.raw), e.raw, e.at, e.now, e.put, limits.maxLines, payload);
    CallsAreAddressed(parse, [e, e, Close(puts)], payload);
  }

  /** A message whose put fails raises and is never published; a good put at the end lands it, and the
      rebuild has its tick. */
  lemma RaisedMessageIsReplayed(
      parse: string -> Parsed, limits: Limits, raw: string, payload: Payload, at: Stamp, now: int, put: Put,
      puts: string -> Put, listing: seq<Object>)
    requires limits.maxLines <= 1 && put.outcome != PutOutcome.Stored
    requires IsStamp(at) && '/' !in payload.0 && '/' !in at.date && Survives(raw) && IsQuote(parse(raw), payload)
    requires forall p :: puts(p).outcome == PutOutcome.Stored
    requires var feed := [Arrive(raw, at, now, put), Close(puts)];
             Permutation(listing,
                         Selected(FeedRun(parse, limits, feed).writer.bucket, SilverPrefix(payload.0, at.date)))
    ensures var feed := [Arrive(raw, at, now, put), Close(puts)];
            && Payloads(LiveTicks(parse, limits, feed, payload.0, at.date)) == multiset{}
            && !NormalizeAll(parse, Dedup(ReadAll(listing))).raised
            && Payloads(NormalizeAll(parse, Dedup(ReadAll(listing))).rows) == multiset{payload}
  {
    hide FeedRun, LiveTicks, Payloads, NormalizeAll, Dedup, ReadAll, Selected, SilverPrefix, Survives, Addressed;
    hide AllPieces;
    var arrive, symbol, date := Arrive(raw, at, now, put), payload.0, at.date;
    assert [arrive, Close(puts)] == [arrive] + [Close(puts)];
    ClosedFeedIsEmpty(parse, limits, [arrive], puts);
    OneRaisingArrival(parse, limits, arrive, puts, payload);
    SurvivorsArePieces([raw]);
    ReplayIsWhatArrived(parse, limits, [arrive, Close(puts)], symbol, date, listing);
    LivePublishesWhatWasHandled(parse, limits, [arrive, Close(puts)], symbol, date);
    OnceAndTwice(parse, raw, payload);
  }

  lemma OneRaisingArrival(
      parse: string -> Parsed, limits: Limits, e: FeedEvent, puts: string -> Put, payload: Payload)
    requires e.Arrive? && limits.maxLines <= 1 && e.put.outcome != PutOutcome.Stored
    requires IsStamp(e.at) && '/' !in payload.0 && IsQuote(parse(e.raw), payload)
    ensures var feed := [e, Close(puts)];
            && Arrived(parse, feed, payload.0, e.at.date) == [e.raw]
            && Handled(parse, limits, feed, payload.0, e.at.date) == []
            && Addressed(WriterCalls(parse, feed))
  {
    hide PartitionKey, FlushEach, FeedRun, Arrived, Handled, WriterCalls, Addressed;
    var symbol, date := payload.0, e.at.date;
    assert [] + [e] == [e] && [e] + [Close(puts)] == [e, Close(puts)];
    NothingArrived(parse, limits, symbol, date);
    FeedOneMore(parse, limits, [], e, symbol, date);
    FeedOneMore(parse, limits, [e], Close(puts), symbol, date);
    CallsAreAddressed(parse, [e, Close(puts)], payload);
  }
}
