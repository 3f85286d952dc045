/** The sensor that requests a silver rebuild for every new bronze partition. Its cursor is a string
    that lists the partitions seen at the previous evaluation.
 */
module Sensor {
  import opened Models
  import opened Text

  type Pair = (string, string)

  /** An entry read back from a cursor; an entry without a bar has no date. */
  datatype Entry = Entry(symbol: string, date: Option<string>)

  function EntryOf(pair: Pair): Entry {
    Entry(pair.0, Some(pair.1))
  }

  // ---------- The cursor ----------

  function Written(pair: Pair): string {
    pair.0 + "|" + pair.1
  }

  function WrittenAll(listing: seq<Pair>): seq<string> {
    seq(|listing|, i requires 0 <= i < |listing| => Written(listing[i]))
  }

  /** The listing is the order in which the set happens to be iterated. */
  function Encode(listing: seq<Pair>): string {
    Join(WrittenAll(listing), ',')
  }

  function Parse(part: string): Entry {
    var n := Find(part, '|');
    if n == |part| then Entry(part, None) else Entry(part[..n], Some(part[n + 1..]))
  }

  function Decode(cursor: string): set<Entry> {
    if cursor == "" then {} else set part | part in Split(cursor, ',') && part != "" :: Parse(part)
  }

  ghost predicate CleanPair(pair: Pair) {
    ',' !in pair.0 && '|' !in pair.0 && ',' !in pair.1
  }

  lemma ParseWritten(pair: Pair)
    requires CleanPair(pair)
    ensures Parse(Written(pair)) == EntryOf(pair)
  {
    assert Written(pair) == pair.0 + ['|'] + pair.1;
    FindAfter(pair.0, pair.1, '|');
    assert Written(pair)[..|pair.0|] == pair.0 && Written(pair)[|pair.0| + 1..] == pair.1;
  }

  lemma WrittenIsOnePart(pair: Pair)
    requires CleanPair(pair)
    ensures ',' !in Written(pair) && Written(pair) != ""
  {
  }

  lemma DecodedIsClean(cursor: string, entry: Entry)
    requires entry in Decode(cursor)
    ensures ',' !in entry.symbol && '|' !in entry.symbol && (entry.date.Some? ==> ',' !in entry.date.value)
  {
    SplitPartsAreFree(cursor, ',');
    var part :| part in Split(cursor, ',') && part != "" && Parse(part) == entry;
    var n := Find(part, '|');
    assert part[..n] <= part;
    assert n == |part| ==> part[..n] == part;
  }

  lemma JoinIsNotEmpty(parts: seq<string>, sep: char)
    requires parts != [] && forall part | part in parts :: part != ""
    ensures Join(parts, sep) != ""
  {
    assert parts[0] in parts;
  }

  lemma CleanCursorReadsBack(listing: seq<Pair>)
    requires forall pair | pair in listing :: CleanPair(pair)
    ensures Decode(Encode(listing)) == set pair | pair in listing :: EntryOf(pair)
  {
    hide Join, Split;
    var parts := WrittenAll(listing);
    forall pair | pair in listing
      ensures Parse(Written(pair)) == EntryOf(pair) && ',' !in Written(pair) && Written(pair) != ""
    {
      ParseWritten(pair);
      WrittenIsOnePart(pair);
    }
    if listing == [] {
      assert Encode(listing) == "" by { NoParts(); }
    } else {
      forall part | part in parts
        ensures ',' !in part && part != ""
      {
        var i :| 0 <= i < |parts| && parts[i] == part;
        assert listing[i] in listing;
      }
      SplitJoin(parts, ',');
      JoinIsNotEmpty(parts, ',');
      forall pair | pair in listing
        ensures Written(pair) in parts
      {
        var i :| 0 <= i < |listing| && listing[i] == pair;
        assert parts[i] == Written(pair);
      }
      forall part | part in parts
        ensures exists pair :: pair in listing && part == Written(pair)
      {
        var i :| 0 <= i < |parts| && parts[i] == part;
        assert listing[i] in listing;
      }
    }
  }

  lemma NoParts()
    ensures Encode([]) == ""
  {
  }

  /** The cursor reads back as what was written exactly when no name holds a comma and no symbol
      holds a bar. */
  lemma CursorReadsBackIff(listing: seq<Pair>)
    ensures (Decode(Encode(listing)) == set pair | pair in listing :: EntryOf(pair))
       <==> forall pair | pair in listing :: CleanPair(pair)
  {
    if forall pair | pair in listing :: CleanPair(pair) {
      CleanCursorReadsBack(listing);
    }
    if Decode(Encode(listing)) == set pair | pair in listing :: EntryOf(pair) {
      forall pair | pair in listing
        ensures CleanPair(pair)
      {
        assert EntryOf(pair) in Decode(Encode(listing));
        DecodedIsClean(Encode(listing), EntryOf(pair));
      }
    }
  }

  // ---------- One evaluation ----------

  /** What is requested, and the cursor for the next evaluation. */
  function Evaluate(cursor: string, available: seq<Pair>): (set<Pair>, string) {
    var seen := Decode(cursor);
    ((set pair | pair in available && EntryOf(pair) !in seen), Encode(available))
  }

  // ---------- Runs of evaluations ----------

  /** The cursor before evaluation `k`. */
  function CursorAt(evaluations: seq<seq<Pair>>, k: nat): string
    requires k <= |evaluations|
  {
    if k == 0 then "" else Evaluate(CursorAt(evaluations, k - 1), evaluations[k - 1]).1
  }

  function Requested(evaluations: seq<seq<Pair>>, k: nat): set<Pair>
    requires k < |evaluations|
  {
    Evaluate(CursorAt(evaluations, k), evaluations[k]).0
  }

  ghost predicate CleanNames(evaluations: seq<seq<Pair>>) {
    forall k, pair | 0 <= k < |evaluations| && pair in evaluations[k] :: CleanPair(pair)
  }

  /** Over any sequence of listings a partition is requested exactly when it is available and was not
      available the time before: the cursor forgets what has gone. */
  lemma RequestedIffNew(evaluations: seq<seq<Pair>>, k: nat, pair: Pair)
    requires k < |evaluations| && CleanNames(evaluations)
    ensures pair in Requested(evaluations, k)
       <==> pair in evaluations[k] && (k == 0 || pair !in evaluations[k - 1])
  {
    if k > 0 {
      CleanCursorReadsBack(evaluations[k - 1]);
      assert EntryOf(pair) in Decode(CursorAt(evaluations, k))
        <==> exists p :: p in evaluations[k - 1] && EntryOf(p) == EntryOf(pair);
    }
  }

  ghost predicate AppendOnly(evaluations: seq<seq<Pair>>) {
    forall j, k, pair | 0 <= j <= k < |evaluations| && pair in evaluations[j] :: pair in evaluations[k]
  }

  /** When it was first available. */
  function FirstSeen(evaluations: seq<seq<Pair>>, k: nat, pair: Pair): (first: nat)
    requires k < |evaluations| && pair in evaluations[k]
    ensures first <= k && pair in evaluations[first]
    ensures first == 0 || pair !in evaluations[first - 1]
  {
    if k == 0 || pair !in evaluations[k - 1] then k else FirstSeen(evaluations, k - 1, pair)
  }

  /** While bronze only grows, every partition is requested exactly once, as soon as it shows. */
  lemma RequestedExactlyOnce(evaluations: seq<seq<Pair>>, k: nat, pair: Pair)
    requires CleanNames(evaluations) && AppendOnly(evaluations)
    requires k < |evaluations| && pair in evaluations[k]
    ensures forall j: nat | j < |evaluations| ::
              pair in Requested(evaluations, j) <==> j == FirstSeen(evaluations, k, pair)
  {
    var first := FirstSeen(evaluations, k, pair);
    forall j: nat | j < |evaluations|
      ensures pair in Requested(evaluations, j) <==> j == first
    {
      RequestedIffNew(evaluations, j, pair);
      assert first <= j - 1 ==> pair in evaluations[j - 1];
      if j < first {
        assert pair !in evaluations[first - 1];
      }
    }
  }

  ghost predicate RequestedTwice(evaluations: seq<seq<Pair>>, pair: Pair, j: nat, k: nat) {
    j < k < |evaluations| && pair in Requested(evaluations, j) && pair in Requested(evaluations, k)
  }

  /** It was listed, then it was not, then it was again. */
  ghost predicate Returns(evaluations: seq<seq<Pair>>, pair: Pair, i: nat, j: nat, k: nat) {
    i < j < k < |evaluations| && pair in evaluations[i] && pair !in evaluations[j] && pair in evaluations[k]
  }

  /** Over any listings a partition is requested at most once if and only if it never returns after
      vanishing. */
  lemma RequestedAtMostOnceIff(evaluations: seq<seq<Pair>>, pair: Pair)
    requires CleanNames(evaluations)
    ensures (forall j: nat, k: nat :: !RequestedTwice(evaluations, pair, j, k))
       <==> (forall i: nat, j: nat, k: nat :: !Returns(evaluations, pair, i, j, k))
  {
    forall j: nat, k: nat | RequestedTwice(evaluations, pair, j, k)
      ensures Returns(evaluations, pair, j, k - 1, k)
    {
      RequestedIffNew(evaluations, j, pair);
      RequestedIffNew(evaluations, k, pair);
    }
    forall i: nat, j: nat, k: nat | Returns(evaluations, pair, i, j, k)
      ensures exists a: nat, b: nat :: RequestedTwice(evaluations, pair, a, b)
    {
      var a := FirstSeen(evaluations, i, pair);
      var b := NextSeen(evaluations, j, k, pair);
      RequestedIffNew(evaluations, a, pair);
      RequestedIffNew(evaluations, b, pair);
      assert RequestedTwice(evaluations, pair, a, b);
    }
  }

  /** When it was available again. */
  function NextSeen(evaluations: seq<seq<Pair>>, j: nat, k: nat, pair: Pair): (next: nat)
    requires j < k < |evaluations| && pair !in evaluations[j] && pair in evaluations[k]
    ensures j < next <= k && pair in evaluations[next] && pair !in evaluations[next - 1]
  {
    if pair !in evaluations[k - 1] then k else NextSeen(evaluations, j, k - 1, pair)
  }

  /** A partition whose objects vanish and come back is requested twice. */
  lemma ReappearingIsRequestedAgain(pair: Pair)
    requires CleanPair(pair)
    ensures pair in Requested([[pair], [], [pair]], 0) && pair in Requested([[pair], [], [pair]], 2)
  {
  }
}
