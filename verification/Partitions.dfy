/** Bronze object keys: how the writer forms them, how discovery reads a (symbol, date) back from
    them, and which objects a silver rebuild lists.
 */
module Partitions {
  import opened Models
  import opened Text

  /** A receive time, formatted: the date as `2024-05-01`, the hour as `09`. */
  datatype Stamp = Stamp(date: string, hour: string)

  predicate NumbersAndDashes(s: string) {
    forall c | c in s :: '0' <= c <= '9' || c == '-'
  }

  predicate IsStamp(at: Stamp) {
    NumbersAndDashes(at.date) && at.date != "" && NumbersAndDashes(at.hour)
  }

  predicate Hex(s: string) {
    forall c | c in s :: '0' <= c <= '9' || 'a' <= c <= 'f'
  }

  const SYMBOL_TAG := "symbol="
  const DATE_TAG := "date="

  function PartitionKey(symbol: Symbol, at: Stamp): string {
    "ticks/" + (SYMBOL_TAG + symbol) + "/" + (DATE_TAG + at.date) + "/" + ("hour=" + at.hour)
  }

  function ObjectKey(partition: string, uuid: string): string {
    partition + "/" + (uuid + ".ndjson")
  }

  /** Everything a rebuild of (symbol, date) lists. */
  function SilverPrefix(symbol: Symbol, date: string): string {
    "ticks/" + (SYMBOL_TAG + symbol) + "/" + (DATE_TAG + date) + "/"
  }

  // ---------- Discovery ----------

  datatype Tags = Tags(symbol: Option<string>, date: Option<string>)

  function Read(tags: Tags, part: string): Tags {
    if SYMBOL_TAG <= part then tags.(symbol := Some(part[|SYMBOL_TAG|..]))
    else if DATE_TAG <= part then tags.(date := Some(part[|DATE_TAG|..]))
    else tags
  }

  /** The last tag of each kind wins. */
  function TagsOf(parts: seq<string>): Tags {
    if parts == [] then Tags(None, None) else Read(TagsOf(parts[..|parts| - 1]), parts[|parts| - 1])
  }

  function Truthy(s: Option<string>): bool {
    s.Some? && s.value != ""
  }

  /** The partition that discovery attributes an object key to, if any. */
  function Discovered(key: string): Option<(Symbol, string)> {
    var tags := TagsOf(Split(key, '/'));
    if Truthy(tags.symbol) && Truthy(tags.date) then Some((tags.symbol.value, tags.date.value)) else None
  }

  method DiscoverBronzePartitions(keys: seq<string>) returns (found: set<(Symbol, string)>)
    ensures forall pair :: pair in found <==> exists key | key in keys :: Discovered(key) == Some(pair)
  {
    found := {};
    for i := 0 to |keys|
      invariant forall pair :: pair in found <==> exists key | key in keys[..i] :: Discovered(key) == Some(pair)
    {
      var symbol: Option<string>, date: Option<string> := None, None;
      var parts := Split(keys[i], '/');
      for j := 0 to |parts|
        invariant Tags(symbol, date) == TagsOf(parts[..j])
      {
        var part := parts[j];
        assert parts[..j + 1][..j] == parts[..j];
        if SYMBOL_TAG <= part {
          symbol := Some(part[|SYMBOL_TAG|..]);
        } else if DATE_TAG <= part {
          date := Some(part[|DATE_TAG|..]);
        }
      }
      assert parts[..|parts|] == parts;
      assert keys[..i + 1] == keys[..i] + [keys[i]];
      assert Discovered(keys[i])
          == if Truthy(symbol) && Truthy(date) then Some((symbol.value, date.value)) else None by {
        assert TagsOf(Split(keys[i], '/')) == Tags(symbol, date);
      }
      if Truthy(symbol) && Truthy(date) {
        found := found + {(symbol.value, date.value)};
      }
      assert forall pair :: (exists key | key in keys[..i + 1] :: Discovered(key) == Some(pair))
                       <==> (exists key | key in keys[..i] :: Discovered(key) == Some(pair))
                            || Discovered(keys[i]) == Some(pair);
    }
    assert keys[..|keys|] == keys;
  }

  // ---------- Keys read back ----------

  lemma SlashFreeParts(symbol: Symbol, at: Stamp, uuid: string)
    requires '/' !in symbol && IsStamp(at) && Hex(uuid)
    ensures Split(ObjectKey(PartitionKey(symbol, at), uuid), '/')
         == ["ticks", SYMBOL_TAG + symbol, DATE_TAG + at.date, "hour=" + at.hour, uuid + ".ndjson"]
  {
    hide Split, Find;
    var file := uuid + ".ndjson";
    var hours := ("hour=" + at.hour) + ['/'] + file;
    var dates := (DATE_TAG + at.date) + ['/'] + hours;
    var symbols := (SYMBOL_TAG + symbol) + ['/'] + dates;
    assert ObjectKey(PartitionKey(symbol, at), uuid) == "ticks" + ['/'] + symbols;
    SplitHead("ticks", symbols, '/');
    SplitHead(SYMBOL_TAG + symbol, dates, '/');
    SplitHead(DATE_TAG + at.date, hours, '/');
    SplitHead("hour=" + at.hour, file, '/');
    SplitJoin([file], '/');
  }

  lemma ReadSymbol(tags: Tags, value: string)
    ensures Read(tags, SYMBOL_TAG + value) == tags.(symbol := Some(value))
  {
  }

  lemma ReadDate(tags: Tags, value: string)
    ensures Read(tags, DATE_TAG + value) == tags.(date := Some(value))
  {
    assert (DATE_TAG + value)[0] == 'd';
    assert (DATE_TAG + value)[|DATE_TAG|..] == value;
  }

  lemma ReadOther(tags: Tags, part: string)
    requires part == "" || (part[0] != 's' && !(DATE_TAG <= part))
    ensures Read(tags, part) == tags
  {
  }

  lemma HexNameIsNoTag(uuid: string)
    requires Hex(uuid)
    ensures forall tags :: Read(tags, uuid + ".ndjson") == tags
  {
    var file := uuid + ".ndjson";
    assert file[0] == if uuid == "" then '.' else uuid[0];
    assert file[2] == if |uuid| > 2 then uuid[2] else ".ndjson"[2 - |uuid|];
    assert forall i | 0 <= i < |uuid| :: uuid[i] in uuid;
    forall tags
      ensures Read(tags, file) == tags
    {
      ReadOther(tags, file);
    }
  }

  lemma {:induction false} FoundSymbolIsPart(parts: seq<string>)
    requires forall part | part in parts :: '/' !in part
    ensures TagsOf(parts).symbol.Some? ==> '/' !in TagsOf(parts).symbol.value
  {
    if parts != [] {
      var last := parts[|parts| - 1];
      FoundSymbolIsPart(parts[..|parts| - 1]);
      assert '/' !in last;
    }
  }

  /** Discovery reads an object's symbol and date back exactly when the symbol is not empty and has
      no slash in it. */
  lemma DiscoveredIff(symbol: Symbol, at: Stamp, uuid: string)
    requires IsStamp(at) && Hex(uuid)
    ensures Discovered(ObjectKey(PartitionKey(symbol, at), uuid)) == Some((symbol, at.date))
       <==> symbol != "" && '/' !in symbol
  {
    var key := ObjectKey(PartitionKey(symbol, at), uuid);
    SplitPartsAreFree(key, '/');
    FoundSymbolIsPart(Split(key, '/'));
    if '/' !in symbol {
      SlashFreeParts(symbol, at, uuid);
      TagsOfFive(symbol, at, uuid);
    }
  }

  lemma TagsOfFive(symbol: Symbol, at: Stamp, uuid: string)
    requires Hex(uuid)
    ensures TagsOf(["ticks", SYMBOL_TAG + symbol, DATE_TAG + at.date, "hour=" + at.hour, uuid + ".ndjson"])
         == Tags(Some(symbol), Some(at.date))
  {
    hide Read;
    var a, b, c, d, e := "ticks", SYMBOL_TAG + symbol, DATE_TAG + at.date, "hour=" + at.hour, uuid + ".ndjson";
    TagsOneMore([], a);
    TagsOneMore([a], b);
    TagsOneMore([a, b], c);
    TagsOneMore([a, b, c], d);
    TagsOneMore([a, b, c, d], e);
    assert [] + [a] == [a] && [a] + [b] == [a, b] && [a, b] + [c] == [a, b, c];
    assert [a, b, c] + [d] == [a, b, c, d] && [a, b, c, d] + [e] == [a, b, c, d, e];
    ReadOther(Tags(None, None), a);
    ReadSymbol(Tags(None, None), symbol);
    ReadDate(Tags(Some(symbol), None), at.date);
    ReadOther(Tags(Some(symbol), Some(at.date)), d);
    HexNameIsNoTag(uuid);
  }

  lemma TagsOneMore(parts: seq<string>, part: string)
    ensures TagsOf(parts + [part]) == Read(TagsOf(parts), part)
  {
  }

  /** An object is listed by the rebuild of its own (symbol, date) and by no other. */
  lemma ListedByOwnRebuildOnly(symbol: Symbol, at: Stamp, uuid: string, other: Symbol, date: string)
    requires '/' !in symbol && '/' !in other && IsStamp(at) && '/' !in date
    ensures SilverPrefix(other, date) <= ObjectKey(PartitionKey(symbol, at), uuid)
       <==> other == symbol && date == at.date
  {
    var tail := ("hour=" + at.hour) + "/" + (uuid + ".ndjson");
    UnderPrefix(symbol, at.date, tail, other, date);
    assert ObjectKey(PartitionKey(symbol, at), uuid)
        == "ticks/" + (SYMBOL_TAG + symbol) + "/" + (DATE_TAG + at.date) + "/" + tail;
  }

  lemma UnderPrefix(symbol: Symbol, day: string, tail: string, other: Symbol, date: string)
    requires '/' !in symbol && '/' !in other && '/' !in date && NumbersAndDashes(day)
    ensures SilverPrefix(other, date) <= "ticks/" + (SYMBOL_TAG + symbol) + "/" + (DATE_TAG + day) + "/" + tail
       <==> other == symbol && date == day
  {
    var a, b := SYMBOL_TAG + other, SYMBOL_TAG + symbol;
    var c, d := DATE_TAG + date, DATE_TAG + day;
    var x, y := c + ['/'] + "", d + ['/'] + tail;
    assert SilverPrefix(other, date) == "ticks/" + (a + ['/'] + x);
    assert "ticks/" + b + "/" + d + "/" + tail == "ticks/" + (b + ['/'] + y);
    SamePrefix("ticks/", a + ['/'] + x, b + ['/'] + y);
    HeadsAlign(a, x, b, y, '/');
    HeadsAlign(c, "", d, tail, '/');
    assert a == b <==> other == symbol by { SameTag(SYMBOL_TAG, other, symbol); }
    assert c == d <==> date == day by { SameTag(DATE_TAG, date, day); }
  }

  lemma SamePrefix(head: string, x: string, y: string)
    ensures head + x <= head + y <==> x <= y
  {
    if head + x <= head + y {
      assert (head + x)[|head|..] == x && (head + y)[|head|..] == y;
    }
  }

  lemma SameTag(tag: string, x: string, y: string)
    ensures tag + x == tag + y <==> x == y
  {
    assert (tag + x)[|tag|..] == x && (tag + y)[|tag|..] == y;
  }
}
