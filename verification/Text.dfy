/** Splitting and joining strings at a separator character, as `str.split(sep)` and `sep.join` do. */
module Text {

  function Join(parts: seq<string>, sep: char): string {
    if parts == [] then ""
    else if |parts| == 1 then parts[0]
    else parts[0] + [sep] + Join(parts[1..], sep)
  }

  /** Never empty: a string without the separator is its own only part. */
  function Split(s: string, sep: char): (parts: seq<string>)
    ensures parts != []
  {
    var n := Find(s, sep);
    if n == |s| then [s] else [s[..n]] + Split(s[n + 1..], sep)
  }

  /** The position of the first separator, or the length. */
  function Find(s: string, sep: char): (n: nat)
    ensures n <= |s| && (forall i | 0 <= i < n :: s[i] != sep) && (n < |s| ==> s[n] == sep)
  {
    if s == "" || s[0] == sep then 0 else 1 + Find(s[1..], sep)
  }

  lemma FindAfter(head: string, rest: string, sep: char)
    requires sep !in head
    ensures Find(head + [sep] + rest, sep) == |head|
  {
    var s, n := head + [sep] + rest, Find(head + [sep] + rest, sep);
    assert s[|head|] == sep;
    assert forall i | 0 <= i < |head| :: s[i] == head[i] && head[i] in head;
  }

  lemma FindNone(s: string, sep: char)
    requires sep !in s
    ensures Find(s, sep) == |s|
  {
  }

  lemma {:induction false} SplitJoin(parts: seq<string>, sep: char)
    requires parts != [] && forall part | part in parts :: sep !in part
    ensures Split(Join(parts, sep), sep) == parts
  {
    var head := parts[0];
    if |parts| == 1 {
      FindNone(head, sep);
    } else {
      var rest := Join(parts[1..], sep);
      FindAfter(head, rest, sep);
      assert (head + [sep] + rest)[|head| + 1..] == rest;
      assert (head + [sep] + rest)[..|head|] == head;
      SplitJoin(parts[1..], sep);
    }
  }

  lemma {:induction false} SplitPartsAreFree(s: string, sep: char)
    ensures forall part | part in Split(s, sep) :: sep !in part
  {
    var n := Find(s, sep);
    if n < |s| {
      SplitPartsAreFree(s[n + 1..], sep);
    } else {
      assert s[..n] == s;
    }
  }

  lemma SplitHead(head: string, rest: string, sep: char)
    requires sep !in head
    ensures Split(head + [sep] + rest, sep) == [head] + Split(rest, sep)
  {
    FindAfter(head, rest, sep);
    assert (head + [sep] + rest)[|head| + 1..] == rest;
    assert (head + [sep] + rest)[..|head|] == head;
  }

  /** Heads up to the separator line up under the prefix relation. */
  lemma HeadsAlign(a: string, x: string, b: string, y: string, sep: char)
    requires sep !in a && sep !in b
    ensures a + [sep] + x <= b + [sep] + y <==> a == b && x <= y
  {
    var s, t := a + [sep] + x, b + [sep] + y;
    FindAfter(a, x, sep);
    FindAfter(b, y, sep);
    if s <= t {
      FirstInPrefix(s, t, sep);
      assert s[..|a|] == a && t[..|b|] == b;
      assert s[|a| + 1..] == x && t[|b| + 1..] == y;
    }
  }

  lemma FirstInPrefix(s: string, t: string, sep: char)
    requires s <= t && Find(s, sep) < |s|
    ensures Find(t, sep) == Find(s, sep)
  {
  }
}
