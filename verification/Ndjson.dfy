/** Newline-delimited JSON objects: what the bronze writer puts and what the silver rebuild reads.

    Writing joins lines with `\n`; reading splits at every line boundary Python knows and drops
    blank lines. The two do not quite match, and `RoundTripIff` says exactly when they do.
 */
module Ndjson {

  /** The line boundaries of `str.splitlines`; a carriage return and line feed together are one. */
  predicate IsBoundary(c: char) {
    || '\U{000A}' <= c <= '\U{000D}'   // line feed, vertical tab, form feed, carriage return
    || '\U{001C}' <= c <= '\U{001E}'   // file, group and record separator
    || c == '\U{0085}' || c == '\U{2028}' || c == '\U{2029}'
  }

  /** The characters that `str.strip` removes. */
  predicate IsSpace(c: char) {
    || '\U{0009}' <= c <= '\U{000D}' || '\U{001C}' <= c <= '\U{0020}'
    || c == '\U{0085}' || c == '\U{00A0}' || c == '\U{1680}' || '\U{2000}' <= c <= '\U{200A}'
    || c == '\U{2028}' || c == '\U{2029}' || c == '\U{202F}' || c == '\U{205F}' || c == '\U{3000}'
  }

  /** Both tables by code point, as the Unicode standard lists the line-breaking controls and the white space;
      every boundary is white space. */
  lemma BoundaryTable(c: char)
    ensures IsBoundary(c) <==> c as int in {0xA, 0xB, 0xC, 0xD, 0x1C, 0x1D, 0x1E, 0x85, 0x2028, 0x2029}
    ensures IsBoundary(c) ==> IsSpace(c)
    ensures IsSpace(c) && !IsBoundary(c)
       <==> c as int in {0x9, 0x1F, 0x20, 0xA0, 0x1680, 0x2000, 0x2001, 0x2002, 0x2003, 0x2004, 0x2005, 0x2006, 0x2007,
                         0x2008, 0x2009, 0x200A, 0x202F, 0x205F, 0x3000}
  {
  }

  predicate Blank(line: string) {
    forall c | c in line :: IsSpace(c)
  }

  predicate Clean(line: string) {
    forall c | c in line :: !IsBoundary(c)
  }

  predicate Survives(line: string) {
    Clean(line) && !Blank(line)
  }

  // ---------- Writing ----------

  function JoinLines(lines: seq<string>): string
    requires lines != []
  {
    if |lines| == 1 then lines[0] else lines[0] + "\n" + JoinLines(lines[1..])
  }

  function Body(lines: seq<string>): string
    requires lines != []
  {
    JoinLines(lines) + "\n"
  }

  // ---------- Reading ----------

  function FirstBoundary(s: string): (n: nat)
    ensures n <= |s| && (forall i | 0 <= i < n :: !IsBoundary(s[i])) && (n < |s| ==> IsBoundary(s[n]))
  {
    if s == "" || IsBoundary(s[0]) then 0 else 1 + FirstBoundary(s[1..])
  }

  function SplitLines(s: string): seq<string> {
    if s == "" then
      []
    else
      var n := FirstBoundary(s);
      if n == |s| then
        [s]
      else
        var width := if s[n] == '\r' && n + 1 < |s| && s[n + 1] == '\n' then 2 else 1;
        [s[..n]] + SplitLines(s[n + width..])
  }

  function NonBlank(lines: seq<string>): seq<string> {
    if lines == [] then [] else (if Blank(lines[0]) then [] else [lines[0]]) + NonBlank(lines[1..])
  }

  function ReadLines(body: string): seq<string> {
    NonBlank(SplitLines(body))
  }

  // ---------- The round trip ----------

  lemma BoundaryAfter(line: string, rest: string)
    requires Clean(line) && rest != "" && IsBoundary(rest[0])
    ensures FirstBoundary(line + rest) == |line|
  {
    var s, n := line + rest, FirstBoundary(line + rest);
    assert s[|line|] == rest[0];
    assert forall i | 0 <= i < |line| :: s[i] == line[i] && line[i] in line;
  }

  lemma SplitFirstLine(line: string, rest: string)
    requires Clean(line)
    ensures SplitLines(line + "\n" + rest) == [line] + SplitLines(rest)
  {
    var s := line + ("\n" + rest);
    assert line + "\n" + rest == s;
    BoundaryAfter(line, "\n" + rest);
    assert s[|line|] == '\n';
    assert s[..|line|] == line && s[|line| + 1..] == rest;
  }

  lemma {:induction false} SplitBody(lines: seq<string>)
    requires lines != [] && forall line | line in lines :: Clean(line)
    ensures SplitLines(Body(lines)) == lines
  {
    hide SplitLines, Clean;
    if |lines| == 1 {
      SplitFirstLine(lines[0], "");
      NothingToSplit();
      assert Body(lines) == lines[0] + "\n" + "";
      assert lines == [lines[0]];
    } else {
      SplitBody(lines[1..]);
      SplitFirstLine(lines[0], Body(lines[1..]));
      assert Body(lines) == lines[0] + "\n" + Body(lines[1..]);
    }
  }

  lemma {:induction false} KeepNonBlank(lines: seq<string>)
    requires forall line | line in lines :: !Blank(line)
    ensures NonBlank(lines) == lines
  {
    if lines != [] {
      KeepNonBlank(lines[1..]);
    }
  }

  lemma {:induction false} SplitIsClean(s: string)
    ensures forall line | line in SplitLines(s) :: Clean(line)
  {
    if s != "" {
      var n := FirstBoundary(s);
      if n == |s| {
        assert s[..n] == s;
      } else {
        var width := if s[n] == '\r' && n + 1 < |s| && s[n + 1] == '\n' then 2 else 1;
        SplitIsClean(s[n + width..]);
      }
    }
  }

  lemma {:induction false} NonBlankSelects(lines: seq<string>)
    ensures forall line :: line in NonBlank(lines) <==> line in lines && !Blank(line)
  {
    if lines != [] {
      NonBlankSelects(lines[1..]);
      assert lines == [lines[0]] + lines[1..];
    }
  }

  /** Whatever was stored, only surviving lines are read. */
  lemma ReadLinesSurvive(body: string)
    ensures forall line | line in ReadLines(body) :: Survives(line)
  {
    SplitIsClean(body);
    NonBlankSelects(SplitLines(body));
  }

  /** Lines come back unchanged, in order and in number exactly when none is blank and none holds a
      line boundary. */
  lemma RoundTripIff(lines: seq<string>)
    requires lines != []
    ensures ReadLines(Body(lines)) == lines <==> forall line | line in lines :: Survives(line)
  {
    ReadLinesSurvive(Body(lines));
    if forall line | line in lines :: Survives(line) {
      SplitBody(lines);
      KeepNonBlank(lines);
    }
  }

  // ---------- What becomes of any lines at all ----------

  /** What one stored line is read as. */
  function Pieces(line: string): seq<string> {
    ReadLines(line + "\n")
  }

  function AllPieces(lines: seq<string>): seq<string> {
    if lines == [] then [] else Pieces(lines[0]) + AllPieces(lines[1..])
  }

  lemma NonBlankStep(lines: seq<string>)
    ensures lines == [] ==> NonBlank(lines) == []
    ensures lines != [] ==> NonBlank(lines) == (if Blank(lines[0]) then [] else [lines[0]]) + NonBlank(lines[1..])
  {
    hide Blank;
  }

  lemma {:induction false} NonBlankConcat(a: seq<string>, b: seq<string>)
    ensures NonBlank(a + b) == NonBlank(a) + NonBlank(b)
  {
    hide Blank, NonBlank;
    NonBlankStep(a);
    if a == [] {
      assert a + b == b;
    } else {
      NonBlankConcat(a[1..], b);
      NonBlankStep(a + b);
      assert (a + b)[0] == a[0] && (a + b)[1..] == a[1..] + b;
    }
  }

  lemma FirstBoundaryIs(s: string, n: nat)
    requires n < |s| && IsBoundary(s[n]) && forall i | 0 <= i < n :: !IsBoundary(s[i])
    ensures FirstBoundary(s) == n
  {
  }

  /** Splitting starts afresh after every line feed. */
  lemma {:induction false} SplitAfterFeed(line: string, rest: string)
    ensures SplitLines(line + "\n" + rest) == SplitLines(line + "\n") + SplitLines(rest)
    decreases |line|
  {
    hide IsBoundary, FirstBoundary, SplitLines;
    var s, t := line + "\n" + rest, line + "\n";
    var n := FirstBoundary(t);
    SameFirstBoundary(line, rest);
    var width := Width(t, n);
    SplitOnce(s, n);
    SplitOnce(t, n);
    assert s[..n] == t[..n];
    if n + width <= |line| {
      SplitAfterFeed(line[n + width..], rest);
      assert s[n + width..] == line[n + width..] + "\n" + rest;
      assert t[n + width..] == line[n + width..] + "\n";
    } else {
      assert s[n + width..] == rest && t[n + width..] == "";
      NothingToSplit();
    }
  }

  lemma SameFirstBoundary(line: string, rest: string)
    ensures var s, t := line + "\n" + rest, line + "\n";
            var n := FirstBoundary(t);
            && n <= |line| && FirstBoundary(s) == n && Width(s, n) == Width(t, n)
  {
    hide IsBoundary;
    var s, t := line + "\n" + rest, line + "\n";
    var n := FirstBoundary(t);
    assert t[|line|] == '\n' && s[|line|] == '\n';
    LineFeedIsBoundary();
    assert n <= |line|;
    assert forall i | 0 <= i <= |line| :: s[i] == t[i];
    FirstBoundaryIs(s, n);
  }

  lemma LineFeedIsBoundary()
    ensures IsBoundary('\n')
  {
  }

  lemma NothingToSplit()
    ensures SplitLines("") == []
  {
  }

  function Width(s: string, n: nat): nat
    requires n < |s|
  {
    if s[n] == '\r' && n + 1 < |s| && s[n + 1] == '\n' then 2 else 1
  }

  lemma SplitOnce(s: string, n: nat)
    requires n < |s| && FirstBoundary(s) == n
    ensures SplitLines(s) == [s[..n]] + SplitLines(s[n + Width(s, n)..])
  {
    hide IsBoundary, FirstBoundary;
  }

  /** Every object is read as the pieces of its lines, one line after another, whatever they hold. */
  lemma {:induction false} ReadBody(lines: seq<string>)
    requires lines != []
    ensures ReadLines(Body(lines)) == AllPieces(lines)
  {
    hide SplitLines, NonBlank;
    if |lines| == 1 {
      assert AllPieces(lines[1..]) == [];
      assert AllPieces(lines) == Pieces(lines[0]) + [];
    } else {
      ReadBody(lines[1..]);
      assert Body(lines) == lines[0] + "\n" + Body(lines[1..]);
      SplitAfterFeed(lines[0], Body(lines[1..]));
      NonBlankConcat(SplitLines(lines[0] + "\n"), SplitLines(Body(lines[1..])));
    }
  }

  lemma PiecesStep(lines: seq<string>)
    ensures lines == [] ==> AllPieces(lines) == []
    ensures lines != [] ==> AllPieces(lines) == Pieces(lines[0]) + AllPieces(lines[1..])
  {
    hide Pieces;
  }

  lemma {:induction false} PiecesConcat(a: seq<string>, b: seq<string>)
    ensures AllPieces(a + b) == AllPieces(a) + AllPieces(b)
  {
    hide Pieces, AllPieces;
    PiecesStep(a);
    if a == [] {
      assert a + b == b;
    } else {
      PiecesConcat(a[1..], b);
      PiecesStep(a + b);
      assert (a + b)[0] == a[0] && (a + b)[1..] == a[1..] + b;
    }
  }

  /** A surviving line is its own only piece. */
  lemma SurvivorIsOnePiece(line: string)
    requires Survives(line)
    ensures Pieces(line) == [line]
  {
    RoundTripIff([line]);
  }

  lemma {:induction false} SurvivorsArePieces(lines: seq<string>)
    requires forall line | line in lines :: Survives(line)
    ensures AllPieces(lines) == lines
  {
    hide Pieces, Survives;
    if lines != [] {
      assert lines[0] in lines;
      SurvivorIsOnePiece(lines[0]);
      SurvivorsArePieces(lines[1..]);
    }
  }

  /** JSON allows a raw U+2028 inside a string (section 7 of RFC 8259). Such a message does not come
      back: it is read as two fragments. */
  lemma RawSeparatorTearsLine(before: string, after: string)
    requires Survives(before) && Survives(after)
    ensures ReadLines(Body([before + "\U{2028}" + after])) == [before, after]
  {
    var line := before + "\U{2028}" + after;
    var s := Body([line]);
    assert s == before + ("\U{2028}" + (after + "\n"));
    BoundaryAfter(before, "\U{2028}" + (after + "\n"));
    assert s[|before|] == '\U{2028}';
    assert s[..|before|] == before && s[|before| + 1..] == after + "\n" + "";
    SplitFirstLine(after, "");
    assert SplitLines(s) == [before, after];
    KeepNonBlank([before, after]);
  }
}
