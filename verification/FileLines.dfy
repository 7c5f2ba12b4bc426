/** A text file as an optional byte-order mark and lines with their own terminators. */
module FileLines {
  import opened ByteText

  datatype Eol = NoEol | Lf | CrLf

  function EolBytes(e: Eol): Bytes {
    match e
    case NoEol => []
    case Lf => [LF]
    case CrLf => [CR, LF]
  }

  datatype Line = Line(content: Bytes, eol: Eol)

  function LineBytes(line: Line): Bytes { line.content + EolBytes(line.eol) }

  function LinesBytes(lines: seq<Line>): Bytes {
    if lines == [] then [] else LineBytes(lines[0]) + LinesBytes(lines[1..])
  }

  datatype Doc = Doc(bom: bool, lines: seq<Line>)

  function BomBytes(bom: bool): Bytes { if bom then BOM else [] }

  function Render(doc: Doc): Bytes { BomBytes(doc.bom) + LinesBytes(doc.lines) }

  /** A record read up to LF; a CR just before that LF belongs to the terminator. */
  function TerminatedLine(raw: Bytes): Line {
    if EndsWith(raw, CR) then Line(raw[..|raw| - 1], CrLf) else Line(raw, Lf)
  }

  function ParseLines(s: Bytes): (lines: seq<Line>)
    decreases |s|
  {
    if s == [] then []
    else
      var i := LineLength(s);
      if i == |s| then [Line(s, NoEol)] else [TerminatedLine(s[..i])] + ParseLines(s[i + 1..])
  }

  function Parse(file: Bytes): Doc {
    if BOM <= file then
      Doc(true, if file == BOM then [Line([], NoEol)] else ParseLines(file[3..]))
    else Doc(false, ParseLines(file))
  }

  /** Line contents that Parse can have produced in this position. */
  ghost predicate WellFormedLine(line: Line, last: bool) {
    && LF !in line.content
    && (line.eol == Lf ==> !EndsWith(line.content, CR))
    && (line.eol == NoEol ==> last && line.content != [])
  }

  ghost predicate WellFormedLines(lines: seq<Line>) {
    forall k :: 0 <= k < |lines| ==> WellFormedLine(lines[k], k == |lines| - 1)
  }

  /** The documents Parse produces, except for the file that is a bare BOM. */
  ghost predicate WellFormed(doc: Doc) {
    && WellFormedLines(doc.lines)
    && (doc.bom ==> doc.lines != [])
    && (!doc.bom ==> !(BOM <= LinesBytes(doc.lines)))
  }

  lemma {:induction false} TerminatedLineFacts(raw: Bytes)
    requires LF !in raw
    ensures LineBytes(TerminatedLine(raw)) == raw + [LF]
    ensures WellFormedLine(TerminatedLine(raw), false)
  {
    var line := TerminatedLine(raw);
    assert forall b :: b in line.content ==> b in raw;
    if EndsWith(raw, CR) { assert raw == line.content + [CR]; }
  }

  lemma {:induction false} TerminatedLineOf(line: Line)
    requires line.eol != NoEol && WellFormedLine(line, false)
    ensures exists raw :: LF !in raw && LineBytes(line) == raw + [LF] && TerminatedLine(raw) == line
  {
    var raw := if line.eol == CrLf then line.content + [CR] else line.content;
    assert LineBytes(line) == raw + [LF];
    assert TerminatedLine(raw) == line;
  }

  lemma {:induction false} WellFormedCons(line: Line, rest: seq<Line>)
    requires WellFormedLines(rest) && WellFormedLine(line, rest == [])
    ensures WellFormedLines([line] + rest)
  {
    var all := [line] + rest;
    forall k | 0 <= k < |all| ensures WellFormedLine(all[k], k == |all| - 1) {
      if k > 0 { assert all[k] == rest[k - 1]; }
    }
  }

  lemma {:induction false} WellFormedTail(lines: seq<Line>)
    requires lines != [] && WellFormedLines(lines)
    ensures WellFormedLines(lines[1..]) && WellFormedLine(lines[0], lines[1..] == [])
  {
    var rest := lines[1..];
    forall k | 0 <= k < |rest| ensures WellFormedLine(rest[k], k == |rest| - 1) {
      assert rest[k] == lines[k + 1];
    }
  }

  lemma ParseFirstLine(s: Bytes)
    requires s != []
    ensures var i := LineLength(s);
            if i == |s| then ParseLines(s) == [Line(s, NoEol)]
            else ParseLines(s) == [TerminatedLine(s[..i])] + ParseLines(s[i + 1..])
  {
  }

  lemma {:induction false} LinesBytesCons(line: Line, rest: seq<Line>)
    ensures LinesBytes([line] + rest) == LineBytes(line) + LinesBytes(rest)
  {
    assert ([line] + rest)[1..] == rest;
  }

  lemma {:induction false} ParseLinesRoundTrip(s: Bytes)
    ensures LinesBytes(ParseLines(s)) == s
    ensures WellFormedLines(ParseLines(s))
    decreases |s|
  {
    if s != [] {
      hide ParseLines, LinesBytes, WellFormedLines, TerminatedLine;
      var i := LineLength(s);
      ParseFirstLine(s);
      FirstLine(s);
      if i == |s| {
        SingleLine(s);
      } else {
        var line, rest := TerminatedLine(s[..i]), ParseLines(s[i + 1..]);
        ParseLinesRoundTrip(s[i + 1..]);
        TerminatedLineFacts(s[..i]);
        WellFormedCons(line, rest);
        LinesBytesCons(line, rest);
      }
    }
  }

  lemma {:induction false} SingleLine(s: Bytes)
    requires s != [] && LineLength(s) == |s|
    ensures LinesBytes([Line(s, NoEol)]) == s && WellFormedLines([Line(s, NoEol)])
  {
    FirstLine(s);
    LinesBytesCons(Line(s, NoEol), []);
  }

  /** Parsing loses nothing: every file is rendered back byte for byte. */
  lemma {:induction false} ParseRoundTrip(file: Bytes)
    ensures Render(Parse(file)) == file
    ensures file != BOM ==> WellFormed(Parse(file))
  {
    if BOM <= file {
      assert file == BOM + file[3..];
      if file == BOM {
        assert LinesBytes([Line([], NoEol)]) == [];
      } else {
        ParseLinesRoundTrip(file[3..]);
      }
    } else {
      ParseLinesRoundTrip(file);
    }
  }

  lemma {:induction false} ParseLinesOfBytes(lines: seq<Line>)
    requires WellFormedLines(lines)
    ensures ParseLines(LinesBytes(lines)) == lines
  {
    if lines != [] {
      var s, rest := LinesBytes(lines), lines[1..];
      WellFormedTail(lines);
      ParseLinesOfBytes(rest);
      if lines[0].eol == NoEol {
        assert s == lines[0].content && s[..|s|] == s;
        LineLengthUnique(s, |s|);
      } else {
        TerminatedLineOf(lines[0]);
        var raw :| LF !in raw && LineBytes(lines[0]) == raw + [LF] && TerminatedLine(raw) == lines[0];
        assert s == raw + [LF] + LinesBytes(rest);
        assert s[..|raw|] == raw && s[|raw| + 1..] == LinesBytes(rest);
        LineLengthUnique(s, |raw|);
      }
    }
  }

  /** Well-formed documents are exactly recovered, so Render is injective on them. */
  lemma {:induction false} ParseRender(doc: Doc)
    requires WellFormed(doc)
    ensures Parse(Render(doc)) == doc
  {
    ParseLinesOfBytes(doc.lines);
    var s := Render(doc);
    if doc.bom {
      assert s[3..] == LinesBytes(doc.lines);
      assert LinesBytes(doc.lines) != [] by {
        assert WellFormedLine(doc.lines[0], 0 == |doc.lines| - 1);
        assert LineBytes(doc.lines[0]) != [];
      }
      assert s != BOM;
    } else {
      assert s == LinesBytes(doc.lines);
    }
  }

  lemma {:induction false} LinesBytesConcat(a: seq<Line>, b: seq<Line>)
    ensures LinesBytes(a + b) == LinesBytes(a) + LinesBytes(b)
  {
    if a == [] {
      assert a + b == b;
    } else {
      assert (a + b)[1..] == a[1..] + b;
      LinesBytesConcat(a[1..], b);
    }
  }

  lemma {:induction false} LinesBytesSnoc(lines: seq<Line>, k: nat)
    requires k < |lines|
    ensures LinesBytes(lines[..k + 1]) == LinesBytes(lines[..k]) + LineBytes(lines[k])
  {
    assert lines[..k + 1] == lines[..k] + [lines[k]];
    LinesBytesConcat(lines[..k], [lines[k]]);
    assert LinesBytes([lines[k]]) == LineBytes(lines[k]) + LinesBytes([]);
  }

  /** Where line k starts once the lines before it, and the BOM, are counted. */
  function Start(doc: Doc, k: nat): nat
    requires k <= |doc.lines|
  {
    |BomBytes(doc.bom)| + |LinesBytes(doc.lines[..k])|
  }

  function ContentEnd(doc: Doc, k: nat): nat
    requires k < |doc.lines|
  {
    Start(doc, k) + |doc.lines[k].content|
  }

  function AfterEnd(doc: Doc, k: nat): nat
    requires k < |doc.lines|
  {
    ContentEnd(doc, k) + |EolBytes(doc.lines[k].eol)|
  }

  lemma {:induction false} StartNext(doc: Doc, k: nat)
    requires k < |doc.lines|
    ensures Start(doc, k + 1) == AfterEnd(doc, k)
  {
    LinesBytesSnoc(doc.lines, k);
  }
}
