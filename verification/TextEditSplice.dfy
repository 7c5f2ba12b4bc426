/** The data path of the remote edit script: locate the block, splice the bytes. */
module TextEditSplice {
  import opened ByteText
  import opened FileLines
  import opened TextEditLocator
  import opened Wrappers

  datatype TextEdit = TextEdit(oldText: Bytes, newText: Bytes)

  datatype Outcome =
    | Written(content: Bytes)
    | TargetExists             // exit 75 on create
    | TargetMissing            // test -f fails
    | BadEncoding              // exit 76
    | Conflicted(matches: nat) // exit 75

  function Separator(eol: nat): Bytes { if eol == 2 then [CR, LF] else [LF] }

  function Splice(file: Bytes, start: nat, middle: Bytes, end: nat): Bytes
    requires start <= end <= |file|
  {
    file[..start] + middle + file[end..]
  }

  lemma {:induction false} JoinSnoc(parts: seq<Bytes>, part: Bytes, sep: Bytes)
    requires parts != []
    ensures Join(parts + [part], sep) == Join(parts, sep) + sep + part
  {
    if |parts| > 1 {
      JoinSnoc(parts[1..], part, sep);
      assert (parts + [part])[1..] == parts[1..] + [part];
    } else {
      assert (parts + [part])[1..] == [part];
    }
  }

  /** The awk program that prints the replacement with the block's terminator. */
  method PrintNewLines(newText: Bytes, eol: nat) returns (out: Bytes)
    ensures out == Join(Records(newText), Separator(eol))
  {
    var records := Records(newText);
    out := [];
    for nr := 0 to |records|
      invariant out == Join(records[..nr], Separator(eol))
    {
      assert records[..nr + 1] == records[..nr] + [records[nr]];
      if nr > 0 {
        JoinSnoc(records[..nr], records[nr], Separator(eol));
        out := out + Separator(eol);
      }
      out := out + records[nr];
    }
    assert records[..|records|] == records;
  }

  lemma {:induction false} NumbersInFile(file: Bytes, n: nat, p: nat)
    requires 0 < n && p + n <= |Parse(file).lines|
    ensures var at := NumbersAt(Parse(file), n, p);
            at.start <= at.end <= |file| && at.deleteStart <= at.deleteEnd <= |file|
  {
    hide Parse, LinesBytes;
    var doc, last := Parse(file), p + n - 1;
    LineShape(file, last);
    StartMonotone(doc, p, last);
    if p > 0 { StartNext(doc, p - 1); }
  }

  lemma {:induction false} StartMonotone(doc: Doc, a: nat, b: nat)
    requires a <= b <= |doc.lines|
    ensures Start(doc, a) <= Start(doc, b)
  {
    assert doc.lines[..b] == doc.lines[..a] + doc.lines[a..b];
    LinesBytesConcat(doc.lines[..a], doc.lines[a..b]);
  }

  lemma {:induction false} LocatedInFile(num: AwkNumber, file: Bytes, block: seq<Bytes>)
    requires block != []
    ensures var at := Locate(num, Parse(file), block);
            at.Located? ==> at.start <= at.end <= |file| && at.deleteStart <= at.deleteEnd <= |file|
  {
    var found := Matches(num, Parse(file), block);
    if |found| == 1 {
      var p :| p in found && Locate(num, Parse(file), block) == NumbersAt(Parse(file), |block|, p);
      NumbersInFile(file, |block|, p);
    }
  }

  lemma SpliceNothing(file: Bytes, start: nat, end: nat)
    requires start <= end <= |file|
    ensures Splice(file, start, [], end) == file[..start] + file[end..]
  {
  }

  /** What the script leaves in the target, or how it stops. */
  ghost function Change(num: AwkNumber, target: Option<Bytes>, edit: TextEdit): Outcome {
    var block := Records(edit.oldText);
    if edit.oldText == [] then
      if target.Some? then TargetExists else Written(edit.newText)
    else if target.None? then TargetMissing
    else if |block| != |Split(edit.oldText)| || block == [] then BadEncoding
    else
      var file := target.value;
      LocatedInFile(num, file, block);
      match Locate(num, Parse(file), block)
      case Located(start, end, deleteStart, deleteEnd, eol) =>
        Written(if edit.newText == [] then Splice(file, deleteStart, [], deleteEnd)
                else Splice(file, start, Join(Records(edit.newText), Separator(eol)), end))
      case Conflict(matches) => Conflicted(matches)
      case EncodingInvalid => BadEncoding
  }

  method RunChange(num: AwkNumber, target: Option<Bytes>, edit: TextEdit) returns (r: Outcome)
    ensures r == Change(num, target, edit)
  {
    hide Parse, Records, Split, Join, Separator, Locate, Matches, Render;
    if edit.oldText == [] {
      return if target.Some? then TargetExists else Written(edit.newText);
    }
    if target.None? {
      return TargetMissing;
    }
    var file := target.value;
    var at := LocateBlock(num, file, edit.oldText, |Split(edit.oldText)|);
    if Records(edit.oldText) != [] { LocatedInFile(num, file, Records(edit.oldText)); }
    match at
    case EncodingInvalid => return BadEncoding;
    case Conflict(matches) => return Conflicted(matches);
    case Located(start, end, deleteStart, deleteEnd, eol) =>
      var spliceStart, spliceEnd := start, end;
      if edit.newText == [] {
        spliceStart, spliceEnd := deleteStart, deleteEnd;
      }
      var output := file[..spliceStart];
      if edit.newText != [] {
        var printed := PrintNewLines(edit.newText, eol);
        output := output + printed;
      }
      output := output + file[spliceEnd..];
      if edit.newText == [] { SpliceNothing(file, deleteStart, deleteEnd); }
      return Written(output);
  }

  // ---------- what a unique match does to the lines ----------

  /** Text that normalizeTextEditBlock leaves as it is. */
  ghost predicate Approved(text: Bytes) {
    !(BOM <= text) && CR !in text && !EndsWith(text, LF)
  }

  function NewLines(contents: seq<Bytes>, eol: Eol, final: Eol): seq<Line> {
    if contents == [] then []
    else [Line(contents[0], if |contents| == 1 then final else eol)] + NewLines(contents[1..], eol, final)
  }

  /** Lines p..p+n become the given ones: the block's terminator between them, the
      last block line's own terminator after the last. */
  function ReplacedDoc(doc: Doc, p: nat, n: nat, contents: seq<Bytes>): Doc
    requires 0 < n && p + n <= |doc.lines|
  {
    Doc(doc.bom, doc.lines[..p] + NewLines(contents, BlockEol(doc, p), doc.lines[p + n - 1].eol) + doc.lines[p + n..])
  }

  /** Removing lines p..p+n: an unterminated end takes the terminator before it
      along, and removing a whole unterminated file takes the BOM along. */
  function DeletedBytes(doc: Doc, p: nat, n: nat): Bytes
    requires 0 < n && p + n <= |doc.lines|
  {
    if doc.lines[p + n - 1].eol != NoEol then Render(Doc(doc.bom, doc.lines[..p] + doc.lines[p + n..]))
    else if p == 0 then []
    else Render(Doc(doc.bom, doc.lines[..p - 1] + [Line(doc.lines[p - 1].content, NoEol)]))
  }

  lemma {:induction false} RenderAt(doc: Doc, k: nat)
    requires k <= |doc.lines|
    ensures Start(doc, k) <= |Render(doc)|
    ensures Render(doc)[..Start(doc, k)] == BomBytes(doc.bom) + LinesBytes(doc.lines[..k])
    ensures Render(doc)[Start(doc, k)..] == LinesBytes(doc.lines[k..])
  {
    hide LinesBytes, BomBytes;
    assert doc.lines == doc.lines[..k] + doc.lines[k..];
    LinesBytesConcat(doc.lines[..k], doc.lines[k..]);
    assert Render(doc) == (BomBytes(doc.bom) + LinesBytes(doc.lines[..k])) + LinesBytes(doc.lines[k..]);
  }

  lemma {:induction false} CutIn(s: Bytes, a: nat, content: Bytes, rest: Bytes)
    requires a <= |s| && s[a..] == content + rest
    ensures a + |content| <= |s| && s[..a + |content|] == s[..a] + content && s[a + |content|..] == rest
  {
    assert s == s[..a] + (content + rest);
  }

  lemma FirstLineBytes(lines: seq<Line>)
    requires lines != []
    ensures LinesBytes(lines) == lines[0].content + (EolBytes(lines[0].eol) + LinesBytes(lines[1..]))
  {
  }

  lemma {:induction false} RenderContent(doc: Doc, k: nat)
    requires k < |doc.lines|
    ensures AfterEnd(doc, k) <= |Render(doc)|
    ensures Render(doc)[..ContentEnd(doc, k)] == Render(doc)[..Start(doc, k)] + doc.lines[k].content
    ensures Render(doc)[ContentEnd(doc, k)..] == EolBytes(doc.lines[k].eol) + LinesBytes(doc.lines[k + 1..])
  {
    RenderAt(doc, k);
    var line, rest := doc.lines[k], LinesBytes(doc.lines[k + 1..]);
    FirstLineBytes(doc.lines[k..]);
    assert doc.lines[k..][1..] == doc.lines[k + 1..];
    hide LinesBytes, BomBytes, Start, Render;
    CutIn(Render(doc), Start(doc, k), line.content, EolBytes(line.eol) + rest);
  }

  lemma {:induction false} NewLinesBytes(contents: seq<Bytes>, eol: Eol, final: Eol)
    requires contents != [] && eol != NoEol
    ensures LinesBytes(NewLines(contents, eol, final)) == Join(contents, EolBytes(eol)) + EolBytes(final)
  {
    if |contents| > 1 {
      NewLinesBytes(contents[1..], eol, final);
    } else {
      assert NewLines(contents[1..], eol, final) == [];
    }
  }

  lemma Regroup(bom: Bytes, before: Bytes, middle: Bytes, eol: Bytes, after: Bytes)
    ensures (bom + before) + middle + (eol + after) == bom + (before + (middle + eol) + after)
  {
  }

  lemma {:induction false} ReplacedBytes(doc: Doc, p: nat, n: nat, contents: seq<Bytes>)
    requires 0 < n && p + n <= |doc.lines| && contents != []
    requires BlockEol(doc, p) != NoEol
    ensures var at := NumbersAt(doc, n, p);
            && at.start <= at.end <= |Render(doc)|
            && Splice(Render(doc), at.start, Join(contents, Separator(at.eol)), at.end)
               == Render(ReplacedDoc(doc, p, n, contents))
  {
    var last, eol := p + n - 1, BlockEol(doc, p);
    var middle := NewLines(contents, eol, doc.lines[last].eol);
    var at := NumbersAt(doc, n, p);
    assert EolBytes(eol) == Separator(at.eol);
    hide LinesBytes, BomBytes, EolBytes, Separator, Start, ContentEnd, AfterEnd, Join, NewLines, BlockEol;
    RenderAt(doc, p);
    RenderContent(doc, last);
    StartMonotone(doc, p, last);
    NewLinesBytes(contents, eol, doc.lines[last].eol);
    LinesBytesConcat(doc.lines[..p] + middle, doc.lines[p + n..]);
    LinesBytesConcat(doc.lines[..p], middle);
    ContentAfterStart(doc, last);
    Regroup(BomBytes(doc.bom), LinesBytes(doc.lines[..p]), Join(contents, EolBytes(eol)),
            EolBytes(doc.lines[last].eol), LinesBytes(doc.lines[p + n..]));
  }

  lemma ContentAfterStart(doc: Doc, k: nat)
    requires k < |doc.lines|
    ensures Start(doc, k) <= ContentEnd(doc, k) <= AfterEnd(doc, k)
  {
  }

  lemma {:induction false} DeletedSplice(doc: Doc, p: nat, n: nat)
    requires 0 < n && p + n <= |doc.lines| && OnlyLastUnterminated(doc)
    ensures var at := NumbersAt(doc, n, p);
            && at.deleteStart <= at.deleteEnd <= |Render(doc)|
            && Splice(Render(doc), at.deleteStart, [], at.deleteEnd) == DeletedBytes(doc, p, n)
  {
    hide LinesBytes, BomBytes, Start, ContentEnd;
    var last := p + n - 1;
    RenderContent(doc, last);
    StartMonotone(doc, p, last);
    StartNext(doc, last);
    ContentAfterStart(doc, last);
    if doc.lines[last].eol != NoEol {
      DeletedTerminated(doc, p, p + n);
    } else {
      DeletedUnterminated(doc, p, n);
    }
  }

  lemma {:induction false} DeletedTerminated(doc: Doc, a: nat, b: nat)
    requires a <= b <= |doc.lines|
    ensures Start(doc, a) <= Start(doc, b) <= |Render(doc)|
    ensures Splice(Render(doc), Start(doc, a), [], Start(doc, b)) == Render(Doc(doc.bom, doc.lines[..a] + doc.lines[b..]))
  {
    hide LinesBytes, BomBytes, Start;
    RenderAt(doc, a);
    RenderAt(doc, b);
    StartMonotone(doc, a, b);
    LinesBytesConcat(doc.lines[..a], doc.lines[b..]);
    Regroup(BomBytes(doc.bom), LinesBytes(doc.lines[..a]), [], [], LinesBytes(doc.lines[b..]));
  }

  lemma {:induction false} DeletedUnterminated(doc: Doc, p: nat, n: nat)
    requires 0 < n && p + n == |doc.lines| && doc.lines[p + n - 1].eol == NoEol
    ensures var at := NumbersAt(doc, n, p);
            && at.deleteStart <= at.deleteEnd == |Render(doc)|
            && Render(doc)[..at.deleteStart] == DeletedBytes(doc, p, n)
  {
    UnterminatedNumbers(doc, p, n);
    hide *;
    if p == 0 { DeletedAll(doc, n); } else { DeletedTail(doc, p, n); }
  }

  lemma {:induction false} UnterminatedNumbers(doc: Doc, p: nat, n: nat)
    requires 0 < n && p + n == |doc.lines| && doc.lines[p + n - 1].eol == NoEol
    ensures var at := NumbersAt(doc, n, p);
            && at.deleteStart == (if p == 0 then 0 else ContentEnd(doc, p - 1))
            && at.deleteStart <= at.deleteEnd == |Render(doc)|
  {
    hide LinesBytes, BomBytes, Start, ContentEnd, Render, BlockEol;
    WholeFile(doc);
    StartNext(doc, p + n - 1);
    StartMonotone(doc, p, p + n - 1);
    ContentAfterStart(doc, p + n - 1);
    if p > 0 {
      StartNext(doc, p - 1);
      ContentAfterStart(doc, p - 1);
    }
  }

  lemma DeletedAll(doc: Doc, n: nat)
    requires 0 < n == |doc.lines| && doc.lines[n - 1].eol == NoEol
    ensures Render(doc)[..0] == DeletedBytes(doc, 0, n)
  {
  }

  lemma {:induction false} WholeFile(doc: Doc)
    ensures Start(doc, |doc.lines|) == |Render(doc)|
  {
    assert doc.lines[..|doc.lines|] == doc.lines;
  }

  lemma {:induction false} DeletedTail(doc: Doc, p: nat, n: nat)
    requires 0 < p && 0 < n && p + n == |doc.lines| && doc.lines[p + n - 1].eol == NoEol
    ensures ContentEnd(doc, p - 1) <= |Render(doc)|
    ensures Render(doc)[..ContentEnd(doc, p - 1)] == DeletedBytes(doc, p, n)
  {
    hide LinesBytes, BomBytes, EolBytes, Start, AfterEnd, ContentEnd;
    var content := doc.lines[p - 1].content;
    ContentAfterStart(doc, p - 1);
    RenderAt(doc, p - 1);
    RenderContent(doc, p - 1);
    LinesBytesConcat(doc.lines[..p - 1], [Line(content, NoEol)]);
    LinesBytesOfUnterminated(content);
    Regroup(BomBytes(doc.bom), LinesBytes(doc.lines[..p - 1]), content, [], []);
  }

  lemma {:induction false} LinesBytesOfUnterminated(content: Bytes)
    ensures LinesBytes([Line(content, NoEol)]) == content
  {
    LinesBytesCons(Line(content, NoEol), []);
    assert LinesBytes([]) == [];
  }

  // ---------- the edited file, read again ----------

  lemma {:induction false} ApprovedRecords(text: Bytes)
    requires Approved(text) && text != []
    ensures var lines := Records(text);
            && lines == Split(text) && lines != []
            && (forall line <- lines :: LF !in line && CR !in line)
            && lines[|lines| - 1] != []
            && !(BOM <= lines[0])
  {
    RecordsVersusSplit(text);
    SplitUnbroken(text);
    LastPart(text);
    FirstPart(text);
    var lines := Split(text);
    forall line | line in lines ensures CR !in line {
      var i :| 0 <= i < |lines| && lines[i] == line;
      SplitBytes(text, i);
    }
  }

  lemma {:induction false} NewLinesAt(contents: seq<Bytes>, eol: Eol, final: Eol, i: nat)
    requires i < |contents|
    ensures |NewLines(contents, eol, final)| == |contents|
    ensures NewLines(contents, eol, final)[i] == Line(contents[i], if i == |contents| - 1 then final else eol)
  {
    if |contents| == 1 {
      assert NewLines(contents[1..], eol, final) == [];
    } else {
      NewLinesAt(contents[1..], eol, final, if i == 0 then 0 else i - 1);
    }
  }

  lemma {:induction false} BomInLines(lines: seq<Line>)
    requires WellFormedLines(lines)
    ensures BOM <= LinesBytes(lines) <==> lines != [] && BOM <= lines[0].content
  {
    if lines != [] {
      WellFormedTail(lines);
      FirstLineBytes(lines);
      var content, s := lines[0].content, LinesBytes(lines);
      if lines[0].eol == NoEol { assert s == content; }
      if |content| < 3 && |s| >= 3 {
        assert s[|content|] == LF || s[|content|] == CR;
      }
    }
  }

  lemma WellFormedAt(lines: seq<Line>, k: nat)
    requires WellFormedLines(lines) && k < |lines|
    ensures WellFormedLine(lines[k], k == |lines| - 1)
  {
  }

  lemma BlockEolKnown(doc: Doc, p: nat)
    requires p < |doc.lines| && OnlyLastUnterminated(doc)
    ensures BlockEol(doc, p) != NoEol
  {
  }

  lemma {:induction false} ReplacedLinesWellFormed(doc: Doc, p: nat, n: nat, contents: seq<Bytes>)
    requires 0 < n && p + n <= |doc.lines| && WellFormedLines(doc.lines) && contents != []
    requires forall line <- contents :: LF !in line && CR !in line
    requires contents[|contents| - 1] != []
    ensures WellFormedLines(ReplacedDoc(doc, p, n, contents).lines)
  {
    var eol, final := BlockEol(doc, p), doc.lines[p + n - 1].eol;
    var all, m := ReplacedDoc(doc, p, n, contents).lines, |contents|;
    var middle := NewLines(contents, eol, final);
    WellFormedAt(doc.lines, p);
    NewLinesAt(contents, eol, final, 0);
    assert |all| == |doc.lines| - n + m;
    forall k | 0 <= k < |all| ensures WellFormedLine(all[k], k == |all| - 1) {
      if k < p {
        assert all[k] == doc.lines[k];
        WellFormedAt(doc.lines, k);
      } else if k < p + m {
        NewLinesAt(contents, eol, final, k - p);
        assert all[k] == middle[k - p];
        assert contents[k - p] in contents;
        WellFormedAt(doc.lines, p + n - 1);
        if p > 0 { WellFormedAt(doc.lines, p - 1); }
      } else {
        assert all[k] == doc.lines[k - m + n];
        WellFormedAt(doc.lines, k - m + n);
      }
    }
  }

  lemma {:induction false} ReplacedWellFormed(doc: Doc, p: nat, n: nat, newText: Bytes)
    requires 0 < n && p + n <= |doc.lines| && WellFormed(doc)
    requires Approved(newText) && newText != []
    ensures WellFormed(ReplacedDoc(doc, p, n, Records(newText)))
  {
    hide LinesBytes, Records;
    var contents := Records(newText);
    ApprovedRecords(newText);
    ReplacedLinesWellFormed(doc, p, n, contents);
    var all := ReplacedDoc(doc, p, n, contents).lines;
    NewLinesAt(contents, BlockEol(doc, p), doc.lines[p + n - 1].eol, 0);
    BomInLines(doc.lines);
    BomInLines(all);
    assert all[0] == if p > 0 then doc.lines[0] else NewLines(contents, BlockEol(doc, p), doc.lines[p + n - 1].eol)[0];
  }

  lemma {:induction false} EndsInLf(doc: Doc)
    requires WellFormedLines(doc.lines)
    ensures EndsWith(Render(doc), LF) <==> doc.lines != [] && doc.lines[|doc.lines| - 1].eol != NoEol
  {
    var m := |doc.lines|;
    if m > 0 {
      WellFormedAt(doc.lines, m - 1);
      LinesBytesSnoc(doc.lines, m - 1);
      assert doc.lines[..m] == doc.lines;
    }
  }

  /** A block of approved lines is never found in a file that is only a BOM. */
  lemma {:induction false} BomNeverMatches(num: AwkNumber, oldText: Bytes, p: nat)
    requires Approved(oldText) && oldText != []
    ensures p !in Matches(num, Parse(BOM), Records(oldText))
  {
    ApprovedRecords(oldText);
    var doc, block := Parse(BOM), Records(oldText);
    assert doc == Doc(true, [Line([], NoEol)]);
    assert p == 0 && |block| == 1 ==> !AwkEqual(num, doc.lines[p + 0].content, Untouched(doc, p + 0), block[0]);
  }

  lemma {:induction false} MatchedWellFormed(num: AwkNumber, file: Bytes, oldText: Bytes, p: nat)
    requires Approved(oldText) && oldText != []
    requires p in Matches(num, Parse(file), Records(oldText))
    ensures WellFormed(Parse(file)) && OnlyLastUnterminated(Parse(file))
  {
    ApprovedRecords(oldText);
    ParseRoundTrip(file);
    var doc, block := Parse(file), Records(oldText);
    BomNeverMatches(num, oldText, p);
    forall k | 0 <= k < |doc.lines| && doc.lines[k].eol == NoEol ensures k == |doc.lines| - 1 {
      LineShape(file, k);
    }
  }

  /** The target changes only on a unique match; otherwise the script reports how many
      blocks it found. */
  lemma {:induction false} WrittenIffUnique(num: AwkNumber, file: Bytes, edit: TextEdit)
    requires Approved(edit.oldText) && edit.oldText != []
    ensures var found := |Matches(num, Parse(file), Records(edit.oldText))|;
            var outcome := Change(num, Some(file), edit);
            if found == 1 then outcome.Written? else outcome == Conflicted(found)
  {
    hide Parse, NumbersAt, AwkBlockAt, Locate, MatchesBelow;
    ApprovedRecords(edit.oldText);
    LocateShape(num, Parse(file), Records(edit.oldText));
    LocatedInFile(num, file, Records(edit.oldText));
  }

  lemma {:induction false} UniqueMatch(num: AwkNumber, file: Bytes, oldText: Bytes, p: nat)
    requires Approved(oldText) && oldText != []
    requires Matches(num, Parse(file), Records(oldText)) == {p}
    ensures p + |Records(oldText)| <= |Parse(file).lines| && Records(oldText) != []
    ensures Records(oldText) == Split(oldText)
    ensures Locate(num, Parse(file), Records(oldText)) == NumbersAt(Parse(file), |Records(oldText)|, p)
  {
    ApprovedRecords(oldText);
    assert p in Matches(num, Parse(file), Records(oldText));
    OnlyMatch(num, Parse(file), Records(oldText), NumbersAt(Parse(file), |Records(oldText)|, p));
  }

  /** Replacement: only the block's lines change; BOM, other lines and the final
      newline stay. */
  lemma {:induction false} ReplacementRewritesTheBlock(num: AwkNumber, file: Bytes, edit: TextEdit, p: nat)
    requires Approved(edit.oldText) && edit.oldText != [] && Approved(edit.newText) && edit.newText != []
    requires Matches(num, Parse(file), Records(edit.oldText)) == {p}
    ensures p + |Records(edit.oldText)| <= |Parse(file).lines| && Records(edit.oldText) != []
    ensures var result := ReplacedDoc(Parse(file), p, |Records(edit.oldText)|, Records(edit.newText));
            && Change(num, Some(file), edit) == Written(Render(result))
            && Parse(Render(result)) == result
            && EndsWith(Render(result), LF) == EndsWith(file, LF)
  {
    hide Parse, LinesBytes, Records, Split, MatchesBelow, NumbersAt, Locate;
    var doc, block, contents := Parse(file), Records(edit.oldText), Records(edit.newText);
    UniqueMatch(num, file, edit.oldText, p);
    MatchedWellFormed(num, file, edit.oldText, p);
    ParseRoundTrip(file);
    ApprovedRecords(edit.newText);
    BlockEolKnown(doc, p);
    ReplacedBytes(doc, p, |block|, contents);
    ReplacedWellFormed(doc, p, |block|, edit.newText);
    var result := ReplacedDoc(doc, p, |block|, contents);
    ParseRender(result);
    EndsInLf(doc);
    EndsInLf(result);
    LastReplaced(doc, p, |block|, contents);
    LocatedInFile(num, file, block);
    ReplaceNumbers(doc, p, |block|);
  }

  lemma ReplaceNumbers(doc: Doc, p: nat, n: nat)
    requires 0 < n && p + n <= |doc.lines|
    ensures NumbersAt(doc, n, p).Located?
  {
  }

  lemma {:induction false} LastReplaced(doc: Doc, p: nat, n: nat, contents: seq<Bytes>)
    requires 0 < n && p + n <= |doc.lines| && contents != []
    ensures var all := ReplacedDoc(doc, p, n, contents).lines;
            all != [] && all[|all| - 1].eol == doc.lines[|doc.lines| - 1].eol
  {
    NewLinesAt(contents, BlockEol(doc, p), doc.lines[p + n - 1].eol, |contents| - 1);
    var all := ReplacedDoc(doc, p, n, contents).lines;
    if p + n < |doc.lines| {
      assert all[|all| - 1] == doc.lines[|doc.lines| - 1];
    } else {
      assert all[|all| - 1] == NewLines(contents, BlockEol(doc, p), doc.lines[p + n - 1].eol)[|contents| - 1];
    }
  }

  /** Deletion: the block's lines and one terminator go. */
  lemma {:induction false} DeletionRemovesTheBlock(num: AwkNumber, file: Bytes, edit: TextEdit, p: nat)
    requires Approved(edit.oldText) && edit.oldText != [] && edit.newText == []
    requires Matches(num, Parse(file), Records(edit.oldText)) == {p}
    ensures p + |Records(edit.oldText)| <= |Parse(file).lines| && Records(edit.oldText) != []
    ensures Change(num, Some(file), edit) == Written(DeletedBytes(Parse(file), p, |Records(edit.oldText)|))
  {
    hide Parse, LinesBytes, Records, Split, MatchesBelow, NumbersAt, Locate, DeletedBytes;
    var doc, block := Parse(file), Records(edit.oldText);
    UniqueMatch(num, file, edit.oldText, p);
    MatchedWellFormed(num, file, edit.oldText, p);
    ParseRoundTrip(file);
    DeletedSplice(doc, p, |block|);
    LocatedInFile(num, file, block);
    ReplaceNumbers(doc, p, |block|);
  }

  /** Deletion keeps the final-newline state except in two families: a terminated
      file that is deleted whole, and an unterminated end whose preceding line is
      empty and is not the first. */
  lemma {:induction false} DeletionFinalNewline(doc: Doc, p: nat, n: nat)
    requires 0 < n && p + n <= |doc.lines| && WellFormed(doc)
    ensures EndsWith(DeletedBytes(doc, p, n), LF) == EndsWith(Render(doc), LF)
       <==> if doc.lines[p + n - 1].eol == NoEol then !(p >= 2 && doc.lines[p - 1].content == [])
            else !(p == 0 && n == |doc.lines|)
  {
    EndsInLf(doc);
    WellFormedAt(doc.lines, p + n - 1);
    if doc.lines[p + n - 1].eol != NoEol {
      DeletedTerminatedNewline(doc, p, n);
    } else if p > 0 {
      UnterminatedEnd(doc, p);
    }
  }

  lemma {:induction false} DeletedTerminatedNewline(doc: Doc, p: nat, n: nat)
    requires 0 < n && p + n <= |doc.lines| && WellFormed(doc)
    requires doc.lines[p + n - 1].eol != NoEol
    ensures EndsWith(Render(Doc(doc.bom, doc.lines[..p] + doc.lines[p + n..])), LF)
       <==> if p + n < |doc.lines| then doc.lines[|doc.lines| - 1].eol != NoEol else p > 0
  {
    var kept := doc.lines[..p] + doc.lines[p + n..];
    assert DeletedDoc(doc, p, n) == Doc(doc.bom, kept) && WellFormedLines(doc.lines);
    hide *;
    DeletedDocLines(doc, p, n);
    EndsInLf(Doc(doc.bom, kept));
    if kept != [] {
      LastKept(doc, p, n);
    }
  }

  lemma {:induction false} LastKept(doc: Doc, p: nat, n: nat)
    requires 0 < n && p + n <= |doc.lines| && WellFormedLines(doc.lines) && doc.lines[p + n - 1].eol != NoEol
    requires doc.lines[..p] + doc.lines[p + n..] != []
    ensures var kept := doc.lines[..p] + doc.lines[p + n..];
      kept[|kept| - 1].eol != NoEol <==> if p + n < |doc.lines| then doc.lines[|doc.lines| - 1].eol != NoEol else p > 0
  {
    hide WellFormedLines;
    var kept := doc.lines[..p] + doc.lines[p + n..];
    var j := if p + n < |doc.lines| then |doc.lines| - 1 else p - 1;
    assert kept[|kept| - 1] == doc.lines[j];
    WellFormedAt(doc.lines, j);
  }

  lemma {:induction false} UnterminatedEnd(doc: Doc, p: nat)
    requires 0 < p < |doc.lines| && WellFormed(doc)
    ensures EndsWith(Render(Doc(doc.bom, doc.lines[..p - 1] + [Line(doc.lines[p - 1].content, NoEol)])), LF)
       <==> p >= 2 && doc.lines[p - 1].content == []
  {
    hide LinesBytes;
    var content := doc.lines[p - 1].content;
    var before := Doc(doc.bom, doc.lines[..p - 1]);
    WellFormedAt(doc.lines, p - 1);
    LinesBytesConcat(before.lines, [Line(content, NoEol)]);
    LinesBytesOfUnterminated(content);
    forall k | 0 <= k < |before.lines| ensures WellFormedLine(before.lines[k], k == |before.lines| - 1) {
      WellFormedAt(doc.lines, k);
    }
    if p >= 2 { WellFormedAt(doc.lines, p - 2); }
    EndsInLf(before);
    assert Render(Doc(doc.bom, before.lines + [Line(content, NoEol)])) == Render(before) + content;
  }

  /** Stated of a run: a deletion keeps the final-newline state except in those families. */
  lemma {:induction false} DeletionKeepsFinalNewlineExactly(num: AwkNumber, file: Bytes, edit: TextEdit, p: nat)
    requires Approved(edit.oldText) && edit.oldText != [] && edit.newText == []
    requires Matches(num, Parse(file), Records(edit.oldText)) == {p}
    ensures var doc, n := Parse(file), |Records(edit.oldText)|;
      && 0 < n && p + n <= |doc.lines| && Change(num, Some(file), edit).Written?
      && (EndsWith(Change(num, Some(file), edit).content, LF) == EndsWith(file, LF) <==>
            if doc.lines[p + n - 1].eol == NoEol then !(p >= 2 && doc.lines[p - 1].content == [])
            else !(p == 0 && n == |doc.lines|))
  {
    hide *;
    DeletionRemovesTheBlock(num, file, edit, p);
    MatchedAt(num, file, edit.oldText, p);
    ParseRoundTrip(file);
    DeletionFinalNewline(Parse(file), p, |Records(edit.oldText)|);
  }

  lemma {:induction false} MatchedAt(num: AwkNumber, file: Bytes, oldText: Bytes, p: nat)
    requires Approved(oldText) && oldText != []
    requires Matches(num, Parse(file), Records(oldText)) == {p}
    ensures WellFormed(Parse(file)) && OnlyLastUnterminated(Parse(file))
    ensures 0 < |Records(oldText)| && p + |Records(oldText)| <= |Parse(file).lines|
  {
    hide *;
    assert p in Matches(num, Parse(file), Records(oldText));
    MatchedWellFormed(num, file, oldText, p);
    UniqueMatch(num, file, oldText, p);
  }

  /** The document left by removing lines p..p+n; an empty line without a terminator is none. */
  function DeletedDoc(doc: Doc, p: nat, n: nat): Doc
    requires 0 < n && p + n <= |doc.lines|
  {
    if doc.lines[p + n - 1].eol != NoEol then Doc(doc.bom, doc.lines[..p] + doc.lines[p + n..])
    else if p == 0 then Doc(false, [])
    else if doc.lines[p - 1].content == [] then Doc(doc.bom, doc.lines[..p - 1])
    else Doc(doc.bom, doc.lines[..p - 1] + [Line(doc.lines[p - 1].content, NoEol)])
  }

  lemma {:induction false} DeletedDocBytes(doc: Doc, p: nat, n: nat)
    requires 0 < n && p + n <= |doc.lines|
    ensures Render(DeletedDoc(doc, p, n)) == DeletedBytes(doc, p, n)
  {
    if doc.lines[p + n - 1].eol == NoEol && p > 0 && doc.lines[p - 1].content == [] {
      hide LinesBytes;
      var before := doc.lines[..p - 1];
      LinesBytesConcat(before, [Line([], NoEol)]);
      LinesBytesOfUnterminated([]);
      assert LinesBytes(before) + [] == LinesBytes(before);
    }
  }

  lemma {:induction false} DeletedDocLines(doc: Doc, p: nat, n: nat)
    requires 0 < n && p + n <= |doc.lines| && WellFormedLines(doc.lines)
    ensures WellFormedLines(DeletedDoc(doc, p, n).lines)
    ensures var kept := DeletedDoc(doc, p, n).lines;
      kept != [] ==> kept[0].content == doc.lines[if p == 0 then n else 0].content && (p == 0 ==> n < |doc.lines|)
  {
    WellFormedAt(doc.lines, p + n - 1);
    if p > 0 { WellFormedAt(doc.lines, p - 1); }
    var kept := DeletedDoc(doc, p, n).lines;
    forall k | 0 <= k < |kept| ensures WellFormedLine(kept[k], k == |kept| - 1) {
      var j := if k < p then k else k + n;
      WellFormedAt(doc.lines, j);
    }
  }

  /** A document with sound lines reads back unless it is a mark without lines or its first
      line starts with the bytes of a mark that it does not have. */
  lemma {:induction false} ReadsBackExactly(doc: Doc)
    requires WellFormedLines(doc.lines)
    ensures Parse(Render(doc)) == doc <==>
      && !(doc.bom && doc.lines == [])
      && !(!doc.bom && doc.lines != [] && BOM <= doc.lines[0].content)
  {
    BomInLines(doc.lines);
    if WellFormed(doc) {
      ParseRender(doc);
    } else if doc.bom {
      assert Render(doc) == BOM;
    } else {
      assert Render(doc) == LinesBytes(doc.lines);
    }
  }

  /** What a deletion writes reads back as the file without the block's lines, except when
      nothing but the BOM is left, or when the block began a file without a BOM and the line
      that follows it, now the first, starts with the three bytes of one. */
  lemma {:induction false} DeletionReadsBackExactly(num: AwkNumber, file: Bytes, edit: TextEdit, p: nat)
    requires Approved(edit.oldText) && edit.oldText != [] && edit.newText == []
    requires Matches(num, Parse(file), Records(edit.oldText)) == {p}
    ensures var doc, n := Parse(file), |Records(edit.oldText)|;
      && 0 < n && p + n <= |doc.lines|
      && var left := DeletedDoc(doc, p, n);
         && Change(num, Some(file), edit) == Written(Render(left))
         && (Parse(Render(left)) == left <==>
               && !(left.bom && left.lines == [])
               && !(!doc.bom && p == 0 && n < |doc.lines| && BOM <= doc.lines[n].content))
  {
    hide *;
    DeletionRemovesTheBlock(num, file, edit, p);
    MatchedAt(num, file, edit.oldText, p);
    var doc, n := Parse(file), |Records(edit.oldText)|;
    DeletedDocBytes(doc, p, n);
    LeftReadsBack(doc, p, n);
  }

  lemma {:induction false} LeftReadsBack(doc: Doc, p: nat, n: nat)
    requires 0 < n && p + n <= |doc.lines| && WellFormed(doc)
    ensures var left := DeletedDoc(doc, p, n);
      Parse(Render(left)) == left <==>
        && !(left.bom && left.lines == [])
        && !(!doc.bom && p == 0 && n < |doc.lines| && BOM <= doc.lines[n].content)
  {
    hide Parse, Render, LinesBytes, WellFormedLines;
    DeletedDocLines(doc, p, n);
    ReadsBackExactly(DeletedDoc(doc, p, n));
    BomInLines(doc.lines);
    if p == 0 && n < |doc.lines| { LaterLines(doc, n); }
  }

  lemma {:induction false} LaterLines(doc: Doc, n: nat)
    requires 0 < n < |doc.lines| && WellFormedLines(doc.lines)
    ensures doc.lines[n - 1].eol != NoEol && DeletedDoc(doc, 0, n) == Doc(doc.bom, doc.lines[n..])
  {
    WellFormedAt(doc.lines, n - 1);
    assert [] + doc.lines[n..] == doc.lines[n..];
  }

  // ---------- undoing an edit ----------

  /** The terminator the reverse edit will put between the restored lines. */
  function UndoEol(doc: Doc, p: nat, n: nat, newCount: nat): Eol
    requires 0 < n && p + n <= |doc.lines|
  {
    var final := doc.lines[p + n - 1].eol;
    if newCount > 1 then BlockEol(doc, p)
    else if final != NoEol then final
    else if p > 0 then doc.lines[p - 1].eol
    else Lf
  }

  predicate Fits(line: Line, content: Bytes, last: bool, eol: Eol) { line.content == content && (!last ==> line.eol == eol) }

  /** The block stands at p byte for byte, with one terminator between its lines. */
  ghost predicate RestorableBlock(doc: Doc, p: nat, block: seq<Bytes>, eol: Eol) {
    && p + |block| <= |doc.lines|
    && forall i :: 0 <= i < |block| ==> Fits(doc.lines[p + i], block[i], i == |block| - 1, eol)
  }

  lemma {:induction false} ReverseDoc(doc: Doc, p: nat, n: nat, contents: seq<Bytes>, block: seq<Bytes>)
    requires 0 < n && p + n <= |doc.lines| && contents != [] && |block| == n
    requires OnlyLastUnterminated(doc)
    ensures var after := ReplacedDoc(doc, p, n, contents);
            && p + |contents| <= |after.lines|
            && ReplacedDoc(after, p, |contents|, block)
               == Doc(doc.bom, doc.lines[..p]
                               + NewLines(block, UndoEol(doc, p, n, |contents|), doc.lines[p + n - 1].eol)
                               + doc.lines[p + n..])
  {
    var after, m := ReplacedDoc(doc, p, n, contents), |contents|;
    var eol, final := BlockEol(doc, p), doc.lines[p + n - 1].eol;
    BlockEolKnown(doc, p);
    NewLinesAt(contents, eol, final, 0);
    NewLinesAt(contents, eol, final, m - 1);
    assert after.lines[..p] == doc.lines[..p] && after.lines[p + m..] == doc.lines[p + n..];
    assert after.lines[p] == NewLines(contents, eol, final)[0];
    assert after.lines[p + m - 1] == NewLines(contents, eol, final)[m - 1];
    if p > 0 { assert after.lines[p - 1] == doc.lines[p - 1]; }
  }

  /** The lines have these contents, with one terminator between them. */
  ghost predicate Spell(lines: seq<Line>, block: seq<Bytes>, eol: Eol)
    requires |lines| == |block|
  {
    forall i :: 0 <= i < |block| ==> Fits(lines[i], block[i], i == |block| - 1, eol)
  }

  lemma {:induction false} NewLinesMatch(lines: seq<Line>, block: seq<Bytes>, eol: Eol)
    requires |lines| == |block| > 0
    ensures NewLines(block, eol, lines[|lines| - 1].eol) == lines
       <==> Spell(lines, block, eol)
  {
    var made := NewLines(block, eol, lines[|lines| - 1].eol);
    forall i | 0 <= i < |block|
      ensures |made| == |block|
      ensures made[i] == lines[i] <==> Fits(lines[i], block[i], i == |block| - 1, eol)
    {
      NewLinesAt(block, eol, lines[|lines| - 1].eol, i);
    }
  }

  lemma {:induction false} ReplacementIsFound(num: AwkNumber, doc: Doc, p: nat, n: nat, contents: seq<Bytes>)
    requires 0 < n && p + n <= |doc.lines| && contents != []
    ensures p in Matches(num, ReplacedDoc(doc, p, n, contents), contents)
  {
    var after := ReplacedDoc(doc, p, n, contents);
    var eol, final := BlockEol(doc, p), doc.lines[p + n - 1].eol;
    forall i | 0 <= i < |contents| ensures p + i < |after.lines| && after.lines[p + i].content == contents[i] {
      NewLinesAt(contents, eol, final, i);
      assert after.lines[p + i] == NewLines(contents, eol, final)[i];
    }
    NewLinesAt(contents, eol, final, 0);
    assert AwkBlockAt(num, after, contents, p);
  }

  /** The reverse edit, where it applies at all, gives back the original bytes exactly
      when the block was there byte for byte and all its inner terminators are the one
      the reverse edit uses. */
  lemma {:induction false} UndoRestores(num: AwkNumber, file: Bytes, edit: TextEdit, p: nat)
    requires Approved(edit.oldText) && edit.oldText != [] && Approved(edit.newText) && edit.newText != []
    requires Matches(num, Parse(file), Records(edit.oldText)) == {p}
    requires Change(num, Some(file), edit).Written?
    requires |Matches(num, Parse(Change(num, Some(file), edit).content), Records(edit.newText))| == 1
    ensures p + |Records(edit.oldText)| <= |Parse(file).lines| && Records(edit.oldText) != []
    ensures
      var block, doc := Records(edit.oldText), Parse(file);
      var after := Change(num, Some(file), edit).content;
      Change(num, Some(after), TextEdit(edit.newText, edit.oldText)) == Written(file)
      <==> RestorableBlock(doc, p, block, UndoEol(doc, p, |block|, |Records(edit.newText)|))
  {
    hide Parse, LinesBytes, Records, Split, MatchesBelow, NumbersAt, Locate, Change, WellFormed, ReplacedDoc,
         NewLines, UndoEol, RestorableBlock;
    var doc, block, contents := Parse(file), Records(edit.oldText), Records(edit.newText);
    ReplacementRewritesTheBlock(num, file, edit, p);
    MatchedWellFormed(num, file, edit.oldText, p);
    ApprovedRecords(edit.newText);
    var after := ReplacedDoc(doc, p, |block|, contents);
    ReplacementIsFound(num, doc, p, |block|, contents);
    OneElement(Matches(num, after, contents), p);
    var back := TextEdit(edit.newText, edit.oldText);
    ReplacementRewritesTheBlock(num, Render(after), back, p);
    ReverseDoc(doc, p, |block|, contents, block);
    ParseRoundTrip(file);
    SameDocument(doc, p, |block|, block, UndoEol(doc, p, |block|, |contents|));
    var restored := ReplacedDoc(after, p, |contents|, block);
    assert Parse(Render(after)) == after && Parse(Render(restored)) == restored;
    assert Render(restored) == file <==> restored == doc;
  }

  lemma {:induction false} OneElement(s: set<nat>, p: nat)
    requires |s| == 1 && p in s
    ensures s == {p}
  {
    assert |s - {p}| == 0;
    assert s == {p} + (s - {p});
  }

  lemma {:induction false} SameDocument(doc: Doc, p: nat, n: nat, block: seq<Bytes>, eol: Eol)
    requires 0 < n == |block| && p + n <= |doc.lines|
    ensures Doc(doc.bom, doc.lines[..p] + NewLines(block, eol, doc.lines[p + n - 1].eol) + doc.lines[p + n..]) == doc
       <==> RestorableBlock(doc, p, block, eol)
  {
    var lines := doc.lines[p..p + n];
    var made := NewLines(block, eol, doc.lines[p + n - 1].eol);
    assert lines[n - 1] == doc.lines[p + n - 1];
    NewLinesAt(block, eol, doc.lines[p + n - 1].eol, 0);
    hide *;
    NewLinesMatch(lines, block, eol);
    SameMiddle(doc.lines, p, p + n, made);
    RestorableLines(doc, p, block, eol);
  }

  lemma {:induction false} RestorableLines(doc: Doc, p: nat, block: seq<Bytes>, eol: Eol)
    requires p + |block| <= |doc.lines|
    ensures RestorableBlock(doc, p, block, eol) <==> Spell(doc.lines[p..p + |block|], block, eol)
  {
    var lines := doc.lines[p..p + |block|];
    if RestorableBlock(doc, p, block, eol) {
      forall i | 0 <= i < |block|
        ensures Fits(lines[i], block[i], i == |block| - 1, eol)
      {
        assert lines[i] == doc.lines[p + i];
      }
      assert Spell(lines, block, eol);
    }
    if Spell(lines, block, eol) {
      forall i | 0 <= i < |block|
        ensures Fits(doc.lines[p + i], block[i], i == |block| - 1, eol)
      {
        assert lines[i] == doc.lines[p + i];
      }
      assert RestorableBlock(doc, p, block, eol);
    }
  }

  lemma {:induction false} SameMiddle(lines: seq<Line>, a: nat, b: nat, middle: seq<Line>)
    requires a <= b <= |lines| && |middle| == b - a
    ensures lines[..a] + middle + lines[b..] == lines <==> middle == lines[a..b]
  {
    var all := lines[..a] + middle + lines[b..];
    assert all[a..b] == middle;
    assert lines == lines[..a] + lines[a..b] + lines[b..];
  }

  const GAPPED := Doc(false, [Line([97], Lf), Line([], Lf), Line([98], NoEol)])

  lemma {:induction false} GappedBytes()
    ensures Render(GAPPED) == [97, LF, LF, 98] && Parse([97, LF, LF, 98]) == GAPPED
  {
    ThreeLines(GAPPED.lines);
    BomInLines(GAPPED.lines);
    ParseRender(GAPPED);
  }

  lemma {:induction false} GappedCut()
    ensures DeletedBytes(GAPPED, 2, 1) == [97, LF]
  {
    var kept := [Line([97], Lf), Line([], NoEol)];
    assert GAPPED.lines[..1] + [Line([], NoEol)] == kept;
    TwoLines(kept);
    assert LineBytes(kept[0]) + LineBytes(kept[1]) == [97, LF];
    hide LinesBytes;
  }

  /** "a", "", "b" without a final newline: the edit that deletes "b" leaves a final newline,
      as long as "b" does not look like a number. */
  lemma {:induction false} DeletionCanAddFinalNewline(num: AwkNumber)
    requires num([98]).None?
    ensures var file, edit := [97, LF, LF, 98], TextEdit([98], []);
      && Change(num, Some(file), edit) == Written([97, LF])
      && !EndsWith(file, LF) && EndsWith([97, LF], LF)
  {
    hide Parse, Render, Records, Matches, Change, DeletedBytes, Approved;
    GappedBytes();
    GappedCut();
    OneByteBlock();
    OnlyTheThird(num, GAPPED);
    DeletionRemovesTheBlock(num, [97, LF, LF, 98], TextEdit([98], []), 2);
  }

  lemma {:induction false} ThreeLines(lines: seq<Line>)
    requires |lines| == 3
    ensures LinesBytes(lines) == LineBytes(lines[0]) + (LineBytes(lines[1]) + LineBytes(lines[2]))
  {
    assert lines == [lines[0]] + lines[1..] && lines[1..] == [lines[1], lines[2]];
    LinesBytesCons(lines[0], lines[1..]);
    TwoLines(lines[1..]);
  }

  lemma {:induction false} TwoLines(lines: seq<Line>)
    requires |lines| == 2
    ensures LinesBytes(lines) == LineBytes(lines[0]) + LineBytes(lines[1])
  {
    assert lines == [lines[0]] + [lines[1]] && [lines[1]] == [lines[1]] + [];
    LinesBytesCons(lines[0], [lines[1]]);
    LinesBytesCons(lines[1], []);
  }

  lemma {:induction false} OneByteBlock()
    ensures Records([98]) == [[98]] && Approved([98])
  {
    var text: Bytes := [98];
    assert text[..1] == text;
    LineLengthUnique(text, 1);
  }

  lemma {:induction false} OnlyTheThird(num: AwkNumber, doc: Doc)
    requires doc == Doc(false, [Line([97], Lf), Line([], Lf), Line([98], NoEol)]) && num([98]).None?
    ensures Matches(num, doc, [[98]]) == {2}
  {
    forall p: nat ensures AwkBlockAt(num, doc, [[98]], p) <==> p == 2 {
      if p < 3 { OneLineMatches(num, doc, [98], p); }
    }
  }

  lemma {:induction false} OneLineMatches(num: AwkNumber, doc: Doc, line: Bytes, p: nat)
    requires p < |doc.lines| && num(line).None?
    ensures AwkBlockAt(num, doc, [line], p) <==> doc.lines[p].content == line
  {
    if AwkBlockAt(num, doc, [line], p) {
      assert AwkEqual(num, doc.lines[p + 0].content, Untouched(doc, p + 0), [line][0]);
    }
  }
}
