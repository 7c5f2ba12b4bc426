/** The awk pass that finds the approved block in the current file and prints the
    five byte offsets of the splice. */
module TextEditLocator {
  import opened ByteText
  import opened FileLines
  import opened Wrappers

  /** How awk reads a whole input record as a number, if it looks like one. The
      reading itself (C locale, floating point) stays a parameter. */
  type AwkNumber = Bytes -> Option<real>

  /** awk's == between a window entry and a line of the approved block. The block
      comes from getline, so it is a numeric string when it looks like a number.
      A window entry is one too when it is $0 itself, but is a plain string when
      substr has cut a BOM or a CR from it. Two numeric strings compare as numbers. */
  predicate AwkEqual(num: AwkNumber, entry: Bytes, untouched: bool, expected: Bytes) {
    if untouched && num(entry).Some? && num(expected).Some?
    then num(entry).value == num(expected).value
    else entry == expected
  }

  datatype LocateResult =
    | EncodingInvalid                     // exit 76
    | Conflict(matches: nat)              // exit 75
    | Located(start: nat, end: nat, deleteStart: nat, deleteEnd: nat, eol: nat)

  // ---------- what the pass should compute ----------

  predicate Untouched(doc: Doc, k: nat)
    requires k < |doc.lines|
  {
    doc.lines[k].eol != CrLf && !(k == 0 && doc.bom)
  }

  ghost predicate AwkBlockAt(num: AwkNumber, doc: Doc, block: seq<Bytes>, p: nat) {
    && p + |block| <= |doc.lines|
    && forall i :: 0 <= i < |block| ==>
         AwkEqual(num, doc.lines[p + i].content, Untouched(doc, p + i), block[i])
  }

  ghost predicate BlockAt(doc: Doc, block: seq<Bytes>, p: nat) {
    && p + |block| <= |doc.lines|
    && forall i :: 0 <= i < |block| ==> doc.lines[p + i].content == block[i]
  }

  /** Positions before hi where awk's comparison finds the block, overlaps included. */
  ghost function MatchesBelow(num: AwkNumber, doc: Doc, block: seq<Bytes>, hi: nat): set<nat> {
    set p: nat | p < hi && AwkBlockAt(num, doc, block, p)
  }

  ghost function Matches(num: AwkNumber, doc: Doc, block: seq<Bytes>): set<nat> {
    MatchesBelow(num, doc, block, |doc.lines| + 1)
  }

  /** Positions where the file holds the block byte for byte. */
  ghost function ExactMatches(doc: Doc, block: seq<Bytes>): set<nat> {
    set p: nat | p < |doc.lines| + 1 && BlockAt(doc, block, p)
  }

  /** Where the content before line k ends: 0 for the first line, even after a BOM. */
  function Before(doc: Doc, k: nat): nat
    requires k <= |doc.lines|
  {
    if k == 0 then 0 else ContentEnd(doc, k - 1)
  }

  /** The terminator new lines get: the block's first one, else the one before the
      block, else LF. */
  function BlockEol(doc: Doc, p: nat): Eol
    requires p < |doc.lines|
  {
    if doc.lines[p].eol != NoEol then doc.lines[p].eol
    else if p > 0 then doc.lines[p - 1].eol
    else Lf
  }

  function NumbersAt(doc: Doc, n: nat, p: nat): LocateResult
    requires 0 < n && p + n <= |doc.lines|
  {
    var last := p + n - 1;
    Located(
      Start(doc, p), ContentEnd(doc, last),
      if doc.lines[last].eol == NoEol && Start(doc, p) > 0 then Before(doc, p) else Start(doc, p),
      AfterEnd(doc, last),
      if BlockEol(doc, p) == CrLf then 2 else 1)
  }

  ghost function Locate(num: AwkNumber, doc: Doc, block: seq<Bytes>): LocateResult
    requires block != []
  {
    var found := Matches(num, doc, block);
    if |found| == 1 then
      var p :| p in found;
      NumbersAt(doc, |block|, p)
    else Conflict(|found|)
  }

  lemma LocateShape(num: AwkNumber, doc: Doc, block: seq<Bytes>)
    requires block != []
    ensures var found := |Matches(num, doc, block)|;
            if found == 1 then Locate(num, doc, block).Located? else Locate(num, doc, block) == Conflict(found)
  {
  }

  // ---------- records and document lines ----------

  function RawOf(line: Line): Bytes {
    line.content + if line.eol == CrLf then [CR] else []
  }

  lemma {:induction false} TerminatedRaw(raw: Bytes)
    ensures RawOf(TerminatedLine(raw)) == raw
  {
    if EndsWith(raw, CR) { assert raw == raw[..|raw| - 1] + [CR]; }
  }

  lemma {:induction false} FirstRecord(s: Bytes)
    requires s != []
    ensures var i := LineLength(s);
            if i == |s| then Records(s) == [s] && ParseLines(s) == [Line(s, NoEol)]
            else Records(s) == [s[..i]] + Records(s[i + 1..])
                 && ParseLines(s) == [TerminatedLine(s[..i])] + ParseLines(s[i + 1..])
  {
    FirstLine(s);
  }

  lemma {:induction false} RecordsAreLines(s: Bytes, k: nat)
    ensures |Records(s)| == |ParseLines(s)|
    ensures k < |Records(s)| ==> Records(s)[k] == RawOf(ParseLines(s)[k])
    decreases |s|
  {
    if s != [] {
      var i := LineLength(s);
      FirstRecord(s);
      if i < |s| {
        var t := s[i + 1..];
        RecordsAreLines(t, if k == 0 then 0 else k - 1);
        TerminatedRaw(s[..i]);
      }
    }
  }

  lemma {:induction false} RecordsAfterBom(t: Bytes)
    requires t != []
    ensures Records(t) != []
    ensures Records(BOM + t) == [BOM + Records(t)[0]] + Records(t)[1..]
  {
    var s, i := BOM + t, LineLength(t);
    FirstLine(t);
    assert s[..i + 3] == BOM + t[..i];
    LineLengthUnique(s, i + 3);
    if i < |t| { assert s[i + 4..] == t[i + 1..]; }
  }

  lemma {:induction false} RecordsOfBom()
    ensures Records(BOM) == [BOM]
  {
    assert BOM[..3] == BOM;
    LineLengthUnique(BOM, 3);
  }

  lemma {:induction false} RecordOf(file: Bytes, k: nat)
    ensures |Records(file)| == |Parse(file).lines|
    ensures k < |Records(file)| ==>
              Records(file)[k] == BomBytes(k == 0 && Parse(file).bom) + RawOf(Parse(file).lines[k])
  {
    hide Records, ParseLines;
    if file == BOM {
      RecordsOfBom();
      assert RawOf(Line([], NoEol)) == [] && BOM + [] == BOM;
    } else if BOM <= file {
      var t := file[3..];
      assert file == BOM + t && Parse(file) == Doc(true, ParseLines(t));
      hide Parse, RawOf;
      RecordsAfterBom(t);
      RecordsAreLines(t, k);
    } else {
      assert Parse(file) == Doc(false, ParseLines(file));
      hide Parse, RawOf;
      RecordsAreLines(file, k);
      if k < |Records(file)| { assert [] + Records(file)[k] == Records(file)[k]; }
    }
  }

  /** Only the last line of a parsed file can lack a terminator, and it ends the file. */
  lemma {:induction false} LineShape(file: Bytes, k: nat)
    requires k < |Parse(file).lines|
    ensures var doc := Parse(file);
            && (doc.lines[k].eol == NoEol ==> k == |doc.lines| - 1)
            && (doc.lines[k].eol == Lf ==> !EndsWith(doc.lines[k].content, CR))
            && (AfterEnd(doc, k) <= |file|)
            && (doc.lines[k].eol == NoEol <==> ContentEnd(doc, k) == |file|)
  {
    var doc := Parse(file);
    ParseRoundTrip(file);
    if file == BOM {
      assert LinesBytes([]) == [];
    } else {
      assert WellFormedLine(doc.lines[k], k == |doc.lines| - 1);
      LinesBytesConcat(doc.lines[..k + 1], doc.lines[k + 1..]);
      assert doc.lines == doc.lines[..k + 1] + doc.lines[k + 1..];
      StartNext(doc, k);
      if k == |doc.lines| - 1 { assert doc.lines[k + 1..] == []; }
    }
  }

  // ---------- the pass itself ----------

  /** One entry of the parallel awk arrays window, starts, content_ends, after_ends,
      before_ends and eols, with awk's knowledge of whether the text is still $0. */
  datatype Slot = Slot(text: Bytes, untouched: bool, start: nat, contentEnd: nat, afterEnd: nat, before: nat, eol: nat)

  function SlotOf(doc: Doc, k: nat): Slot
    requires k < |doc.lines|
  {
    Slot(doc.lines[k].content, Untouched(doc, k), Start(doc, k), ContentEnd(doc, k), AfterEnd(doc, k),
         Before(doc, k), |EolBytes(doc.lines[k].eol)|)
  }

  function RecordStart(doc: Doc, k: nat): nat
    requires k <= |doc.lines|
  {
    if k == 0 then 0 else Start(doc, k)
  }

  /** What raw, the record of line k, tells about that line. */
  ghost predicate RecordFacts(raw: Bytes, doc: Doc, k: nat, fileSize: nat) {
    && k < |doc.lines|
    && raw == BomBytes(k == 0 && doc.bom) + RawOf(doc.lines[k])
    && (RecordStart(doc, k) + |raw| < fileSize <==> doc.lines[k].eol != NoEol)
    && (doc.lines[k].eol == Lf ==> !EndsWith(doc.lines[k].content, CR))
    && (k == 0 && !doc.bom ==> !(BOM <= doc.lines[k].content))
  }

  lemma {:induction false} RecordFactsHold(file: Bytes, k: nat)
    requires k < |Records(file)|
    ensures RecordFacts(Records(file)[k], Parse(file), k, |file|)
  {
    RecordOf(file, k);
    LineShape(file, k);
    RecordNewline(file, k);
    var doc := Parse(file);
    if k == 0 && !doc.bom {
      ParseRoundTrip(file);
      assert file == doc.lines[0].content + EolBytes(doc.lines[0].eol) + LinesBytes(doc.lines[1..]);
    }
  }

  /** The body of the awk rule up to the ring update. */
  method ReadRecord(fileSize: nat, raw: Bytes, nr: nat, byteOffset: nat, previousContentEnd: nat, ghost doc: Doc)
    returns (slot: Slot)
    requires RecordFacts(raw, doc, nr, fileSize)
    requires byteOffset == RecordStart(doc, nr)
    requires previousContentEnd == Before(doc, nr)
    ensures slot == SlotOf(doc, nr)
  {
    var recordHasNewline := byteOffset + |raw| < fileSize;
    var hasCrLf := recordHasNewline && |raw| > 0 && raw[|raw| - 1] == CR;
    var normalized := if hasCrLf then raw[..|raw| - 1] else raw;
    assert normalized == BomBytes(nr == 0 && doc.bom) + doc.lines[nr].content;
    var untouched := !hasCrLf;
    var lineStart := byteOffset;
    if nr == 0 && |normalized| >= 3 && normalized[..3] == BOM {
      normalized := normalized[3..];
      untouched := false;
      lineStart := lineStart + 3;
    }
    var lineContentEnd := byteOffset + |raw| - (if hasCrLf then 1 else 0);
    var lineAfterEnd := byteOffset + |raw| + (if recordHasNewline then 1 else 0);
    LineStart(doc, nr);
    slot := Slot(normalized, untouched, lineStart, lineContentEnd, lineAfterEnd, previousContentEnd,
                 if hasCrLf then 2 else if recordHasNewline then 1 else 0);
  }

  /** The ring holds the slots of the last |ring| lines read. */
  ghost predicate RingHolds(ring: seq<Slot>, doc: Doc, nr: nat) {
    && |ring| > 0 && nr <= |doc.lines|
    && forall j :: 0 <= j < nr && nr - |ring| <= j ==> ring[j % |ring|] == SlotOf(doc, j)
  }

  /** The comparison loop over the ring for the block ending at the record just read. */
  method CompareWindow(num: AwkNumber, ring: array<Slot>, block: seq<Bytes>, nr: nat, ghost doc: Doc)
    returns (matched: bool)
    requires 0 < |block| == ring.Length && |block| <= nr <= |doc.lines|
    requires RingHolds(ring[..], doc, nr)
    ensures matched == AwkBlockAt(num, doc, block, nr - |block|)
  {
    var n := |block|;
    matched := true;
    for offset := 1 to n + 1
      invariant matched
      invariant forall i :: 0 <= i < offset - 1 ==>
                  AwkEqual(num, doc.lines[nr - n + i].content, Untouched(doc, nr - n + i), block[i])
    {
      var slot := ring[(nr - n + offset - 1) % n];
      if !AwkEqual(num, slot.text, slot.untouched, block[offset - 1]) {
        matched := false;
        break;
      }
    }
  }

  ghost predicate OnlyLastUnterminated(doc: Doc) {
    forall k :: 0 <= k < |doc.lines| && doc.lines[k].eol == NoEol ==> k == |doc.lines| - 1
  }

  /** The loop that keeps the first terminator of the matched lines. */
  method FirstEol(ring: array<Slot>, n: nat, nr: nat, ghost doc: Doc) returns (eol: nat)
    requires 0 < n == ring.Length && n <= nr <= |doc.lines| && OnlyLastUnterminated(doc)
    requires RingHolds(ring[..], doc, nr)
    ensures eol == |EolBytes(doc.lines[nr - n].eol)|
  {
    eol := 0;
    for offset := 1 to n + 1
      invariant offset == 1 ==> eol == 0
      invariant offset > 1 ==> eol == |EolBytes(doc.lines[nr - n].eol)|
    {
      var slot := ring[(nr - n + offset - 1) % n];
      if eol == 0 && slot.eol > 0 {
        eol := slot.eol;
      }
    }
  }

  /** The branch taken on a match. */
  method MatchNumbers(ring: array<Slot>, n: nat, nr: nat, ghost doc: Doc)
    returns (printed: LocateResult)
    requires 0 < n == ring.Length && n <= nr <= |doc.lines| && OnlyLastUnterminated(doc)
    requires RingHolds(ring[..], doc, nr)
    ensures printed == NumbersAt(doc, n, nr - n)
  {
    hide *;
    WindowEnds(ring[..], doc, nr, n);
    var first, final := ring[(nr - n) % n], ring[(nr - 1) % n];
    var start, end := first.start, final.contentEnd;
    var deleteStart, deleteEnd := start, final.contentEnd;
    if final.afterEnd > final.contentEnd {
      deleteEnd := final.afterEnd;
    } else if start > 0 {
      deleteStart := first.before;
    }
    var eol := FirstEol(ring, n, nr, doc);
    NumbersOfSlots(doc, n, nr - n, eol);
    if eol == 0 && start > first.before {
      eol := start - first.before;
    }
    if eol != 2 {
      eol := 1;
    }
    printed := Located(start, end, deleteStart, deleteEnd, eol);
  }

  lemma {:induction false} NumbersOfSlots(doc: Doc, n: nat, p: nat, own: nat)
    requires 0 < n && p + n <= |doc.lines| && OnlyLastUnterminated(doc) && own == |EolBytes(doc.lines[p].eol)|
    ensures
      var first, final := SlotOf(doc, p), SlotOf(doc, p + n - 1);
      var eol := if own == 0 && first.start > first.before then first.start - first.before else own;
      NumbersAt(doc, n, p) == Located(
        first.start, final.contentEnd,
        if final.afterEnd > final.contentEnd || first.start == 0 then first.start else first.before,
        if final.afterEnd > final.contentEnd then final.afterEnd else final.contentEnd,
        if eol != 2 then 1 else 2)
  {
    EolRule(doc, p);
    EndOfLine(doc, p + n - 1);
    hide Start, ContentEnd, AfterEnd, Before, BlockEol, OnlyLastUnterminated;
  }

  lemma {:induction false} WindowEnds(ring: seq<Slot>, doc: Doc, nr: nat, n: nat)
    requires 0 < n == |ring| && n <= nr <= |doc.lines| && RingHolds(ring, doc, nr)
    ensures 0 <= (nr - n) % n < n && 0 <= (nr - 1) % n < n
    ensures ring[(nr - n) % n] == SlotOf(doc, nr - n) && ring[(nr - 1) % n] == SlotOf(doc, nr - 1)
  {
    SlotIndex(n, nr - n);
    SlotIndex(n, nr - 1);
    hide SlotOf;
  }

  lemma EndOfLine(doc: Doc, k: nat)
    requires k < |doc.lines|
    ensures AfterEnd(doc, k) > ContentEnd(doc, k) <==> doc.lines[k].eol != NoEol
    ensures AfterEnd(doc, k) >= ContentEnd(doc, k)
    ensures doc.lines[k].eol == NoEol ==> AfterEnd(doc, k) == ContentEnd(doc, k)
  {
  }

  /** matches counts the positions found so far and printed describes the last one. */
  ghost predicate Counted(num: AwkNumber, doc: Doc, expected: seq<Bytes>, hi: nat, matches: nat, printed: LocateResult) {
    var found := MatchesBelow(num, doc, expected, hi);
    && expected != [] && matches == |found|
    && (found != {} ==> exists p :: p in found && printed == NumbersAt(doc, |expected|, p))
  }

  /** The part of the awk rule after the ring update, for a full window. */
  method CheckWindow(num: AwkNumber, ring: array<Slot>, expected: seq<Bytes>, nr: nat, matches: nat,
                     printed: LocateResult, ghost doc: Doc)
    returns (matches': nat, printed': LocateResult)
    requires 0 < |expected| == ring.Length && |expected| <= nr <= |doc.lines| && OnlyLastUnterminated(doc)
    requires RingHolds(ring[..], doc, nr)
    requires Counted(num, doc, expected, nr - |expected|, matches, printed)
    ensures Counted(num, doc, expected, nr - |expected| + 1, matches', printed')
  {
    hide *;
    matches', printed' := matches, printed;
    var matched := CompareWindow(num, ring, expected, nr, doc);
    if matched {
      matches' := matches + 1;
      printed' := MatchNumbers(ring, |expected|, nr, doc);
    }
    CountStep(num, doc, expected, nr - |expected|, matches, printed, matched, matches', printed');
  }

  /** The pass over the records of a file of known size. */
  method LocateInRecords(num: AwkNumber, records: seq<Bytes>, fileSize: nat, expected: seq<Bytes>, ghost doc: Doc)
    returns (r: LocateResult)
    requires expected != [] && |records| == |doc.lines| && OnlyLastUnterminated(doc)
    requires forall k :: 0 <= k < |records| ==> RecordFacts(records[k], doc, k, fileSize)
    ensures r == Locate(num, doc, expected)
  {
    hide Counted, SlotOf, Start, RecordFacts, MatchesBelow, OnlyLastUnterminated, Locate;
    var n := |expected|;
    var ring := new Slot[n](_ => Slot([], false, 0, 0, 0, 0, 0));
    var byteOffset, previousContentEnd, nr, matches, printed := 0, 0, 0, 0, EncodingInvalid;
    NothingYet(num, doc, expected, printed);
    while nr < |records|
      invariant nr <= |records|
      invariant byteOffset == RecordStart(doc, nr)
      invariant previousContentEnd == Before(doc, nr)
      invariant RingHolds(ring[..], doc, nr)
      invariant Counted(num, doc, expected, Positions(nr, n), matches, printed)
    {
      var slot := ReadRecord(fileSize, records[nr], nr, byteOffset, previousContentEnd, doc);
      RingKeeps(ring[..], doc, nr);
      SlotIndex(n, nr);
      ring[nr % n] := slot;
      NextRecord(doc, nr);
      nr := nr + 1;
      if nr >= n {
        matches, printed := CheckWindow(num, ring, expected, nr, matches, printed, doc);
      }
      previousContentEnd := slot.contentEnd;
      byteOffset := slot.afterEnd;
    }
    Finished(num, doc, expected, matches, printed);
    r := if matches != 1 then Conflict(matches) else printed;
  }

  /** The whole program: exit 76, exit 75 or the five printed numbers. */
  method LocateBlock(num: AwkNumber, file: Bytes, oldText: Bytes, oldCount: nat) returns (r: LocateResult)
    ensures |Records(oldText)| != oldCount || oldCount == 0 ==> r == EncodingInvalid
    ensures |Records(oldText)| == oldCount > 0 ==> r == Locate(num, Parse(file), Records(oldText))
  {
    var expected := Records(oldText);
    if |expected| != oldCount || |expected| == 0 {
      return EncodingInvalid;
    }
    RecordOf(file, 0);
    forall k | 0 <= k < |Records(file)| ensures RecordFacts(Records(file)[k], Parse(file), k, |file|) {
      RecordFactsHold(file, k);
    }
    forall k | 0 <= k < |Parse(file).lines| && Parse(file).lines[k].eol == NoEol
      ensures k == |Parse(file).lines| - 1
    {
      LineShape(file, k);
    }
    r := LocateInRecords(num, Records(file), |file|, expected, Parse(file));
  }

  /** Number of block positions that the first nr lines complete. */
  function Positions(nr: nat, n: nat): nat { if nr < n then 0 else nr - n + 1 }

  lemma {:induction false} NextRecord(doc: Doc, k: nat)
    requires k < |doc.lines|
    ensures SlotOf(doc, k).afterEnd == RecordStart(doc, k + 1)
    ensures SlotOf(doc, k).contentEnd == Before(doc, k + 1)
  {
    StartNext(doc, k);
  }

  lemma LineStart(doc: Doc, k: nat)
    requires k < |doc.lines|
    ensures Start(doc, k) == RecordStart(doc, k) + |BomBytes(k == 0 && doc.bom)|
  {
  }

  lemma {:induction false} RecordNewline(file: Bytes, k: nat)
    requires k < |Records(file)| == |Parse(file).lines|
    ensures RecordStart(Parse(file), k) + |Records(file)[k]| < |file| <==> Parse(file).lines[k].eol != NoEol
  {
    RecordOf(file, k);
    LineShape(file, k);
    LineStart(Parse(file), k);
  }

  lemma MultipleBounds(n: nat, k: int)
    ensures k >= 1 ==> n * k >= n
    ensures k <= 0 ==> n * k <= 0
  {
  }

  lemma {:induction false} SlotsDiffer(n: nat, a: nat, b: nat)
    requires a < b < a + n
    ensures a % n != b % n
  {
    assert b - a == n * (b / n - a / n) + (b % n - a % n);
    MultipleBounds(n, b / n - a / n);
  }

  lemma {:induction false} RingKeeps(ring: seq<Slot>, doc: Doc, nr: nat)
    requires RingHolds(ring, doc, nr) && nr < |doc.lines|
    ensures RingHolds(ring[nr % |ring| := SlotOf(doc, nr)], doc, nr + 1)
  {
    var n := |ring|;
    var next := ring[nr % n := SlotOf(doc, nr)];
    forall j | 0 <= j < nr + 1 && nr + 1 - n <= j ensures next[j % n] == SlotOf(doc, j) {
      if j < nr { SlotsDiffer(n, j, nr); }
    }
  }

  lemma MatchesStep(num: AwkNumber, doc: Doc, block: seq<Bytes>, p: nat)
    ensures MatchesBelow(num, doc, block, p + 1) ==
            MatchesBelow(num, doc, block, p) + if AwkBlockAt(num, doc, block, p) then {p} else {}
  {
  }

  lemma {:induction false} CountStep(num: AwkNumber, doc: Doc, expected: seq<Bytes>, p: nat, matches: nat, printed: LocateResult,
                  matched: bool, matches': nat, printed': LocateResult)
    requires Counted(num, doc, expected, p, matches, printed)
    requires matched == AwkBlockAt(num, doc, expected, p)
    requires if matched then matches' == matches + 1 && printed' == NumbersAt(doc, |expected|, p)
             else matches' == matches && printed' == printed
    ensures Counted(num, doc, expected, p + 1, matches', printed')
  {
    MatchesStep(num, doc, expected, p);
    if matched { assert p in MatchesBelow(num, doc, expected, p + 1); }
  }

  lemma MatchesAll(num: AwkNumber, doc: Doc, block: seq<Bytes>)
    requires block != []
    ensures Matches(num, doc, block) ==
            MatchesBelow(num, doc, block, Positions(|doc.lines|, |block|))
  {
  }

  lemma {:induction false} OnlyMatch(num: AwkNumber, doc: Doc, block: seq<Bytes>, printed: LocateResult)
    requires |Matches(num, doc, block)| == 1
    requires block != [] && exists p :: p in Matches(num, doc, block) && printed == NumbersAt(doc, |block|, p)
    ensures Locate(num, doc, block) == printed
  {
    hide NumbersAt;
    var found := Matches(num, doc, block);
    var p :| p in found && printed == NumbersAt(doc, |block|, p);
    var q :| q in found && Locate(num, doc, block) == NumbersAt(doc, |block|, q);
    assert |found - {p}| == 0;
    assert q == p || q in found - {p};
  }

  lemma {:induction false} Finished(num: AwkNumber, doc: Doc, block: seq<Bytes>, matches: nat, printed: LocateResult)
    requires Counted(num, doc, block, Positions(|doc.lines|, |block|), matches, printed)
    ensures Locate(num, doc, block) == if matches != 1 then Conflict(matches) else printed
  {
    MatchesAll(num, doc, block);
    if matches == 1 { OnlyMatch(num, doc, block, printed); }
  }

  lemma NothingYet(num: AwkNumber, doc: Doc, block: seq<Bytes>, printed: LocateResult)
    requires block != []
    ensures Counted(num, doc, block, 0, 0, printed)
  {
  }

  lemma SlotIndex(n: nat, nr: nat)
    requires n > 0
    ensures 0 <= nr % n < n
  {
  }

  lemma {:induction false} EolRule(doc: Doc, p: nat)
    requires p < |doc.lines| && OnlyLastUnterminated(doc)
    ensures var own := |EolBytes(doc.lines[p].eol)|;
            var eol := if own == 0 && Start(doc, p) > Before(doc, p) then Start(doc, p) - Before(doc, p) else own;
            (if eol != 2 then 1 else 2) == if BlockEol(doc, p) == CrLf then 2 else 1
  {
    if p > 0 {
      StartNext(doc, p - 1);
    }
  }

  // ---------- when awk's comparison is byte equality ----------

  /** A reading of numeric strings that ignores a leading blank, as awk's does. */
  ghost predicate SkipsLeadingBlank(num: AwkNumber) {
    forall s: Bytes :: num([SPACE] + s) == num(s)
  }

  lemma {:induction false} NonNumericBlocksMatchExactly(num: AwkNumber, doc: Doc, block: seq<Bytes>)
    requires forall i :: 0 <= i < |block| ==> num(block[i]).None?
    ensures Matches(num, doc, block) == ExactMatches(doc, block)
  {
    forall p: nat ensures AwkBlockAt(num, doc, block, p) <==> BlockAt(doc, block, p) {
      if AwkBlockAt(num, doc, block, p) {
        forall i | 0 <= i < |block| ensures doc.lines[p + i].content == block[i] {
          assert AwkEqual(num, doc.lines[p + i].content, Untouched(doc, p + i), block[i]);
        }
      }
    }
  }

  /** A file holding the block on its lines 2.., except that line k has a blank in front. */
  function BlankedFile(block: seq<Bytes>, k: nat): Doc {
    Doc(false, [Line([], Lf)] + seq(|block|, i requires 0 <= i < |block| =>
      Line((if i == k then [SPACE] else []) + block[i], Lf)))
  }

  lemma {:induction false} BlankedFileMatches(num: AwkNumber, block: seq<Bytes>, k: nat)
    requires k < |block| && num(block[k]).Some? && SkipsLeadingBlank(num)
    requires forall b <- block :: LF !in b && CR !in b
    ensures 1 in Matches(num, Parse(Render(BlankedFile(block, k))), block)
    ensures 1 !in ExactMatches(Parse(Render(BlankedFile(block, k))), block)
  {
    var doc := BlankedFile(block, k);
    forall j | 0 <= j < |doc.lines| ensures WellFormedLine(doc.lines[j], j == |doc.lines| - 1) {
      if j > 0 { assert block[j - 1] in block; }
    }
    assert LinesBytes(doc.lines)[0] == LF;
    ParseRender(doc);
    forall i | 0 <= i < |block|
      ensures AwkEqual(num, doc.lines[1 + i].content, Untouched(doc, 1 + i), block[i])
    {
      assert [] + block[i] == block[i];
    }
    assert AwkBlockAt(num, doc, block, 1);
    assert doc.lines[1 + k].content == [SPACE] + block[k] != block[k];
  }

  /** The pass finds exactly the byte-for-byte occurrences, in every file, if and
      only if no line of the approved block looks like a number to awk. */
  lemma {:induction false} ExactUnlessNumeric(num: AwkNumber, block: seq<Bytes>)
    requires SkipsLeadingBlank(num)
    requires forall b <- block :: LF !in b && CR !in b
    ensures (forall file: Bytes :: Matches(num, Parse(file), block) == ExactMatches(Parse(file), block))
       <==> (forall i :: 0 <= i < |block| ==> num(block[i]).None?)
  {
    if forall i :: 0 <= i < |block| ==> num(block[i]).None? {
      forall file: Bytes ensures Matches(num, Parse(file), block) == ExactMatches(Parse(file), block) {
        NonNumericBlocksMatchExactly(num, Parse(file), block);
      }
    } else {
      var k :| 0 <= k < |block| && num(block[k]).Some?;
      BlankedFileMatches(num, block, k);
    }
  }

  const LEADING_ZERO := Doc(false, [Line([48, 49], Lf)])

  lemma {:induction false} LeadingZeroBytes()
    ensures Parse([48, 49, LF]) == LEADING_ZERO
  {
    var line := LEADING_ZERO.lines[0];
    LinesBytesCons(line, []);
    assert [line] + [] == LEADING_ZERO.lines && LinesBytes(LEADING_ZERO.lines) == [48, 49, LF];
    assert Render(LEADING_ZERO) == [48, 49, LF];
    assert WellFormedLine(line, true);
    assert !(BOM <= [48, 49, LF]) by { assert BOM[0] != [48 as byte, 49, LF][0]; }
    hide LinesBytes, Parse, Render;
    ParseRender(LEADING_ZERO);
  }

  /** One concrete miss: approving the line "1" locates the line "01". */
  lemma {:induction false} LeadingZeroIsReplaced(num: AwkNumber)
    requires num([49]) == Some(1.0) && num([48, 49]) == Some(1.0)
    ensures Records([49]) == [[49]]
    ensures Matches(num, Parse([48, 49, LF]), [[49]]) == {0}
    ensures ExactMatches(Parse([48, 49, LF]), [[49]]) == {}
  {
    LeadingZeroBytes();
    hide Parse, Render, LinesBytes;
    assert AwkBlockAt(num, LEADING_ZERO, [[49]], 0);
    assert LEADING_ZERO.lines[0 + 0].content != [[49 as byte]][0];
    LineLengthUnique([49], 1);
    assert [49 as byte][..1] == [49];
  }
}
