/** The review diff an operator approves, and the check that repeats it later. */
module TextEditReview {
  import opened ByteText
  import opened FileLines
  import opened TextEditLocator
  import opened TextEditSplice
  import opened Wrappers

  datatype FileChange = FileChange(diff: Bytes, additions: nat, deletions: nat)

  datatype EditError = ControlCharacters | EmptyBlock | SameText

  // ---------- normalisation ----------

  /** strings.ReplaceAll(s, "\r\n", "\n"). */
  function ReplaceCrLf(s: Bytes): Bytes {
    if |s| < 2 then s
    else if s[0] == CR && s[1] == LF then [LF] + ReplaceCrLf(s[2..])
    else [s[0]] + ReplaceCrLf(s[1..])
  }

  function TrimBom(s: Bytes): Bytes { if BOM <= s then s[3..] else s }

  function TrimFinalLf(s: Bytes): Bytes { if EndsWith(s, LF) then s[..|s| - 1] else s }

  function Normalize(text: Bytes, allowEmpty: bool): Result<Bytes, EditError> {
    var value := ReplaceCrLf(TrimBom(text));
    if NUL in value || CR in value then Err(ControlCharacters)
    else
      var trimmed := TrimFinalLf(value);
      if trimmed == [] && !allowEmpty then Err(EmptyBlock) else Ok(trimmed)
  }

  lemma {:induction false} ReplaceCrLfWithoutCr(s: Bytes)
    ensures CR !in s ==> ReplaceCrLf(s) == s
  {
    if |s| >= 2 {
      ReplaceCrLfWithoutCr(s[1..]);
      if CR !in s { assert s[0] in s; assert s == [s[0]] + s[1..]; }
    }
  }

  /** Normalisation is not idempotent; its fixed points are exactly the clean blocks. */
  lemma {:induction false} FixedPoints(text: Bytes)
    ensures Normalize(text, true) == Ok(text) <==> Approved(text) && NUL !in text
  {
    hide ReplaceCrLf;
    ReplaceCrLfWithoutCr(text);
    ReplaceCrLfShrinks(TrimBom(text));
  }

  lemma {:induction false} ReplaceCrLfShrinks(s: Bytes)
    ensures |ReplaceCrLf(s)| <= |s|
  {
    if |s| >= 2 {
      if s[0] == CR && s[1] == LF { ReplaceCrLfShrinks(s[2..]); } else { ReplaceCrLfShrinks(s[1..]); }
    }
  }

  // ---------- what normalisation does to lines ----------

  /** Parts with LF or, where crs says so, CR LF between neighbours. */
  function SpelledWith(parts: seq<Bytes>, crs: seq<bool>): Bytes
    requires |parts| == |crs| + 1
  {
    if crs == [] then parts[0]
    else parts[0] + (if crs[0] then [CR, LF] else [LF]) + SpelledWith(parts[1..], crs[1..])
  }

  ghost predicate Clean(parts: seq<Bytes>) { forall part <- parts :: CR !in part && LF !in part && NUL !in part }

  /** A CR that no LF follows. */
  ghost predicate BareCr(s: Bytes) { exists i :: 0 <= i < |s| && s[i] == CR && !(i + 1 < |s| && s[i + 1] == LF) }

  lemma {:induction false} ReplaceBehind(part: Bytes, rest: Bytes)
    requires CR !in part
    ensures ReplaceCrLf(part + rest) == part + ReplaceCrLf(rest)
  {
    if part == [] {
      assert part + rest == rest && part + ReplaceCrLf(rest) == ReplaceCrLf(rest);
    } else {
      assert part[0] in part && forall b :: b in part[1..] ==> b in part;
      assert (part + rest)[0] == part[0] && (part + rest)[1..] == part[1..] + rest;
      ReplaceBehind(part[1..], rest);
      ReplaceOne(part[0], part[1..] + rest);
      assert part + rest == [part[0]] + (part[1..] + rest);
      assert [part[0]] + (part[1..] + ReplaceCrLf(rest)) == part + ReplaceCrLf(rest);
    }
  }

  lemma {:induction false} ReplaceOne(b: byte, rest: Bytes)
    requires b != CR
    ensures ReplaceCrLf([b] + rest) == [b] + ReplaceCrLf(rest)
  {
    assert ([b] + rest)[1..] == rest;
    if rest == [] { assert [b] + rest == [b] && ReplaceCrLf([]) == []; }
  }

  lemma {:induction false} ReplacePair(rest: Bytes)
    ensures ReplaceCrLf([CR, LF] + rest) == [LF] + ReplaceCrLf(rest)
    ensures ReplaceCrLf([LF] + rest) == [LF] + ReplaceCrLf(rest)
  {
    assert ([CR, LF] + rest)[2..] == rest;
    ReplaceOne(LF, rest);
  }

  lemma SpelledUnfolds(parts: seq<Bytes>, crs: seq<bool>)
    requires |parts| == |crs| + 1 && crs != []
    ensures SpelledWith(parts, crs) == parts[0] + ((if crs[0] then [CR, LF] else [LF]) + SpelledWith(parts[1..], crs[1..]))
  {
  }

  lemma JoinUnfolds(parts: seq<Bytes>)
    requires |parts| > 1
    ensures Join(parts, [LF]) == parts[0] + ([LF] + Join(parts[1..], [LF]))
  {
  }

  lemma {:induction false} SpelledIsReplaced(parts: seq<Bytes>, crs: seq<bool>)
    requires |parts| == |crs| + 1 && Clean(parts)
    ensures ReplaceCrLf(SpelledWith(parts, crs)) == Join(parts, [LF])
    decreases |crs|
  {
    assert parts[0] in parts;
    if crs == [] {
      ReplaceCrLfWithoutCr(parts[0]);
    } else {
      var rest := SpelledWith(parts[1..], crs[1..]);
      assert forall part :: part in parts[1..] ==> part in parts;
      SpelledUnfolds(parts, crs);
      JoinUnfolds(parts);
      assert CR !in parts[0] && Clean(parts[1..]);
      hide *;
      SpelledIsReplaced(parts[1..], crs[1..]);
      ReplacePair(rest);
      if crs[0] { ReplaceBehind(parts[0], [CR, LF] + rest); } else { ReplaceBehind(parts[0], [LF] + rest); }
    }
  }

  lemma {:induction false} JoinIsClean(parts: seq<Bytes>)
    requires parts != [] && Clean(parts)
    ensures CR !in Join(parts, [LF]) && NUL !in Join(parts, [LF])
  {
    assert parts[0] in parts;
    if |parts| > 1 {
      assert forall part :: part in parts[1..] ==> part in parts;
      JoinIsClean(parts[1..]);
    }
  }

  /** The lines of a text with these parts: a final empty part is no line, and neither is the
      only line of a block if it is empty. */
  function LinesOf(parts: seq<Bytes>): seq<Bytes>
    requires parts != []
  {
    var lines := if parts[|parts| - 1] == [] then parts[..|parts| - 1] else parts;
    if lines == [[]] then [] else lines
  }

  lemma {:induction false} JoinedAgain(parts: seq<Bytes>, last: Bytes)
    requires parts != []
    ensures Join(parts + [last], [LF]) == Join(parts, [LF]) + [LF] + last
  {
    JoinSnoc(parts, last, [LF]);
  }

  lemma {:induction false} TrimmedLines(parts: seq<Bytes>)
    requires parts != [] && Unbroken(parts)
    ensures BlockLines(TrimFinalLf(Join(parts, [LF]))) == LinesOf(parts)
    ensures TrimFinalLf(Join(parts, [LF])) == [] <==> LinesOf(parts) == []
  {
    hide *;
    if parts[|parts| - 1] != [] {
      TrimmedWhole(parts);
    } else if |parts| > 1 {
      TrimmedFront(parts);
    } else {
      assert parts == [[]];
      TrimmedNothing();
    }
  }

  lemma TrimmedNothing()
    ensures LinesOf([[]]) == [] && Join([[]], [LF]) == [] && TrimFinalLf([]) == [] && BlockLines([]) == []
  {
  }

  lemma {:induction false} TrimmedWhole(parts: seq<Bytes>)
    requires parts != [] && Unbroken(parts) && parts[|parts| - 1] != []
    ensures BlockLines(TrimFinalLf(Join(parts, [LF]))) == LinesOf(parts) != []
    ensures TrimFinalLf(Join(parts, [LF])) != []
  {
    hide *;
    var text := Join(parts, [LF]);
    SplitJoin(parts);
    LastPart(text);
    UntrimmedText(text);
    LinesOfWhole(parts);
  }

  lemma UntrimmedText(text: Bytes)
    ensures text != [] && !EndsWith(text, LF) ==> TrimFinalLf(text) == text && BlockLines(text) == Split(text)
  {
    hide Split;
  }

  lemma LinesOfWhole(parts: seq<Bytes>)
    requires parts != [] && parts[|parts| - 1] != []
    ensures LinesOf(parts) == parts
  {
  }

  lemma {:induction false} TrimmedFront(parts: seq<Bytes>)
    requires |parts| > 1 && Unbroken(parts) && parts[|parts| - 1] == []
    ensures BlockLines(TrimFinalLf(Join(parts, [LF]))) == LinesOf(parts)
    ensures TrimFinalLf(Join(parts, [LF])) == [] <==> LinesOf(parts) == []
  {
    var front := parts[..|parts| - 1];
    var text := Join(front, [LF]);
    assert parts == front + [[]] && forall part :: part in front ==> part in parts;
    hide Join, Split;
    JoinedAgain(front, []);
    assert Join(parts, [LF]) == text + [LF];
    assert TrimFinalLf(text + [LF]) == text;
    SplitJoin(front);
    OnlyEmptyJoin(front);
  }

  lemma {:induction false} OnlyEmptyJoin(parts: seq<Bytes>)
    requires parts != []
    ensures Join(parts, [LF]) == [] <==> parts == [[]]
  {
    if |parts| == 1 { assert parts == [parts[0]]; }
  }

  /** A text spelled from clean parts, with or without a BOM in front, is normalised to the
      parts with single LFs between them, less one final LF. */
  lemma {:induction false} NormalizeSpelled(parts: seq<Bytes>, crs: seq<bool>, bom: bool, allowEmpty: bool)
    requires |parts| == |crs| + 1 && Clean(parts)
    requires bom || !(BOM <= SpelledWith(parts, crs))
    ensures var joined := Join(parts, [LF]);
      var trimmed := if EndsWith(joined, LF) then joined[..|joined| - 1] else joined;
      && Normalize(BomBytes(bom) + SpelledWith(parts, crs), allowEmpty)
           == (if trimmed == [] && !allowEmpty then Err(EmptyBlock) else Ok(trimmed))
      && BlockLines(trimmed) == LinesOf(parts)
  {
    var body := SpelledWith(parts, crs);
    SpelledIsReplaced(parts, crs);
    JoinIsClean(parts);
    TrimmedLines(parts);
    assert (BOM + body)[3..] == body && [] + body == body;
    hide SpelledWith, ReplaceCrLf, Join, LinesOf, BlockLines;
  }

  lemma {:induction false} SpelledCons(b: byte, parts: seq<Bytes>, crs: seq<bool>)
    requires |parts| == |crs| + 1
    ensures SpelledWith([[b] + parts[0]] + parts[1..], crs) == [b] + SpelledWith(parts, crs)
  {
    var longer := [[b] + parts[0]] + parts[1..];
    if crs != [] {
      SpelledUnfolds(parts, crs);
      SpelledUnfolds(longer, crs);
      assert longer[1..] == parts[1..];
      hide SpelledWith;
      var rest := (if crs[0] then [CR, LF] else [LF]) + SpelledWith(parts[1..], crs[1..]);
      assert ([b] + parts[0]) + rest == [b] + (parts[0] + rest);
    }
  }

  lemma {:induction false} SpelledNew(cr: bool, parts: seq<Bytes>, crs: seq<bool>)
    requires |parts| == |crs| + 1
    ensures SpelledWith([[]] + parts, [cr] + crs) == (if cr then [CR, LF] else [LF]) + SpelledWith(parts, crs)
  {
    assert ([[]] + parts)[1..] == parts && ([cr] + crs)[1..] == crs;
  }

  lemma {:induction false} BareCrBehind(s: Bytes, n: nat)
    requires n <= |s| && BareCr(s[n..])
    ensures BareCr(s)
  {
    var i :| 0 <= i < |s| - n && s[n..][i] == CR && !(i + 1 < |s| - n && s[n..][i + 1] == LF);
    assert s[n + i] == CR;
  }

  /** Every text without NUL and without a bare CR is spelled from clean parts. */
  lemma {:induction false} PartsOf(s: Bytes) returns (parts: seq<Bytes>, crs: seq<bool>)
    requires NUL !in s && !BareCr(s)
    ensures |parts| == |crs| + 1 && Clean(parts) && SpelledWith(parts, crs) == s
    decreases |s|
  {
    if s == [] {
      parts, crs := [[]], [];
    } else if s[0] == CR {
      assert 1 < |s| && s[1] == LF;
      if BareCr(s[2..]) { BareCrBehind(s, 2); }
      var more, moreCrs := PartsOf(s[2..]);
      parts, crs := [[]] + more, [true] + moreCrs;
      SpelledNew(true, more, moreCrs);
      assert s == [CR, LF] + s[2..];
    } else {
      if BareCr(s[1..]) { BareCrBehind(s, 1); }
      var more, moreCrs := PartsOf(s[1..]);
      assert s == [s[0]] + s[1..];
      if s[0] == LF {
        parts, crs := [[]] + more, [false] + moreCrs;
        SpelledNew(false, more, moreCrs);
      } else {
        parts, crs := [[s[0]] + more[0]] + more[1..], moreCrs;
        SpelledCons(s[0], more, moreCrs);
        assert more[0] in more && forall part :: part in more[1..] ==> part in more;
      }
    }
  }

  lemma {:induction false} ReplaceKeepsBareCr(s: Bytes)
    requires BareCr(s)
    ensures CR in ReplaceCrLf(s)
    decreases |s|
  {
    var i :| 0 <= i < |s| && s[i] == CR && !(i + 1 < |s| && s[i + 1] == LF);
    if |s| < 2 {
      assert s[i] in s;
    } else if s[0] == CR && s[1] == LF {
      assert i >= 2 && s[2..][i - 2] == CR;
      assert i - 2 + 1 < |s[2..]| ==> s[2..][i - 1] == s[i + 1];
      ReplaceKeepsBareCr(s[2..]);
    } else if i > 0 {
      assert s[1..][i - 1] == CR;
      assert i < |s[1..]| ==> s[1..][i] == s[i + 1];
      ReplaceKeepsBareCr(s[1..]);
    }
  }

  lemma {:induction false} ReplaceKeepsNul(s: Bytes)
    requires NUL in s
    ensures NUL in ReplaceCrLf(s)
    decreases |s|
  {
    if |s| >= 2 {
      if s[0] == CR && s[1] == LF {
        assert s == [CR, LF] + s[2..];
        ReplaceKeepsNul(s[2..]);
      } else if s[0] != NUL {
        assert s == [s[0]] + s[1..];
        ReplaceKeepsNul(s[1..]);
      }
    }
  }

  /** Lines that a text holds, whatever its terminators, its BOM and its final line feed. */
  ghost predicate HasLines(text: Bytes, lines: seq<Bytes>) {
    exists parts: seq<Bytes>, crs: seq<bool> ::
      && |parts| == |crs| + 1 && Clean(parts) && lines == LinesOf(parts)
      && (if BOM <= text then text[3..] else text) == SpelledWith(parts, crs)
  }

  /** Beside its BOM, the text holds a NUL or a CR that no LF follows. */
  ghost predicate Unreadable(text: Bytes) {
    var body := if BOM <= text then text[3..] else text;
    NUL in body || BareCr(body)
  }

  lemma {:induction false} UnreadableIsRefused(text: Bytes, allowEmpty: bool)
    requires Unreadable(text)
    ensures Normalize(text, allowEmpty) == Err(ControlCharacters) && forall lines :: !HasLines(text, lines)
  {
    var body := if BOM <= text then text[3..] else text;
    if NUL in body { ReplaceKeepsNul(body); } else { ReplaceKeepsBareCr(body); }
    assert Normalize(text, allowEmpty) == Err(ControlCharacters);
    hide Normalize;
    forall lines ensures !HasLines(text, lines) {
      if HasLines(text, lines) { ReadableHasLines(text, lines); }
    }
  }

  lemma {:induction false} ReadableHasLines(text: Bytes, lines: seq<Bytes>)
    requires HasLines(text, lines)
    ensures !Unreadable(text)
  {
    var parts: seq<Bytes>, crs: seq<bool> :| |parts| == |crs| + 1 && Clean(parts) && lines == LinesOf(parts)
      && (if BOM <= text then text[3..] else text) == SpelledWith(parts, crs);
    var body := SpelledWith(parts, crs);
    SpelledIsReplaced(parts, crs);
    JoinIsClean(parts);
    if NUL in body { ReplaceKeepsNul(body); }
    if BareCr(body) { ReplaceKeepsBareCr(body); }
  }

  lemma {:induction false} LinesAreNormalized(text: Bytes, lines: seq<Bytes>, allowEmpty: bool)
    requires HasLines(text, lines)
    ensures if lines == [] && !allowEmpty then Normalize(text, allowEmpty) == Err(EmptyBlock)
            else Normalize(text, allowEmpty).Ok? && BlockLines(Normalize(text, allowEmpty).value) == lines
  {
    var body := if BOM <= text then text[3..] else text;
    var parts: seq<Bytes>, crs: seq<bool> :| |parts| == |crs| + 1 && Clean(parts) && lines == LinesOf(parts) && body == SpelledWith(parts, crs);
    BodyBehindBom(text);
    hide *;
    NormalizeSpelled(parts, crs, BOM <= text, allowEmpty);
    EmptyHasNoLines();
  }

  lemma EmptyHasNoLines()
    ensures forall text: Bytes :: BlockLines(text) == [] <==> text == []
  {
  }

  lemma {:induction false} ReadableHasSomeLines(text: Bytes) returns (lines: seq<Bytes>)
    requires !Unreadable(text)
    ensures HasLines(text, lines)
  {
    var parts, crs := PartsOf(if BOM <= text then text[3..] else text);
    hide BareCr, SpelledWith, LinesOf;
    lines := LinesOf(parts);
  }

  /** Normalisation refuses exactly a NUL, a CR that no LF follows, and an empty block where
      none is allowed; what it returns has the lines of the text. */
  lemma {:induction false} NormalizeExactly(text: Bytes, allowEmpty: bool)
    ensures Normalize(text, allowEmpty) == Err(ControlCharacters) <==> Unreadable(text)
    ensures Normalize(text, allowEmpty) == Err(EmptyBlock) <==> HasLines(text, []) && !allowEmpty
    ensures Normalize(text, allowEmpty).Err? <==> Unreadable(text) || (HasLines(text, []) && !allowEmpty)
    ensures Normalize(text, allowEmpty).Ok? ==>
      forall lines :: HasLines(text, lines) <==> lines == BlockLines(Normalize(text, allowEmpty).value)
  {
    hide *;
    if Unreadable(text) {
      UnreadableIsRefused(text, allowEmpty);
    } else {
      var some := ReadableHasSomeLines(text);
      LinesAreNormalized(text, some, allowEmpty);
      forall lines | HasLines(text, lines)
        ensures lines == [] && !allowEmpty ==> Normalize(text, allowEmpty) == Err(EmptyBlock)
        ensures lines != [] || allowEmpty ==> Normalize(text, allowEmpty).Ok? && BlockLines(Normalize(text, allowEmpty).value) == lines
      {
        LinesAreNormalized(text, lines, allowEmpty);
      }
    }
  }

  lemma BodyBehindBom(text: Bytes)
    ensures text == BomBytes(BOM <= text) + if BOM <= text then text[3..] else text
  {
  }

  // ---------- the diff ----------

  function BlockLines(text: Bytes): seq<Bytes> { if text == [] then [] else Split(text) }

  function CommonPrefix(a: seq<Bytes>, b: seq<Bytes>): (k: nat)
    ensures k <= |a| && k <= |b|
  {
    if a != [] && b != [] && a[0] == b[0] then 1 + CommonPrefix(a[1..], b[1..]) else 0
  }

  function CommonSuffix(a: seq<Bytes>, b: seq<Bytes>): (k: nat)
    ensures k <= |a| && k <= |b|
  {
    if a != [] && b != [] && a[|a| - 1] == b[|b| - 1] then 1 + CommonSuffix(a[..|a| - 1], b[..|b| - 1]) else 0
  }

  function Marked(mark: byte, lines: seq<Bytes>): (r: seq<Bytes>)
    ensures |r| == |lines|
  {
    if lines == [] then [] else [[mark] + lines[0]] + Marked(mark, lines[1..])
  }

  function BodyOf(before: seq<Bytes>, after: seq<Bytes>, prefix: nat, suffix: nat): seq<Bytes>
    requires prefix + suffix <= |before| && prefix + suffix <= |after|
  {
    Marked(SPACE, before[..prefix]) + Marked(MINUS, before[prefix..|before| - suffix])
    + Marked(PLUS, after[prefix..|after| - suffix]) + Marked(SPACE, before[|before| - suffix..])
  }

  function Prefix(before: seq<Bytes>, after: seq<Bytes>): (k: nat)
    ensures k <= |before| && k <= |after|
  {
    CommonPrefix(before, after)
  }

  /** The common suffix of what the common prefix leaves. */
  function Suffix(before: seq<Bytes>, after: seq<Bytes>): (k: nat)
    ensures Prefix(before, after) + k <= |before| && Prefix(before, after) + k <= |after|
  {
    CommonSuffix(before[Prefix(before, after)..], after[Prefix(before, after)..])
  }

  function DiffBody(before: seq<Bytes>, after: seq<Bytes>): seq<Bytes> {
    BodyOf(before, after, Prefix(before, after), Suffix(before, after))
  }

  const HUNK: Bytes := [64, 64, 32, 117, 110, 105, 113, 117, 101, 32, 98, 108, 111, 99, 107, 32, 64, 64]

  function DiffText(path: Bytes, body: seq<Bytes>): Bytes {
    [MINUS, MINUS, MINUS, SPACE] + path + [LF, PLUS, PLUS, PLUS, SPACE] + path + [LF] + HUNK + [LF]
    + Join(body, [LF]) + [LF]
  }

  function ChangeOf(path: Bytes, before: seq<Bytes>, after: seq<Bytes>): FileChange {
    var changed := Prefix(before, after) + Suffix(before, after);
    FileChange(DiffText(path, DiffBody(before, after)), |after| - changed, |before| - changed)
  }

  function BuildEdit(path: Bytes, oldText: Bytes, newText: Bytes): Result<(TextEdit, FileChange), EditError> {
    match (Normalize(oldText, true), Normalize(newText, true))
    case (Err(e), _) => Err(e)
    case (_, Err(e)) => Err(e)
    case (Ok(o), Ok(n)) =>
      if o == n then Err(SameText)
      else
        Ok((TextEdit(o, n), ChangeOf(path, BlockLines(o), BlockLines(n))))
  }

  /** validateTextEditChange: nil exactly when the persisted edit rebuilds to itself. */
  predicate Validate(path: Bytes, edit: TextEdit, change: FileChange) {
    BuildEdit(path, edit.oldText, edit.newText) == Ok((edit, change))
  }

  // ---------- the two counting loops and the body ----------

  lemma {:induction false} PrefixAt(a: seq<Bytes>, b: seq<Bytes>, k: nat)
    requires k <= |a| && k <= |b| && a[..k] == b[..k]
    requires k == |a| || k == |b| || a[k] != b[k]
    ensures CommonPrefix(a, b) == k
  {
    if k > 0 {
      assert a[0] == a[..k][0] && b[0] == b[..k][0];
      assert a[1..][..k - 1] == a[..k][1..] && b[1..][..k - 1] == b[..k][1..];
      PrefixAt(a[1..], b[1..], k - 1);
    }
  }

  lemma TailSplit(a: seq<Bytes>, k: nat)
    requires 0 < k <= |a|
    ensures a[|a| - k..] == a[..|a| - 1][|a| - k..] + [a[|a| - 1]]
  {
  }

  lemma {:induction false} TailsEqual(a: seq<Bytes>, b: seq<Bytes>, k: nat)
    requires 0 < k <= |a| && k <= |b|
    ensures a[|a| - k..] == b[|b| - k..] <==>
      a[|a| - 1] == b[|b| - 1] && a[..|a| - 1][|a| - k..] == b[..|b| - 1][|b| - k..]
  {
    TailSplit(a, k);
    TailSplit(b, k);
    var a', b' := a[..|a| - 1][|a| - k..], b[..|b| - 1][|b| - k..];
    if a[|a| - k..] == b[|b| - k..] { EqualEnds(a', a[|a| - 1], b', b[|b| - 1]); }
  }

  lemma CommonSuffixStep(a: seq<Bytes>, b: seq<Bytes>)
    ensures CommonSuffix(a, b) == if a != [] && b != [] && a[|a| - 1] == b[|b| - 1]
                                  then 1 + CommonSuffix(a[..|a| - 1], b[..|b| - 1]) else 0
  {
  }

  /** Line i from the end. */
  function Back(s: seq<Bytes>, i: nat): Bytes
    requires i < |s|
  {
    s[|s| - 1 - i]
  }

  /** The k last lines agree and the ones before them, if any, do not. */
  ghost predicate AgreesFor(a: seq<Bytes>, b: seq<Bytes>, k: nat) {
    && k <= |a| && k <= |b| && (forall i :: 0 <= i < k ==> Back(a, i) == Back(b, i))
    && (k == |a| || k == |b| || Back(a, k) != Back(b, k))
  }

  lemma BackOfFront(s: seq<Bytes>, i: nat)
    requires i + 1 < |s|
    ensures |s[..|s| - 1]| == |s| - 1 && Back(s[..|s| - 1], i) == Back(s, i + 1)
  {
  }

  lemma {:induction false} AgreesForLess(a: seq<Bytes>, b: seq<Bytes>, k: nat)
    requires AgreesFor(a, b, k) && k > 0
    ensures a[|a| - 1] == b[|b| - 1] && AgreesFor(a[..|a| - 1], b[..|b| - 1], k - 1)
  {
    assert Back(a, 0) == Back(b, 0);
    var a', b' := a[..|a| - 1], b[..|b| - 1];
    forall i | 0 <= i < k && i < |a'| && i < |b'|
      ensures Back(a', i) == Back(a, i + 1) && Back(b', i) == Back(b, i + 1)
    {
      BackOfFront(a, i);
      BackOfFront(b, i);
    }
  }

  lemma {:induction false} SuffixAt(a: seq<Bytes>, b: seq<Bytes>, k: nat)
    requires AgreesFor(a, b, k)
    ensures CommonSuffix(a, b) == k
  {
    CommonSuffixStep(a, b);
    hide CommonSuffix;
    if k > 0 {
      hide *;
      AgreesForLess(a, b, k);
      SuffixAt(a[..|a| - 1], b[..|b| - 1], k - 1);
    }
  }

  lemma {:induction false} EqualEnds(a: seq<Bytes>, x: Bytes, b: seq<Bytes>, y: Bytes)
    requires a + [x] == b + [y]
    ensures a == b && x == y
  {
    assert |a| == |b|;
    assert (a + [x])[|a|] == x && (b + [y])[|b|] == y;
    assert a == (a + [x])[..|a|] && b == (b + [y])[..|b|];
  }

  method CountPrefix(before: seq<Bytes>, after: seq<Bytes>) returns (prefix: nat)
    ensures prefix == CommonPrefix(before, after)
  {
    prefix := 0;
    while prefix < |before| && prefix < |after| && before[prefix] == after[prefix]
      invariant prefix <= |before| && prefix <= |after| && before[..prefix] == after[..prefix]
    {
      prefix := prefix + 1;
    }
    PrefixAt(before, after, prefix);
  }

  method CountSuffix(before: seq<Bytes>, after: seq<Bytes>, prefix: nat) returns (suffix: nat)
    requires prefix <= |before| && prefix <= |after|
    ensures suffix == CommonSuffix(before[prefix..], after[prefix..])
  {
    suffix := 0;
    ghost var a, b := before[prefix..], after[prefix..];
    while suffix < |before| - prefix && suffix < |after| - prefix
          && before[|before| - 1 - suffix] == after[|after| - 1 - suffix]
      invariant suffix <= |a| && suffix <= |b| && forall i :: 0 <= i < suffix ==> Back(a, i) == Back(b, i)
    {
      BackBehind(before, prefix, suffix);
      BackBehind(after, prefix, suffix);
      suffix := suffix + 1;
    }
    if suffix < |a| && suffix < |b| {
      BackBehind(before, prefix, suffix);
      BackBehind(after, prefix, suffix);
    }
    SuffixAt(a, b, suffix);
  }

  lemma BackBehind(s: seq<Bytes>, prefix: nat, i: nat)
    requires prefix + i < |s|
    ensures Back(s[prefix..], i) == s[|s| - 1 - i]
  {
  }

  method AppendMarked(body: seq<Bytes>, mark: byte, lines: seq<Bytes>) returns (extended: seq<Bytes>)
    ensures extended == body + Marked(mark, lines)
  {
    extended := body;
    for i := 0 to |lines|
      invariant extended + Marked(mark, lines[i..]) == body + Marked(mark, lines)
    {
      assert lines[i..][1..] == lines[i + 1..];
      extended := extended + [[mark] + lines[i]];
    }
  }

  lemma {:induction false} BlockLinesDetermine(a: Bytes, b: Bytes)
    requires BlockLines(a) == BlockLines(b)
    ensures a == b
  {
    JoinSplit(a);
    JoinSplit(b);
  }

  /** An edit is refused exactly when a text cannot be read or both have the same lines, and
      otherwise its two texts have the lines of the two that were given. */
  lemma {:induction false} BuildKeepsLines(path: Bytes, oldText: Bytes, newText: Bytes)
    ensures var r := BuildEdit(path, oldText, newText);
      && (r == Err(ControlCharacters) <==> Unreadable(oldText) || Unreadable(newText))
      && (r == Err(SameText) <==> exists lines :: HasLines(oldText, lines) && HasLines(newText, lines))
      && r != Err(EmptyBlock)
      && (r.Ok? ==> HasLines(oldText, BlockLines(r.value.0.oldText)) && HasLines(newText, BlockLines(r.value.0.newText)))
  {
    NormalizeExactly(oldText, true);
    NormalizeExactly(newText, true);
    hide Normalize, HasLines, Unreadable, BlockLines, ChangeOf;
    if BuildEdit(path, oldText, newText) == Err(SameText) {
      var lines := BlockLines(Normalize(oldText, true).value);
      assert HasLines(oldText, lines) && HasLines(newText, lines);
    }
    if lines :| HasLines(oldText, lines) && HasLines(newText, lines) {
      ReadableHasLines(oldText, lines);
      ReadableHasLines(newText, lines);
      BlockLinesDetermine(Normalize(oldText, true).value, Normalize(newText, true).value);
    }
  }

  method BuildTextEdit(path: Bytes, oldText: Bytes, newText: Bytes)
    returns (r: Result<(TextEdit, FileChange), EditError>)
    ensures r == BuildEdit(path, oldText, newText)
    ensures r == Err(ControlCharacters) <==> Unreadable(oldText) || Unreadable(newText)
    ensures r == Err(SameText) <==> exists lines :: HasLines(oldText, lines) && HasLines(newText, lines)
    ensures r != Err(EmptyBlock)
    ensures r.Ok? ==> HasLines(oldText, BlockLines(r.value.0.oldText)) && HasLines(newText, BlockLines(r.value.0.newText))
  {
    BuildKeepsLines(path, oldText, newText);
    var o := Normalize(oldText, true);
    if o.Err? {
      return Err(o.error);
    }
    var n := Normalize(newText, true);
    if n.Err? {
      return Err(n.error);
    }
    if o.value == n.value {
      return Err(SameText);
    }
    var change := BuildChange(path, BlockLines(o.value), BlockLines(n.value));
    r := Ok((TextEdit(o.value, n.value), change));
  }

  method BuildChange(path: Bytes, before: seq<Bytes>, after: seq<Bytes>) returns (change: FileChange)
    ensures change == ChangeOf(path, before, after)
  {
    hide Marked, CommonPrefix, CommonSuffix, DiffText;
    var prefix := CountPrefix(before, after);
    var suffix := CountSuffix(before, after, prefix);
    var oldChanged, newChanged := before[prefix..|before| - suffix], after[prefix..|after| - suffix];
    var body := AppendMarked([], SPACE, before[..prefix]);
    body := AppendMarked(body, MINUS, oldChanged);
    body := AppendMarked(body, PLUS, newChanged);
    if suffix > 0 {
      body := AppendMarked(body, SPACE, before[|before| - suffix..]);
    } else {
      NothingMarked(before[|before| - suffix..]);
    }
    assert body == BodyOf(before, after, prefix, suffix);
    change := FileChange(DiffText(path, body), |newChanged|, |oldChanged|);
  }

  lemma NothingMarked(lines: seq<Bytes>)
    requires lines == []
    ensures Marked(SPACE, lines) == []
  {
  }

  // ---------- what the diff shows ----------

  /** The lines of one side: context and those with the side's mark, marks removed. */
  function Side(mark: byte, body: seq<Bytes>): seq<Bytes> {
    if body == [] then []
    else (if body[0] != [] && (body[0][0] == SPACE || body[0][0] == mark) then [body[0][1..]] else [])
         + Side(mark, body[1..])
  }

  function CountMark(mark: byte, body: seq<Bytes>): nat {
    if body == [] then 0
    else (if body[0] != [] && body[0][0] == mark then 1 else 0) + CountMark(mark, body[1..])
  }

  lemma {:induction false} SideCons(side: byte, line: Bytes, rest: seq<Bytes>)
    ensures Side(side, [line] + rest)
            == (if line != [] && (line[0] == SPACE || line[0] == side) then [line[1..]] else []) + Side(side, rest)
    ensures CountMark(side, [line] + rest)
            == (if line != [] && line[0] == side then 1 else 0) + CountMark(side, rest)
  {
    assert ([line] + rest)[1..] == rest;
  }

  lemma {:induction false} SideMarked(side: byte, mark: byte, lines: seq<Bytes>, rest: seq<Bytes>)
    ensures Side(side, Marked(mark, lines) + rest)
            == (if mark == SPACE || mark == side then lines else []) + Side(side, rest)
    ensures CountMark(side, Marked(mark, lines) + rest)
            == (if mark == side then |lines| else 0) + CountMark(side, rest)
  {
    if lines == [] {
      assert Marked(mark, lines) + rest == rest;
    } else {
      hide Side, CountMark;
      SideMarked(side, mark, lines[1..], rest);
      SideCons(side, [mark] + lines[0], Marked(mark, lines[1..]) + rest);
      assert Marked(mark, lines) + rest == [[mark] + lines[0]] + (Marked(mark, lines[1..]) + rest);
      assert ([mark] + lines[0])[1..] == lines[0];
    }
  }

  lemma {:induction false} CommonPrefixEqual(a: seq<Bytes>, b: seq<Bytes>)
    ensures var k := CommonPrefix(a, b);
            && a[..k] == b[..k]
            && (k < |a| && k < |b| ==> a[k] != b[k])
  {
    if a != [] && b != [] && a[0] == b[0] {
      CommonPrefixEqual(a[1..], b[1..]);
      var k := CommonPrefix(a, b);
      assert a[..k] == [a[0]] + a[1..][..k - 1] && b[..k] == [b[0]] + b[1..][..k - 1];
    }
  }

  lemma {:induction false} CommonSuffixEqual(a: seq<Bytes>, b: seq<Bytes>)
    ensures var k := CommonSuffix(a, b);
            && a[|a| - k..] == b[|b| - k..]
            && (k < |a| && k < |b| ==> a[|a| - 1 - k] != b[|b| - 1 - k])
  {
    CommonSuffixStep(a, b);
    hide CommonSuffix;
    if a != [] && b != [] && a[|a| - 1] == b[|b| - 1] {
      CommonSuffixEqual(a[..|a| - 1], b[..|b| - 1]);
      TailsEqual(a, b, CommonSuffix(a, b));
    }
  }

  /** The diff spells both blocks: its minus side is the old block, its plus side the
      new one, and the counts are the numbers of minus and plus lines. */
  lemma {:induction false} DiffIsFaithful(path: Bytes, before: seq<Bytes>, after: seq<Bytes>)
    ensures Side(MINUS, DiffBody(before, after)) == before
    ensures Side(PLUS, DiffBody(before, after)) == after
    ensures CountMark(PLUS, DiffBody(before, after)) == ChangeOf(path, before, after).additions
    ensures CountMark(MINUS, DiffBody(before, after)) == ChangeOf(path, before, after).deletions
  {
    hide Side, CountMark, BodyOf, CommonPrefix, CommonSuffix, DiffText;
    CommonPrefixEqual(before, after);
    var prefix := Prefix(before, after);
    CommonSuffixEqual(before[prefix..], after[prefix..]);
    BodyIsFaithful(before, after, prefix, Suffix(before, after));
  }

  lemma {:induction false} BodyIsFaithful(before: seq<Bytes>, after: seq<Bytes>, prefix: nat, suffix: nat)
    requires prefix + suffix <= |before| && prefix + suffix <= |after| && before[..prefix] == after[..prefix]
    requires before[prefix..][|before| - prefix - suffix..] == after[prefix..][|after| - prefix - suffix..]
    ensures var body := BodyOf(before, after, prefix, suffix);
            && Side(MINUS, body) == before && Side(PLUS, body) == after
            && CountMark(MINUS, body) == |before| - prefix - suffix
            && CountMark(PLUS, body) == |after| - prefix - suffix
  {
    hide Side, CountMark, Marked;
    Pieces(before, after, prefix, suffix);
    var s1, s2 := before[..prefix], before[prefix..|before| - suffix];
    var s3, s4 := after[prefix..|after| - suffix], before[|before| - suffix..];
    SideBody(MINUS, s1, s2, s3, s4);
    SideBody(PLUS, s1, s2, s3, s4);
  }

  lemma {:induction false} Pieces(before: seq<Bytes>, after: seq<Bytes>, prefix: nat, suffix: nat)
    requires prefix + suffix <= |before| && prefix + suffix <= |after| && before[..prefix] == after[..prefix]
    requires before[prefix..][|before| - prefix - suffix..] == after[prefix..][|after| - prefix - suffix..]
    ensures before == before[..prefix] + before[prefix..|before| - suffix] + before[|before| - suffix..]
    ensures after == before[..prefix] + after[prefix..|after| - suffix] + before[|before| - suffix..]
  {
    assert before[prefix..][|before| - prefix - suffix..] == before[|before| - suffix..];
    assert after[prefix..][|after| - prefix - suffix..] == after[|after| - suffix..];
  }

  lemma {:induction false} SideBody(side: byte, s1: seq<Bytes>, s2: seq<Bytes>, s3: seq<Bytes>, s4: seq<Bytes>)
    requires side == MINUS || side == PLUS
    ensures var body := Marked(SPACE, s1) + Marked(MINUS, s2) + Marked(PLUS, s3) + Marked(SPACE, s4);
            && Side(side, body) == s1 + (if side == MINUS then s2 else s3) + s4
            && CountMark(side, body) == |if side == MINUS then s2 else s3|
  {
    var m1, m2, m3, m4 := Marked(SPACE, s1), Marked(MINUS, s2), Marked(PLUS, s3), Marked(SPACE, s4);
    NothingOnASide(side);
    assert MINUS != PLUS && MINUS != SPACE && PLUS != SPACE;
    hide *;
    FourParts(m1, m2, m3, m4);
    SideMarked(side, SPACE, s4, []);
    SideMarked(side, PLUS, s3, m4);
    SideMarked(side, MINUS, s2, m3 + m4);
    SideMarked(side, SPACE, s1, m2 + (m3 + m4));
    if side == MINUS { ThreeParts(s1, s2, s4); } else { ThreeParts(s1, s3, s4); }
  }

  lemma FourParts(a: seq<Bytes>, b: seq<Bytes>, c: seq<Bytes>, d: seq<Bytes>)
    ensures a + b + c + d == a + (b + (c + d)) && d + [] == d
  {
  }

  lemma ThreeParts(a: seq<Bytes>, b: seq<Bytes>, c: seq<Bytes>)
    ensures a + (b + ([] + (c + []))) == a + b + c && a + ([] + (b + (c + []))) == a + b + c
  {
  }

  lemma NothingOnASide(side: byte)
    ensures Side(side, []) == [] && CountMark(side, []) == 0
  {
  }

  /** The changed parts share neither their first nor their last line. */
  lemma {:induction false} DiffIsTrimmed(before: seq<Bytes>, after: seq<Bytes>)
    ensures var prefix, suffix := Prefix(before, after), Suffix(before, after);
            var minus, plus := before[prefix..|before| - suffix], after[prefix..|after| - suffix];
            minus != [] && plus != [] ==> minus[0] != plus[0] && minus[|minus| - 1] != plus[|plus| - 1]
  {
    CommonPrefixEqual(before, after);
    var prefix := Prefix(before, after);
    CommonSuffixEqual(before[prefix..], after[prefix..]);
  }

  // ---------- approving the diff is approving the edit ----------

  lemma {:induction false} BlockLinesJoin(text: Bytes)
    ensures Unbroken(BlockLines(text)) && Join(BlockLines(text), [LF]) == text
  {
    if text != [] {
      SplitUnbroken(text);
      JoinSplit(text);
    }
  }

  lemma {:induction false} MarkedUnbroken(mark: byte, lines: seq<Bytes>)
    requires Unbroken(lines) && mark != LF
    ensures Unbroken(Marked(mark, lines))
  {
    if lines != [] {
      assert lines[0] in lines;
      assert forall line :: line in lines[1..] ==> line in lines;
      MarkedUnbroken(mark, lines[1..]);
    }
  }

  lemma {:induction false} SliceUnbroken(lines: seq<Bytes>, a: nat, b: nat)
    requires a <= b <= |lines| && Unbroken(lines)
    ensures Unbroken(lines[a..b])
  {
    assert forall line :: line in lines[a..b] ==> line in lines;
  }

  lemma {:induction false} BodyUnbroken(before: seq<Bytes>, after: seq<Bytes>)
    requires Unbroken(before) && Unbroken(after)
    ensures Unbroken(DiffBody(before, after))
  {
    hide Marked, CommonPrefix, CommonSuffix;
    var prefix, suffix := Prefix(before, after), Suffix(before, after);
    var s1, s2 := before[..prefix], before[prefix..|before| - suffix];
    var s3, s4 := after[prefix..|after| - suffix], before[|before| - suffix..];
    SliceUnbroken(before, 0, prefix);
    SliceUnbroken(before, prefix, |before| - suffix);
    SliceUnbroken(after, prefix, |after| - suffix);
    SliceUnbroken(before, |before| - suffix, |before|);
    MarkedUnbroken(SPACE, s1);
    MarkedUnbroken(MINUS, s2);
    MarkedUnbroken(PLUS, s3);
    MarkedUnbroken(SPACE, s4);
  }

  lemma {:induction false} DiffFirstLine(path: Bytes, body: seq<Bytes>)
    requires LF !in path
    ensures var d := DiffText(path, body);
            LineLength(d) == |path| + 4 && path == d[4..|path| + 4]
  {
    var head, d := [MINUS, MINUS, MINUS, SPACE] + path, DiffText(path, body);
    assert d[..|head|] == head;
    LineLengthUnique(d, |head|);
    assert path == head[4..];
  }

  lemma {:induction false} DiffTail(path: Bytes, body: seq<Bytes>)
    ensures var d, k := DiffText(path, body), 2 * |path| + 11 + |HUNK|;
            k < |d| && Join(body, [LF]) == d[k..|d| - 1]
  {
    var head := [MINUS, MINUS, MINUS, SPACE] + path + [LF, PLUS, PLUS, PLUS, SPACE] + path + [LF] + HUNK + [LF];
    assert DiffText(path, body) == head + Join(body, [LF]) + [LF];
  }

  lemma {:induction false} BodyFromDiff(path: Bytes, path': Bytes, body: seq<Bytes>, body': seq<Bytes>)
    requires LF !in path && LF !in path' && DiffText(path, body) == DiffText(path', body')
    requires body != [] && body' != [] && Unbroken(body) && Unbroken(body')
    ensures path == path' && body == body'
  {
    hide DiffText, Join, Split;
    DiffFirstLine(path, body);
    DiffFirstLine(path', body');
    DiffTail(path, body);
    DiffTail(path', body');
    SplitJoin(body);
    SplitJoin(body');
  }

  /** Two edits with the same diff are the same edit of the same path, so the approved
      diff determines what will be written. */
  lemma {:induction false} DiffDeterminesEdit(path: Bytes, oldText: Bytes, newText: Bytes, path': Bytes, oldText': Bytes, newText': Bytes)
    requires LF !in path && LF !in path'
    requires BuildEdit(path, oldText, newText).Ok? && BuildEdit(path', oldText', newText').Ok?
    requires BuildEdit(path, oldText, newText).value.1.diff == BuildEdit(path', oldText', newText').value.1.diff
    ensures path == path' && BuildEdit(path, oldText, newText) == BuildEdit(path', oldText', newText')
  {
    hide Normalize, DiffText, DiffBody;
    var edit, edit' := BuildEdit(path, oldText, newText).value.0, BuildEdit(path', oldText', newText').value.0;
    EditBody(path, edit);
    EditBody(path', edit');
    BodyFromDiff(path, path', DiffBody(BlockLines(edit.oldText), BlockLines(edit.newText)),
                 DiffBody(BlockLines(edit'.oldText), BlockLines(edit'.newText)));
  }

  lemma {:induction false} EditBody(path: Bytes, edit: TextEdit)
    requires edit.oldText != edit.newText
    ensures var body := DiffBody(BlockLines(edit.oldText), BlockLines(edit.newText));
            && body != [] && Unbroken(body)
            && Join(Side(MINUS, body), [LF]) == edit.oldText && Join(Side(PLUS, body), [LF]) == edit.newText
  {
    hide DiffBody, BlockLines;
    var before, after := BlockLines(edit.oldText), BlockLines(edit.newText);
    BlockLinesJoin(edit.oldText);
    BlockLinesJoin(edit.newText);
    BodyUnbroken(before, after);
    DiffIsFaithful(path, before, after);
    assert Side(MINUS, []) == [] && Side(PLUS, []) == [];
  }

  /** The persisted data of buildTextEdit passes the later check exactly when both
      blocks are clean: no BOM in front and no newline at the end is left. */
  lemma {:induction false} OwnOutputAccepted(path: Bytes, oldText: Bytes, newText: Bytes)
    requires BuildEdit(path, oldText, newText).Ok?
    ensures var (edit, change) := BuildEdit(path, oldText, newText).value;
            Validate(path, edit, change) <==> Approved(edit.oldText) && Approved(edit.newText)
  {
    hide ReplaceCrLf, DiffText, DiffBody, ChangeOf;
    var (edit, change) := BuildEdit(path, oldText, newText).value;
    NormalizedIsClean(oldText);
    NormalizedIsClean(newText);
    FixedPoints(edit.oldText);
    FixedPoints(edit.newText);
  }

  lemma {:induction false} NormalizedIsClean(text: Bytes)
    ensures Normalize(text, true).Ok? ==> NUL !in Normalize(text, true).value && CR !in Normalize(text, true).value
  {
    hide ReplaceCrLf;
    if Normalize(text, true).Ok? {
      var value := ReplaceCrLf(TrimBom(text));
      assert forall b :: b in TrimFinalLf(value) ==> b in value;
    }
  }

  /** "a\n\n" against "b" is built but never validates: normalising it again changes it. */
  lemma {:induction false} TrailingBlankLineRefused(path: Bytes)
    ensures BuildEdit(path, [97, LF, LF], [98]).Ok?
    ensures var (edit, change) := BuildEdit(path, [97, LF, LF], [98]).value;
            edit.oldText == [97, LF] && !Validate(path, edit, change)
  {
    ReplaceCrLfWithoutCr([97, LF, LF]);
    ReplaceCrLfWithoutCr([98]);
    OwnOutputAccepted(path, [97, LF, LF], [98]);
  }

  /** From the approval to the file: with a validated change and a unique match, the
      lines written over the block are the plus side of the approved diff. */
  lemma {:induction false} ReviewedLinesAreWritten(num: AwkNumber, file: Bytes, path: Bytes, edit: TextEdit, change: FileChange, p: nat)
    requires Validate(path, edit, change) && edit.oldText != [] && edit.newText != []
    requires Matches(num, Parse(file), Records(edit.oldText)) == {p}
    ensures exists body ::
              && change.diff == DiffText(path, body)
              && Side(MINUS, body) == Records(edit.oldText)
              && 0 < |Records(edit.oldText)| && p + |Records(edit.oldText)| <= |Parse(file).lines|
              && Change(num, Some(file), edit)
                 == Written(Render(ReplacedDoc(Parse(file), p, |Records(edit.oldText)|, Side(PLUS, body))))
  {
    hide Change, ReplacedDoc, DiffText, DiffBody, Parse, Records, Split, MatchesBelow, Side, CountMark, Normalize;
    OwnOutputAccepted(path, edit.oldText, edit.newText);
    ReplacementRewritesTheBlock(num, file, edit, p);
    ApprovedRecords(edit.oldText);
    ApprovedRecords(edit.newText);
    DiffIsFaithful(path, Split(edit.oldText), Split(edit.newText));
    var body := DiffBody(Split(edit.oldText), Split(edit.newText));
    assert change.diff == DiffText(path, body);
  }
}
