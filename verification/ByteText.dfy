/** Byte strings as the shell, awk and Go see them, split into records at LF. */
module ByteText {

  newtype byte = x: int | 0 <= x < 256

  type Bytes = seq<byte>

  const NUL: byte := 0
  const LF: byte := 10
  const CR: byte := 13
  const SPACE: byte := 32
  const PLUS: byte := 43
  const MINUS: byte := 45
  /** U+FEFF in UTF-8, the three characters awk builds with sprintf. */
  const BOM: Bytes := [239, 187, 191]

  predicate EndsWith(s: Bytes, b: byte) {
    |s| > 0 && s[|s| - 1] == b
  }

  /** Length of the part of s before its first LF (all of s if it has none). */
  function LineLength(s: Bytes): (i: nat)
    ensures i <= |s|
  {
    if s == [] || s[0] == LF then 0 else 1 + LineLength(s[1..])
  }

  lemma {:induction false} LineLengthFacts(s: Bytes)
    ensures var i := LineLength(s); LF !in s[..i] && (i < |s| ==> s[i] == LF)
  {
    if s != [] && s[0] != LF {
      var i := LineLength(s[1..]);
      LineLengthFacts(s[1..]);
      assert s[..i + 1] == [s[0]] + s[1..][..i];
    }
  }

  /** The records awk reads from s with the default record separator: a final LF
      ends the last record and does not open another. */
  function Records(s: Bytes): seq<Bytes>
    decreases |s|
  {
    if s == [] then []
    else
      var i := LineLength(s);
      [s[..i]] + (if i == |s| then [] else Records(s[i + 1..]))
  }

  /** strings.Split(s, "\n"): always at least one part, empty after a final LF. */
  function Split(s: Bytes): (parts: seq<Bytes>)
    ensures |parts| >= 1
    decreases |s|
  {
    var i := LineLength(s);
    if i == |s| then [s] else [s[..i]] + Split(s[i + 1..])
  }

  /** strings.Join(parts, sep). */
  function Join(parts: seq<Bytes>, sep: Bytes): Bytes {
    if parts == [] then []
    else if |parts| == 1 then parts[0]
    else parts[0] + sep + Join(parts[1..], sep)
  }

  ghost predicate Unbroken(parts: seq<Bytes>) {
    forall part <- parts :: LF !in part
  }

  lemma {:induction false} LineLengthUnique(s: Bytes, i: nat)
    requires i <= |s| && LF !in s[..i] && (i < |s| ==> s[i] == LF)
    ensures LineLength(s) == i
  {
    var j := LineLength(s);
    LineLengthFacts(s);
    assert forall k :: 0 <= k < i ==> s[..i][k] == s[k];
    assert forall k :: 0 <= k < j ==> s[..j][k] == s[k];
  }

  /** The first record of s and what is left after its terminator. */
  lemma {:induction false} FirstLine(s: Bytes)
    ensures var i := LineLength(s);
            && LF !in s[..i]
            && (i == |s| ==> s[..i] == s)
            && (i < |s| ==> s == s[..i] + [LF] + s[i + 1..])
  {
    LineLengthFacts(s);
  }

  lemma {:induction false} SplitUnbroken(s: Bytes)
    ensures Unbroken(Split(s))
    decreases |s|
  {
    FirstLine(s);
    if LineLength(s) < |s| { SplitUnbroken(s[LineLength(s) + 1..]); }
  }

  lemma {:induction false} JoinSplit(s: Bytes)
    ensures Join(Split(s), [LF]) == s
    decreases |s|
  {
    FirstLine(s);
    if LineLength(s) < |s| {
      JoinSplit(s[LineLength(s) + 1..]);
      assert Split(s)[1..] == Split(s[LineLength(s) + 1..]);
    }
  }

  lemma {:induction false} SplitJoin(parts: seq<Bytes>)
    requires |parts| >= 1 && Unbroken(parts)
    ensures Split(Join(parts, [LF])) == parts
  {
    var s := Join(parts, [LF]);
    assert parts[0] in parts;
    if |parts| == 1 {
      assert s[..|s|] == parts[0];
      LineLengthUnique(s, |s|);
    } else {
      assert s[..|parts[0]|] == parts[0];
      LineLengthUnique(s, |parts[0]|);
      assert s[|parts[0]| + 1..] == Join(parts[1..], [LF]);
      SplitJoin(parts[1..]);
    }
  }

  /** awk and strings.Split read the same lines exactly when the text does not
      end in LF; otherwise Split sees one more, empty, line. */
  lemma {:induction false} RecordsVersusSplit(s: Bytes)
    ensures s != [] && !EndsWith(s, LF) ==> Records(s) == Split(s)
    ensures s == [] || EndsWith(s, LF) ==> Records(s) + [[]] == Split(s)
    decreases |s|
  {
    var i := LineLength(s);
    FirstLine(s);
    if i < |s| {
      var t := s[i + 1..];
      RecordsVersusSplit(t);
      assert EndsWith(s, LF) == (t == [] || EndsWith(t, LF));
    }
  }

  lemma {:induction false} SplitBytes(s: Bytes, i: nat)
    requires i < |Split(s)|
    ensures forall b :: b in Split(s)[i] ==> b in s
    decreases |s|
  {
    var n := LineLength(s);
    FirstLine(s);
    if i > 0 { SplitBytes(s[n + 1..], i - 1); }
  }

  lemma {:induction false} LastPart(s: Bytes)
    ensures Split(s)[|Split(s)| - 1] == [] <==> s == [] || EndsWith(s, LF)
    decreases |s|
  {
    var i := LineLength(s);
    FirstLine(s);
    if i < |s| {
      LastPart(s[i + 1..]);
      assert EndsWith(s, LF) == (s[i + 1..] == [] || EndsWith(s[i + 1..], LF));
    }
  }

  lemma {:induction false} FirstPart(s: Bytes)
    ensures Split(s)[0] <= s
  {
    FirstLine(s);
  }
}
