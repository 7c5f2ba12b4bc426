/** Limited views of tool output: a head, a tail, or both, cut between characters. */
module OutputViews {
  import opened Wrappers
  import opened ByteText

  const MAX_VIEW_BYTES: nat := 4194304

  // ---------- UTF-8, section 4 of RFC 3629 ----------

  predicate Continuation(b: byte) { 0x80 <= b <= 0xBF }

  /** utf8.RuneStart */
  predicate RuneStart(b: byte) { !Continuation(b) }

  predicate ContinuationAt(s: Bytes, k: nat) { k < |s| && Continuation(s[k]) }

  predicate Between(s: Bytes, k: nat, low: int, high: int) { k < |s| && low <= s[k] as int <= high }

  /** The length of the character s starts with, 0 if there is none. */
  function Width(s: Bytes): (w: nat)
    ensures w <= 4 && w <= |s|
    ensures w > 0 ==> RuneStart(s[0]) && forall k :: 1 <= k < w ==> Continuation(s[k])
  {
    if s == [] then 0
    else if s[0] <= 0x7F then 1
    else if 0xC2 <= s[0] <= 0xDF && ContinuationAt(s, 1) then 2
    else if s[0] == 0xE0 && Between(s, 1, 0xA0, 0xBF) && ContinuationAt(s, 2) then 3
    else if (0xE1 <= s[0] <= 0xEC || 0xEE <= s[0] <= 0xEF) && ContinuationAt(s, 1) && ContinuationAt(s, 2) then 3
    else if s[0] == 0xED && Between(s, 1, 0x80, 0x9F) && ContinuationAt(s, 2) then 3
    else if s[0] == 0xF0 && Between(s, 1, 0x90, 0xBF) && ContinuationAt(s, 2) && ContinuationAt(s, 3) then 4
    else if 0xF1 <= s[0] <= 0xF3 && ContinuationAt(s, 1) && ContinuationAt(s, 2) && ContinuationAt(s, 3) then 4
    else if s[0] == 0xF4 && Between(s, 1, 0x80, 0x8F) && ContinuationAt(s, 2) && ContinuationAt(s, 3) then 4
    else 0
  }

  predicate ValidUTF8(s: Bytes)
    decreases |s|
  {
    s == [] || (Width(s) > 0 && ValidUTF8(s[Width(s)..]))
  }

  predicate Scalar(c: nat) { c <= 0xD7FF || 0xE000 <= c <= 0x10FFFF }

  function Follower(c: nat): byte { (0x80 + c % 0x40) as byte }

  /** How a character number is written, section 3 of RFC 3629. */
  function Encode(c: nat): Bytes
    requires Scalar(c)
  {
    if c < 0x80 then [c as byte]
    else if c < 0x800 then [(0xC0 + c / 0x40) as byte, Follower(c)]
    else if c < 0x10000 then [(0xE0 + c / 0x1000) as byte, Follower(c / 0x40), Follower(c)]
    else [(0xF0 + c / 0x40000) as byte, Follower(c / 0x1000), Follower(c / 0x40), Follower(c)]
  }

  lemma {:induction false} EncodedWidth(c: nat, rest: Bytes)
    requires Scalar(c)
    ensures Encode(c) != [] && Width(Encode(c) + rest) == |Encode(c)|
  {
    EncodedAlone(c);
    hide Encode;
    assert (Encode(c) + rest)[..|Encode(c)|] == Encode(c) == Encode(c)[..|Encode(c)|];
    WidthIsLocal(Encode(c), Encode(c) + rest);
  }

  lemma {:induction false} EncodedAlone(c: nat)
    requires Scalar(c)
    ensures Encode(c) != [] && Width(Encode(c)) == |Encode(c)|
  {
    if 0x800 <= c < 0x10000 { EncodedThree(c); }
    if 0x10000 <= c { EncodedFour(c); }
  }

  lemma {:induction false} EncodedThree(c: nat)
    requires Scalar(c) && 0x800 <= c < 0x10000
    ensures Width(Encode(c)) == 3
  {
    assert c / 0x1000 == 0 ==> c / 0x40 % 0x40 >= 0x20;
    assert c / 0x1000 == 0xD ==> c / 0x40 % 0x40 < 0x20;
  }

  lemma {:induction false} EncodedFour(c: nat)
    requires Scalar(c) && 0x10000 <= c
    ensures Width(Encode(c)) == 4
  {
    assert c / 0x40000 == 0 ==> c / 0x1000 % 0x40 >= 0x10;
    assert c / 0x40000 == 4 ==> c / 0x1000 % 0x40 < 0x10;
  }

  lemma {:induction false} Sextets(a: nat, b: nat, c: nat)
    requires b < 0x40 && c < 0x40
    ensures var n := a * 0x1000 + b * 0x40 + c;
      n / 0x1000 == a && n / 0x40 == a * 0x40 + b && n / 0x40 % 0x40 == b && n % 0x40 == c
  {
  }

  /** The number of the character s starts with. */
  lemma {:induction false} WidthDecodes(s: Bytes) returns (c: nat)
    requires Width(s) > 0
    ensures Scalar(c) && s[..Width(s)] == Encode(c)
  {
    if Width(s) == 1 {
      c := s[0] as nat;
    } else if Width(s) == 2 {
      c := DecodeTwo(s);
    } else if Width(s) == 3 {
      c := DecodeThree(s);
    } else {
      c := DecodeFour(s);
    }
  }

  lemma {:induction false} DecodeTwo(s: Bytes) returns (c: nat)
    requires Width(s) == 2
    ensures Scalar(c) && s[..2] == Encode(c)
  {
    c := (s[0] as nat - 0xC0) * 0x40 + (s[1] as nat - 0x80);
  }

  lemma {:induction false} DecodeThree(s: Bytes) returns (c: nat)
    requires Width(s) == 3
    ensures Scalar(c) && s[..3] == Encode(c)
  {
    var a, b, d := s[0] as nat - 0xE0, s[1] as nat - 0x80, s[2] as nat - 0x80;
    c := a * 0x1000 + b * 0x40 + d;
    assert 0x800 <= c < 0x10000 && Scalar(c);
    Sextets(a, b, d);
    hide Width;
    assert Follower(c / 0x40) as nat == 0x80 + b && Follower(c) as nat == 0x80 + d;
  }

  lemma {:induction false} DecodeFour(s: Bytes) returns (c: nat)
    requires Width(s) == 4
    ensures Scalar(c) && s[..4] == Encode(c)
  {
    var a, b, d, e := s[0] as nat - 0xF0, s[1] as nat - 0x80, s[2] as nat - 0x80, s[3] as nat - 0x80;
    c := (a * 0x40 + b) * 0x1000 + d * 0x40 + e;
    assert 0x10000 <= c <= 0x10FFFF;
    Sextets(a * 0x40 + b, d, e);
    assert c / 0x1000 == a * 0x40 + b && c / 0x40000 == a;
    hide Width;
    assert Follower(c / 0x1000) as nat == 0x80 + b && Follower(c / 0x40) as nat == 0x80 + d && Follower(c) as nat == 0x80 + e;
  }

  function EncodeAll(cs: seq<nat>): Bytes
    requires forall k :: 0 <= k < |cs| ==> Scalar(cs[k])
  {
    if cs == [] then [] else Encode(cs[0]) + EncodeAll(cs[1..])
  }

  ghost predicate IsText(cs: seq<nat>, s: Bytes) { (forall k :: 0 <= k < |cs| ==> Scalar(cs[k])) && EncodeAll(cs) == s }

  lemma {:induction false} IsTextPrepend(c: nat, cs: seq<nat>, s: Bytes)
    requires Width(s) > 0 && Scalar(c) && s[..Width(s)] == Encode(c) && IsText(cs, s[Width(s)..])
    ensures IsText([c] + cs, s)
  {
    hide Width, Encode, Scalar;
    assert ([c] + cs)[1..] == cs && s == s[..Width(s)] + s[Width(s)..];
  }

  lemma {:induction false} IsTextRest(cs: seq<nat>, s: Bytes)
    requires IsText(cs, s) && s != []
    ensures Width(s) > 0 && cs != [] && IsText(cs[1..], s[Width(s)..])
  {
    hide Width, Encode, Scalar;
    assert cs != [] && Scalar(cs[0]);
    EncodedWidth(cs[0], EncodeAll(cs[1..]));
    assert s[Width(s)..] == EncodeAll(cs[1..]);
  }

  /** Text is valid if and only if it is some characters written one after the other. */
  lemma {:induction false} ValidExactly(s: Bytes)
    ensures ValidUTF8(s) <==> exists cs :: IsText(cs, s)
    decreases |s|
  {
    if s == [] {
      assert IsText([], s);
    } else {
      ValidUnfolds(s);
      hide *;
      if ValidUTF8(s) {
        var c := WidthDecodes(s);
        ValidExactly(s[Width(s)..]);
        var cs :| IsText(cs, s[Width(s)..]);
        IsTextPrepend(c, cs, s);
      }
      forall cs | IsText(cs, s) ensures ValidUTF8(s) {
        IsTextRest(cs, s);
        ValidExactly(s[Width(s)..]);
      }
    }
  }

  /** Only the bytes of the character itself decide its width. */
  lemma {:induction false} WidthIsLocal(s: Bytes, t: Bytes)
    requires Width(s) > 0 && Width(s) <= |t| && s[..Width(s)] == t[..Width(s)]
    ensures Width(t) == Width(s)
  {
    var w := Width(s);
    assert forall k :: 0 <= k < w ==> t[k] == s[..w][k] == t[..w][k] == s[k];
  }

  lemma {:induction false} ValidConcat(a: Bytes, b: Bytes)
    requires ValidUTF8(a) && ValidUTF8(b)
    ensures ValidUTF8(a + b)
    decreases |a|
  {
    if a == [] {
      assert a + b == b;
    } else {
      var w := Width(a);
      assert (a + b)[..w] == a[..w] && (a + b)[w..] == a[w..] + b;
      WidthIsLocal(a, a + b);
      ValidConcat(a[w..], b);
    }
  }

  predicate Boundary(s: Bytes, k: nat) { k == |s| || (k < |s| && RuneStart(s[k])) }

  /** Valid text can be cut exactly where a character starts. */
  lemma {:induction false} CutsAtBoundaries(s: Bytes, k: nat)
    requires ValidUTF8(s) && k <= |s|
    ensures ValidUTF8(s[..k]) <==> Boundary(s, k)
    ensures ValidUTF8(s[k..]) <==> Boundary(s, k)
    decreases |s|
  {
    ValidUnfolds(s);
    hide ValidUTF8;
    if k == 0 {
      assert s[0..] == s && s[..0] == [];
      ValidNothing();
    } else {
      var w := Width(s);
      hide Width;
      if k < w {
        InsideCharacter(s, k);
      } else {
        CutsAtBoundaries(s[w..], k - w);
        BehindCharacter(s, k);
      }
    }
  }

  lemma ValidNothing()
    ensures ValidUTF8([])
  {
  }

  lemma ValidUnfolds(s: Bytes)
    ensures ValidUTF8(s) <==> s == [] || (Width(s) > 0 && ValidUTF8(s[Width(s)..]))
  {
  }

  lemma {:induction false} BehindCharacter(s: Bytes, k: nat)
    requires 0 < Width(s) <= k <= |s|
    ensures var w := Width(s);
      && (ValidUTF8(s[..k]) <==> ValidUTF8(s[w..][..k - w])) && s[k..] == s[w..][k - w..]
      && (Boundary(s, k) <==> Boundary(s[w..], k - w))
  {
    var w := Width(s);
    assert s[..k][w..] == s[w..][..k - w] && s[..k][..w] == s[..w];
    WidthIsLocal(s, s[..k]);
    ValidUnfolds(s[..k]);
    hide ValidUTF8, Width;
  }

  lemma {:induction false} InsideCharacter(s: Bytes, k: nat)
    requires 0 < k < Width(s)
    ensures !Boundary(s, k) && !ValidUTF8(s[..k]) && !ValidUTF8(s[k..])
  {
    assert Continuation(s[k]);
    assert Width(s[k..]) == 0;
    if Width(s[..k]) > 0 {
      assert s[..k][..Width(s[..k])] == s[..Width(s[..k])];
      WidthIsLocal(s[..k], s);
    }
  }

  // ---------- cutting ----------

  /** The last boundary at or before k, or 0. */
  function CutBefore(s: Bytes, k: nat): (end: nat)
    requires k <= |s|
    ensures end <= k
  {
    if k == 0 || Boundary(s, k) then k else CutBefore(s, k - 1)
  }

  /** The first boundary at or after k. */
  function CutAfter(s: Bytes, k: nat): (start: nat)
    requires k <= |s|
    ensures k <= start <= |s|
    decreases |s| - k
  {
    if Boundary(s, k) then k else CutAfter(s, k + 1)
  }

  function Prefix(value: Bytes, limit: nat): Bytes {
    if limit >= |value| then value else value[..CutBefore(value, limit)]
  }

  function Suffix(value: Bytes, limit: nat): Bytes {
    if limit >= |value| then value else value[CutAfter(value, |value| - limit)..]
  }

  method ValidUTF8Prefix(value: Bytes, limit: nat) returns (prefix: Bytes)
    ensures prefix == Prefix(value, limit)
  {
    if limit >= |value| { return value; }
    var end := limit;
    while end > 0 && end < |value| && !RuneStart(value[end])
      invariant 0 <= end <= limit && CutBefore(value, end) == CutBefore(value, limit)
    {
      end := end - 1;
    }
    prefix := value[..end];
  }

  method ValidUTF8Suffix(value: Bytes, limit: nat) returns (suffix: Bytes)
    ensures suffix == Suffix(value, limit)
  {
    if limit >= |value| { return value; }
    var start := |value| - limit;
    while start < |value| && !RuneStart(value[start])
      invariant start <= |value| && CutAfter(value, start) == CutAfter(value, |value| - limit)
    {
      start := start + 1;
    }
    suffix := value[start..];
  }

  lemma {:induction false} CutBeforeIsLast(s: Bytes, k: nat, j: nat)
    requires k <= |s| && s != [] && RuneStart(s[0]) && j <= k
    ensures Boundary(s, CutBefore(s, k))
    ensures Boundary(s, j) ==> j <= CutBefore(s, k)
  {
    if k > 0 && !Boundary(s, k) { CutBeforeIsLast(s, k - 1, if j == k then k - 1 else j); }
  }

  lemma {:induction false} CutAfterIsFirst(s: Bytes, k: nat, j: nat)
    requires k <= |s| && k <= j <= |s|
    ensures Boundary(s, CutAfter(s, k))
    ensures Boundary(s, j) ==> CutAfter(s, k) <= j
    decreases |s| - k
  {
    if !Boundary(s, k) { CutAfterIsFirst(s, k + 1, if j == k then k + 1 else j); }
  }

  /** Characters are at most four bytes long, so a cut loses at most three. */
  lemma {:induction false} BoundariesAreClose(s: Bytes, k: nat)
    requires ValidUTF8(s) && k <= |s|
    ensures exists j :: k - 3 <= j <= k && 0 <= j && Boundary(s, j)
    ensures exists j :: k <= j <= k + 3 && j <= |s| && Boundary(s, j)
    decreases |s|
  {
    if s == [] {
      assert Boundary(s, 0);
    } else {
      var w := Width(s);
      assert Boundary(s, 0) && Boundary(s, w) by { CutsAtBoundaries(s, w); }
      if k >= w {
        BoundariesAreClose(s[w..], k - w);
        var below :| k - w - 3 <= below <= k - w && 0 <= below && Boundary(s[w..], below);
        var above :| k - w <= above <= k - w + 3 && above <= |s| - w && Boundary(s[w..], above);
        assert Boundary(s, w + below) && Boundary(s, w + above);
      }
    }
  }

  /** For valid text the prefix is the longest valid one within the limit, at most three
      bytes short of it. */
  lemma {:induction false} PrefixIsLongestValid(value: Bytes, limit: nat, k: nat)
    requires ValidUTF8(value) && k <= limit && k <= |value|
    ensures Prefix(value, limit) <= value && ValidUTF8(Prefix(value, limit))
    ensures |value| <= limit ==> Prefix(value, limit) == value
    ensures |value| > limit ==> limit - 3 <= |Prefix(value, limit)| <= limit
    ensures ValidUTF8(value[..k]) ==> k <= |Prefix(value, limit)|
  {
    if |value| > limit {
      assert RuneStart(value[0]);
      hide ValidUTF8, CutBefore, RuneStart;
      var end := CutBefore(value, limit);
      BoundariesAreClose(value, limit);
      var j :| limit - 3 <= j <= limit && 0 <= j && Boundary(value, j);
      CutBeforeIsLast(value, limit, j);
      CutBeforeIsLast(value, limit, k);
      CutsAtBoundaries(value, k);
      CutsAtBoundaries(value, end);
    }
  }

  /** The cut after k is near it and leaves the longest valid rest. */
  lemma {:induction false} CutAfterIsBest(value: Bytes, from: nat, k: nat)
    requires ValidUTF8(value) && from <= k <= |value|
    ensures from <= CutAfter(value, from) <= from + 3
    ensures ValidUTF8(value[CutAfter(value, from)..])
    ensures ValidUTF8(value[k..]) ==> CutAfter(value, from) <= k
  {
    hide ValidUTF8, CutAfter, RuneStart;
    BoundariesAreClose(value, from);
    var j :| from <= j <= from + 3 && j <= |value| && Boundary(value, j);
    CutAfterIsFirst(value, from, j);
    CutAfterIsFirst(value, from, k);
    CutsAtBoundaries(value, k);
    CutsAtBoundaries(value, CutAfter(value, from));
  }

  lemma {:induction false} SuffixIsLongestValid(value: Bytes, limit: nat, k: nat)
    requires ValidUTF8(value) && k <= limit && k <= |value|
    ensures |Suffix(value, limit)| <= |value| && Suffix(value, limit) == value[|value| - |Suffix(value, limit)|..]
    ensures ValidUTF8(Suffix(value, limit))
    ensures |value| <= limit ==> Suffix(value, limit) == value
    ensures |value| > limit ==> limit - 3 <= |Suffix(value, limit)| <= limit
    ensures ValidUTF8(value[|value| - k..]) ==> k <= |Suffix(value, limit)|
  {
    hide ValidUTF8, CutAfter;
    if |value| > limit {
      CutAfterIsBest(value, |value| - limit, |value| - k);
    } else {
      assert value[0..] == value;
    }
  }

  // ---------- views ----------

  function View(value: Bytes, maxBytes: nat, view: string): Bytes {
    if maxBytes == 0 || |value| <= maxBytes then value
    else if view == "head" then Prefix(value, maxBytes)
    else if view == "tail" then Suffix(value, maxBytes)
    else Prefix(value, maxBytes / 2) + Suffix(value, maxBytes - maxBytes / 2)
  }

  method SelectOutputView(value: Bytes, maxBytes: nat, view: string) returns (r: Bytes)
    ensures r == View(value, maxBytes, view)
  {
    hide Prefix, Suffix;
    if maxBytes == 0 || |value| <= maxBytes { return value; }
    if view == "head" {
      r := ValidUTF8Prefix(value, maxBytes);
    } else if view == "tail" {
      r := ValidUTF8Suffix(value, maxBytes);
    } else {
      var headBytes := maxBytes / 2;
      var head := ValidUTF8Prefix(value, headBytes);
      var tail := ValidUTF8Suffix(value, maxBytes - headBytes);
      r := head + tail;
    }
  }

  /** Every view of valid text is valid and within the limit: a prefix, a suffix, or a prefix
      and a later suffix that do not overlap, and at most six bytes of the limit go unused. */
  lemma {:induction false} ViewsAreSound(value: Bytes, maxBytes: nat, view: string) returns (head: nat, tail: nat)
    requires ValidUTF8(value)
    ensures head <= tail <= |value|
    ensures View(value, maxBytes, view) == value[..head] + value[tail..]
    ensures ValidUTF8(View(value, maxBytes, view))
    ensures maxBytes > 0 ==> |View(value, maxBytes, view)| <= maxBytes
    ensures maxBytes == 0 || |value| <= maxBytes ==> head == tail
    ensures 0 < maxBytes < |value| ==> maxBytes - 6 <= |View(value, maxBytes, view)|
    ensures 0 < maxBytes < |value| && view == "head" ==> tail == |value|
    ensures 0 < maxBytes < |value| && view == "tail" ==> head == 0
  {
    hide ValidUTF8, Prefix, Suffix;
    if maxBytes == 0 || |value| <= maxBytes {
      head, tail := |value|, |value|;
      assert value[..|value|] + value[|value|..] == value;
    } else if view == "head" {
      PrefixIsLongestValid(value, maxBytes, 0);
      head, tail := |Prefix(value, maxBytes)|, |value|;
      assert value[..head] + value[tail..] == value[..head];
    } else if view == "tail" {
      SuffixIsLongestValid(value, maxBytes, 0);
      head, tail := 0, |value| - |Suffix(value, maxBytes)|;
      assert value[..0] + value[tail..] == value[tail..];
    } else {
      PrefixIsLongestValid(value, maxBytes / 2, 0);
      SuffixIsLongestValid(value, maxBytes - maxBytes / 2, 0);
      head, tail := |Prefix(value, maxBytes / 2)|, |value| - |Suffix(value, maxBytes - maxBytes / 2)|;
      assert value[..head] == Prefix(value, maxBytes / 2);
      assert value[tail..] == Suffix(value, maxBytes - maxBytes / 2);
      ValidConcat(value[..head], value[tail..]);
    }
  }

  // ---------- selecting the output of an execution ----------

  datatype Problem = BadLimit | ViewWithoutLimit | BadView | BadOffset

  /** normalize stands for strings.ToLower(strings.TrimSpace(view)). */
  function NormalizedView(normalize: string -> string, maxBytes: int, view: string): Result<string, Problem> {
    var v := normalize(view);
    if maxBytes < 0 || maxBytes > MAX_VIEW_BYTES then Err(BadLimit)
    else if maxBytes == 0 then if v != "" then Err(ViewWithoutLimit) else Ok("")
    else if v == "" then Ok("head_tail")
    else if v == "head" || v == "tail" || v == "head_tail" then Ok(v)
    else Err(BadView)
  }

  /** A limit of up to 4 MiB goes with a view, both ends by default, and no limit with none. */
  lemma ViewAcceptedExactly(normalize: string -> string, maxBytes: int, view: string)
    ensures var v := normalize(view);
      NormalizedView(normalize, maxBytes, view) ==
        if maxBytes == 0 then if v == "" then Ok("") else Err(ViewWithoutLimit)
        else if maxBytes < 1 || 4194304 < maxBytes then Err(BadLimit)
        else if v in ["", "head", "tail", "head_tail"] then Ok(if v == "" then "head_tail" else v)
        else Err(BadView)
  {
  }

  datatype Selection = Selection(text: Bytes, offset: nat, omitted: nat, total: nat)

  datatype Selected = Selected(stdout: Selection, stderr: Selection, limited: bool, view: string)

  predicate OffsetOk(stream: Bytes, offset: int) { 0 <= offset <= |stream| }

  function Select(stream: Bytes, offset: nat, maxBytes: nat, view: string, report: bool): Selection
    requires offset <= |stream|
  {
    var text := View(stream[offset..], maxBytes, view);
    Selection(text, offset, if |text| <= |stream| - offset then |stream| - offset - |text| else 0, if report then |stream| else 0)
  }

  method SelectExecResultOutput(normalize: string -> string, stdout: Bytes, stderr: Bytes, stdoutOffset: int, stderrOffset: int,
                                maxBytes: int, view: string, reportTotals: bool) returns (r: Result<Selected, Problem>)
    ensures r.Ok? <==> NormalizedView(normalize, maxBytes, view).Ok? && OffsetOk(stdout, stdoutOffset) && OffsetOk(stderr, stderrOffset)
    ensures r.Err? ==>
      r.error == match NormalizedView(normalize, maxBytes, view) case Err(e) => e case Ok(_) => BadOffset
    ensures r.Ok? ==>
      && |r.value.stdout.text| + r.value.stdout.omitted == |stdout| - stdoutOffset && r.value.stdout.offset == stdoutOffset
      && |r.value.stderr.text| + r.value.stderr.omitted == |stderr| - stderrOffset && r.value.stderr.offset == stderrOffset
      && r.value.stdout.total == (if reportTotals || maxBytes > 0 || stdoutOffset > 0 || stderrOffset > 0 then |stdout| else 0)
      && r.value.stderr.total == (if reportTotals || maxBytes > 0 || stdoutOffset > 0 || stderrOffset > 0 then |stderr| else 0)
    ensures r.Ok? ==>
      && r.value.stdout.text == View(stdout[stdoutOffset..], maxBytes, r.value.view)
      && r.value.stderr.text == View(stderr[stderrOffset..], maxBytes, r.value.view)
    ensures r.Ok? ==>
      var v := NormalizedView(normalize, maxBytes, view).value;
      var report := reportTotals || maxBytes > 0 || stdoutOffset > 0 || stderrOffset > 0;
      && r.value.stdout == Select(stdout, stdoutOffset, maxBytes, v, report)
      && r.value.stderr == Select(stderr, stderrOffset, maxBytes, v, report)
      && (r.value.limited <==> r.value.stdout.omitted > 0 || r.value.stderr.omitted > 0)
      && r.value.view == v
  {
    var normalized := NormalizedView(normalize, maxBytes, view);
    if normalized.Err? { return Err(normalized.error); }
    if stdoutOffset < 0 || stdoutOffset > |stdout| || stderrOffset < 0 || stderrOffset > |stderr| { return Err(BadOffset); }
    var out := SelectOutputView(stdout[stdoutOffset..], maxBytes, normalized.value);
    var err := SelectOutputView(stderr[stderrOffset..], maxBytes, normalized.value);
    ViewIsShorter(stdout[stdoutOffset..], maxBytes, normalized.value);
    ViewIsShorter(stderr[stderrOffset..], maxBytes, normalized.value);
    hide View;
    var report := reportTotals || maxBytes > 0 || stdoutOffset > 0 || stderrOffset > 0;
    var omittedOut, omittedErr := |stdout| - stdoutOffset - |out|, |stderr| - stderrOffset - |err|;
    r := Ok(Selected(Selection(out, stdoutOffset, omittedOut, if report then |stdout| else 0),
                     Selection(err, stderrOffset, omittedErr, if report then |stderr| else 0),
                     omittedOut > 0 || omittedErr > 0, normalized.value));
  }

  lemma ViewIsShorter(value: Bytes, maxBytes: nat, view: string)
    ensures |View(value, maxBytes, view)| <= |value|
  {
  }

  // ---------- following the head view page by page ----------

  /** historyRunDetail reports a next offset while the head view leaves something. */
  function NextOffset(stream: Bytes, offset: nat, maxBytes: nat): Option<nat>
    requires offset <= |stream|
  {
    var next := offset + |View(stream[offset..], maxBytes, "head")|;
    if next < |stream| then Some(next) else None
  }

  /** A page of the rest of a valid stream is empty exactly when its first character does not fit. */
  lemma {:induction false} PageProgressesExactly(rest: Bytes, maxBytes: nat)
    requires ValidUTF8(rest) && rest != [] && maxBytes > 0
    ensures View(rest, maxBytes, "head") != [] <==> Width(rest) <= maxBytes
  {
    var w := Width(rest);
    CutsAtBoundaries(rest, w);
    assert ValidUTF8(rest[..w]) by { CutsAtBoundaries(rest, w); }
    if w <= maxBytes {
      PrefixIsLongestValid(rest, maxBytes, w);
    } else {
      PrefixIsLongestValid(rest, maxBytes, 0);
      var page := View(rest, maxBytes, "head");
      if 0 < |page| { InsideCharacter(rest, |page|); }
    }
  }

  lemma {:induction false} NextOffsetAdvances(stream: Bytes, offset: nat, maxBytes: nat, next: nat)
    requires offset <= |stream| && ValidUTF8(stream[offset..]) && maxBytes >= 4
    requires NextOffset(stream, offset, maxBytes) == Some(next)
    ensures offset < next <= |stream| && ValidUTF8(stream[next..])
  {
    hide View, ValidUTF8;
    NextPageIsReadable(stream, offset, maxBytes);
  }

  /** The pages a client reads by following the next offsets. */
  ghost function Pages(stream: Bytes, offset: nat, maxBytes: nat): seq<Bytes>
    requires offset <= |stream| && ValidUTF8(stream[offset..]) && maxBytes >= 4
    decreases |stream| - offset
  {
    hide *;
    var page := View(stream[offset..], maxBytes, "head");
    var next := NextOffset(stream, offset, maxBytes);
    if next.None? then [page]
    else
      NextOffsetAdvances(stream, offset, maxBytes, next.value);
      [page] + Pages(stream, next.value, maxBytes)
  }

  lemma {:induction false} NextPageIsReadable(stream: Bytes, offset: nat, maxBytes: nat)
    requires offset <= |stream| && ValidUTF8(stream[offset..]) && maxBytes >= 4
    requires NextOffset(stream, offset, maxBytes).Some?
    ensures var page := View(stream[offset..], maxBytes, "head");
      && page != [] && offset + |page| <= |stream|
      && page == stream[offset..offset + |page|]
      && ValidUTF8(page) && ValidUTF8(stream[offset + |page|..])
  {
    hide *;
    var rest := stream[offset..];
    SomeLeft(stream, offset, maxBytes);
    PageProgressesExactly(rest, maxBytes);
    HeadIsPrefix(rest, maxBytes);
    PrefixIsLongestValid(rest, maxBytes, 0);
    var page := View(rest, maxBytes, "head");
    CutsAtBoundaries(rest, |page|);
    PageOfRest(stream, offset, page);
  }

  lemma SomeLeft(stream: Bytes, offset: nat, maxBytes: nat)
    requires offset <= |stream| && NextOffset(stream, offset, maxBytes).Some?
    ensures stream[offset..] != [] && Width(stream[offset..]) <= 4
  {
    hide View;
  }

  lemma HeadIsPrefix(value: Bytes, maxBytes: nat)
    requires maxBytes > 0
    ensures View(value, maxBytes, "head") == Prefix(value, maxBytes)
  {
  }

  lemma {:induction false} PageOfRest(stream: Bytes, offset: nat, page: Bytes)
    requires offset <= |stream| && page <= stream[offset..]
    ensures offset + |page| <= |stream| && page == stream[offset..offset + |page|]
    ensures stream[offset..][..|page|] == page && stream[offset..][|page|..] == stream[offset + |page|..]
  {
    assert stream[offset..][|page|..] == stream[offset + |page|..];
  }

  function Joined(pages: seq<Bytes>): Bytes { if pages == [] then [] else pages[0] + Joined(pages[1..]) }

  lemma {:induction false} LastPage(stream: Bytes, offset: nat, maxBytes: nat)
    requires offset <= |stream| && ValidUTF8(stream[offset..]) && maxBytes >= 4
    requires NextOffset(stream, offset, maxBytes).None?
    ensures View(stream[offset..], maxBytes, "head") == stream[offset..]
  {
    PrefixIsLongestValid(stream[offset..], maxBytes, 0);
    hide Prefix, ValidUTF8;
  }

  lemma {:induction false} JoinedCons(page: Bytes, more: seq<Bytes>)
    ensures Joined([page] + more) == page + Joined(more)
  {
    assert ([page] + more)[1..] == more;
  }

  /** Following the next offsets ends, and the pages are exactly the stream from the offset on;
      four bytes a page are enough, and the source demands far more. */
  lemma {:induction false} PagesCoverTheStream(stream: Bytes, offset: nat, maxBytes: nat)
    requires offset <= |stream| && ValidUTF8(stream[offset..]) && maxBytes >= 4
    ensures Joined(Pages(stream, offset, maxBytes)) == stream[offset..]
    decreases |stream| - offset
  {
    hide View, ValidUTF8, Joined;
    var page := View(stream[offset..], maxBytes, "head");
    if NextOffset(stream, offset, maxBytes).None? {
      LastPage(stream, offset, maxBytes);
      JoinedCons(page, []);
      assert [page] + [] == [page];
      assert Joined([]) == [] by { JoinedNothing(); }
    } else {
      NextPageIsReadable(stream, offset, maxBytes);
      PagesCoverTheStream(stream, offset + |page|, maxBytes);
      JoinedCons(page, Pages(stream, offset + |page|, maxBytes));
      assert stream[offset..offset + |page|] + stream[offset + |page|..] == stream[offset..];
    }
  }

  lemma JoinedNothing()
    ensures Joined([]) == []
  {
  }
}
