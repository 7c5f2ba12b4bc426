/** The redactor that buffers incomplete lines of a byte stream. */
module StreamRedaction {

  /** The regular expressions stay parameters. */
  datatype Rules = Rules(isBegin: string -> bool, isEnd: string -> bool, redact: string -> string)

  const REDACTED: string := "[REDACTED]"

  predicate EndsCr(s: string) { s != "" && s[|s| - 1] == '\r' }

  predicate StartsLf(s: string) { s != "" && s[0] == '\n' }

  // ---------- one line ----------

  function Terminator(line: string): string {
    if |line| >= 2 && line[|line| - 2..] == "\r\n" then "\r\n"
    else if |line| >= 1 && line[|line| - 1..] == "\n" then "\n"
    else if |line| >= 1 && line[|line| - 1..] == "\r" then "\r"
    else ""
  }

  /** The terminator is what ends the line, a CR and LF together. */
  lemma {:induction false} TerminatorExactly(line: string)
    ensures Terminator(line) ==
      if line != "" && line[|line| - 1] == '\n' then if |line| > 1 && line[|line| - 2] == '\r' then "\r\n" else "\n"
      else if line != "" && line[|line| - 1] == '\r' then "\r"
      else ""
  {
    if line != "" {
      assert line[|line| - 1..] == [line[|line| - 1]];
      if |line| > 1 { assert line[|line| - 2..] == [line[|line| - 2], line[|line| - 1]]; }
    }
  }

  /** redactLine: whether a private key block is open afterwards, and the output. */
  function RedactLine(rules: Rules, inKey: bool, line: string): (bool, string) {
    if inKey then (!rules.isEnd(line), "")
    else if rules.isBegin(line) then (!rules.isEnd(line), REDACTED + Terminator(line))
    else (false, rules.redact(line))
  }

  /** redactLine over lines from left to right. */
  function Fold(rules: Rules, inKey: bool, lines: seq<string>): (bool, string)
    decreases |lines|
  {
    if lines == [] then (inKey, "")
    else
      var (key, output) := RedactLine(rules, inKey, lines[0]);
      var (key', rest) := Fold(rules, key, lines[1..]);
      (key', output + rest)
  }

  // ---------- cutting a text into lines ----------

  /** strings.IndexAny(s, "\r\n"), or |s|. */
  function TerminatorIndex(s: string): (i: nat)
    ensures i <= |s|
  {
    if s == "" || s[0] == '\r' || s[0] == '\n' then 0 else 1 + TerminatorIndex(s[1..])
  }

  lemma {:induction false} TerminatorIndexFirst(s: string)
    ensures var i := TerminatorIndex(s);
            && (i < |s| ==> s[i] == '\r' || s[i] == '\n')
            && forall k :: 0 <= k < i ==> s[k] != '\r' && s[k] != '\n'
  {
    if s != "" && s[0] != '\r' && s[0] != '\n' {
      TerminatorIndexFirst(s[1..]);
      assert forall k :: 1 <= k < |s| ==> s[k] == s[1..][k - 1];
    }
  }

  /** Length of the first complete line, terminator included; 0 if there is none. */
  function FirstEnd(s: string): (end: nat)
    ensures end <= |s|
  {
    var i := TerminatorIndex(s);
    if i == |s| then 0
    else if s[i] == '\r' && i + 1 < |s| && s[i + 1] == '\n' then i + 2
    else i + 1
  }

  function Complete(s: string): seq<string>
    decreases |s|
  {
    var end := FirstEnd(s);
    if end == 0 then [] else [s[..end]] + Complete(s[end..])
  }

  function Rest(s: string): string
    decreases |s|
  {
    var end := FirstEnd(s);
    if end == 0 then s else Rest(s[end..])
  }

  /** The lines of a whole text, the unterminated last one included. */
  function AllLines(s: string): seq<string> {
    Complete(s) + if Rest(s) == "" then [] else [Rest(s)]
  }

  // ---------- the redactor ----------

  class StreamRedactor {
    const rules: Rules
    var pending: string
    var privateKeyBlock: bool

    constructor (rules: Rules)
      ensures this.rules == rules && pending == "" && !privateKeyBlock
    {
      this.rules := rules;
      pending, privateKeyBlock := "", false;
    }

    method Write(data: string) returns (output: string)
      modifies this
      ensures pending == (if data == "" then old(pending) else Rest(old(pending) + data))
      ensures (privateKeyBlock, output)
              == Fold(rules, old(privateKeyBlock), if data == "" then [] else Complete(old(pending) + data))
    {
      if data == "" {
        FoldNothing(rules, privateKeyBlock);
        return "";
      }
      hide Consumed, Complete, Rest, Fold, FirstEnd, RedactLine, TerminatorIndex;
      pending := pending + data;
      output := "";
      ghost var text, key := pending, privateKeyBlock;
      NothingConsumed(rules, key, text);
      while true
        invariant Consumed(rules, key, text, privateKeyBlock, pending, output)
        decreases |pending|
      {
        var index := TerminatorIndex(pending);
        if index == |pending| {
          break;
        }
        var end := index + 1;
        if pending[index] == '\r' && end < |pending| && pending[end] == '\n' {
          end := end + 1;
        }
        ConsumeLine(rules, key, text, privateKeyBlock, pending, output, end);
        var line := pending[..end];
        pending := pending[end..];
        var redacted := RedactOne(line);
        output := output + redacted;
      }
      AllConsumed(rules, key, text, privateKeyBlock, pending, output);
    }

    method Flush() returns (output: string)
      modifies this
      ensures pending == ""
      ensures (privateKeyBlock, output)
              == Fold(rules, old(privateKeyBlock), if old(pending) == "" then [] else [old(pending)])
    {
      if pending == "" {
        return "";
      }
      var line := pending;
      pending := "";
      output := RedactOne(line);
      assert output + "" == output;
    }

    method RedactOne(line: string) returns (output: string)
      modifies this`privateKeyBlock
      ensures (privateKeyBlock, output) == RedactLine(rules, old(privateKeyBlock), line)
    {
      if privateKeyBlock {
        if rules.isEnd(line) {
          privateKeyBlock := false;
        }
        return "";
      }
      if rules.isBegin(line) {
        if !rules.isEnd(line) {
          privateKeyBlock := true;
        }
        if |line| >= 2 && line[|line| - 2..] == "\r\n" {
          return REDACTED + "\r\n";
        } else if |line| >= 1 && line[|line| - 1..] == "\n" {
          return REDACTED + "\n";
        } else if |line| >= 1 && line[|line| - 1..] == "\r" {
          return REDACTED + "\r";
        }
        return REDACTED + "";
      }
      return rules.redact(line);
    }
  }

  lemma Associate(a: string, b: string, c: string)
    ensures (a + b) + c == a + (b + c)
  {
  }

  /** Some lines of text are redacted into output; pending is what is left of it. */
  ghost predicate Consumed(rules: Rules, key: bool, text: string, now: bool, pending: string, output: string) {
    && Rest(pending) == Rest(text)
    && Fold(rules, key, Complete(text)).0 == Fold(rules, now, Complete(pending)).0
    && Fold(rules, key, Complete(text)).1 == output + Fold(rules, now, Complete(pending)).1
  }

  lemma {:induction false} NothingConsumed(rules: Rules, key: bool, text: string)
    ensures Consumed(rules, key, text, key, text, "")
  {
    assert "" + Fold(rules, key, Complete(text)).1 == Fold(rules, key, Complete(text)).1;
  }

  lemma {:induction false} ConsumeLine(rules: Rules, key: bool, text: string, now: bool, pending: string, output: string, end: nat)
    requires Consumed(rules, key, text, now, pending, output)
    requires var i := TerminatorIndex(pending);
             && i < |pending|
             && end == if pending[i] == '\r' && i + 1 < |pending| && pending[i + 1] == '\n' then i + 2 else i + 1
    ensures var (now', redacted) := RedactLine(rules, now, pending[..end]);
            Consumed(rules, key, text, now', pending[end..], output + redacted)
  {
    hide Complete, Rest, Fold, FirstEnd, RedactLine, TerminatorIndex;
    FirstComplete(pending);
    FoldCons(rules, now, pending[..end], Complete(pending[end..]));
    var (now', redacted) := RedactLine(rules, now, pending[..end]);
    Associate(output, redacted, Fold(rules, now', Complete(pending[end..])).1);
  }

  lemma {:induction false} AllConsumed(rules: Rules, key: bool, text: string, now: bool, pending: string, output: string)
    requires Consumed(rules, key, text, now, pending, output) && TerminatorIndex(pending) == |pending|
    ensures pending == Rest(text) && Fold(rules, key, Complete(text)) == (now, output)
  {
    FirstComplete(pending);
    FoldNothing(rules, now);
    assert output + "" == output;
  }

  lemma {:induction false} FirstComplete(s: string)
    ensures var i := TerminatorIndex(s);
            var end := if i < |s| && s[i] == '\r' && i + 1 < |s| && s[i + 1] == '\n' then i + 2 else i + 1;
            if i == |s| then Complete(s) == [] && Rest(s) == s
            else Complete(s) == [s[..end]] + Complete(s[end..]) && Rest(s) == Rest(s[end..])
  {
    hide *;
    FirstEndIs(s);
    CompleteStep(s);
  }

  lemma {:induction false} FirstEndIs(s: string)
    ensures var i := TerminatorIndex(s);
            FirstEnd(s) == if i == |s| then 0
                           else if s[i] == '\r' && i + 1 < |s| && s[i + 1] == '\n' then i + 2 else i + 1
  {
    hide TerminatorIndex;
  }

  lemma {:induction false} FoldCons(rules: Rules, inKey: bool, line: string, rest: seq<string>)
    ensures var (key, output) := RedactLine(rules, inKey, line);
            Fold(rules, inKey, [line] + rest) == (Fold(rules, key, rest).0, output + Fold(rules, key, rest).1)
  {
    assert ([line] + rest)[1..] == rest;
  }

  lemma FoldNothing(rules: Rules, inKey: bool)
    ensures Fold(rules, inKey, []) == (inKey, "")
  {
  }

  // ---------- the lines a chunked stream yields ----------

  function Concat(chunks: seq<string>): string {
    if chunks == [] then "" else Concat(chunks[..|chunks| - 1]) + chunks[|chunks| - 1]
  }

  /** The complete lines handed to redactLine by the writes, and what is pending. */
  function Seen(chunks: seq<string>): (seq<string>, string) {
    if chunks == [] then ([], "")
    else
      var (lines, pending) := Seen(chunks[..|chunks| - 1]);
      var data := chunks[|chunks| - 1];
      if data == "" then (lines, pending)
      else (lines + Complete(pending + data), Rest(pending + data))
  }

  /** All lines handed to redactLine, the flush included. */
  function LinesSeen(chunks: seq<string>): seq<string> {
    var (lines, pending) := Seen(chunks);
    lines + if pending == "" then [] else [pending]
  }

  /** Some chunk starts with the LF of a CR LF whose CR ended the text before. */
  ghost predicate SplitsCrLf(chunks: seq<string>) {
    exists k :: 0 <= k < |chunks| && StartsLf(chunks[k]) && EndsCr(Concat(chunks[..k]))
  }

  lemma {:induction false} FirstEndWith(a: string, b: string)
    requires FirstEnd(a) > 0
    requires FirstEnd(a) < |a| || !(EndsCr(a) && StartsLf(b))
    ensures FirstEnd(a + b) == FirstEnd(a)
  {
    TerminatorIndexFirst(a);
    TerminatorIndexFirst(a + b);
    var i, j := TerminatorIndex(a), TerminatorIndex(a + b);
    assert forall k :: 0 <= k < |a| ==> (a + b)[k] == a[k];
    assert i == j;
    if i + 1 < |a + b| && i + 1 >= |a| { assert (a + b)[i + 1] == b[0]; }
  }

  lemma {:induction false} CompleteConcat(a: string, b: string)
    requires !(EndsCr(a) && StartsLf(b))
    ensures Complete(a + b) == Complete(a) + Complete(Rest(a) + b)
    ensures Rest(a + b) == Rest(Rest(a) + b)
    decreases |a|
  {
    CompleteStep(a);
    CompleteStep(a + b);
    hide Complete, Rest, FirstEnd;
    var end := FirstEnd(a);
    if end > 0 {
      FirstEndWith(a, b);
      var t := a[end..];
      assert (a + b)[end..] == t + b && (a + b)[..end] == a[..end];
      assert t == "" ==> !EndsCr(t);
      CompleteConcat(t, b);
    }
  }

  lemma CompleteStep(s: string)
    ensures var end := FirstEnd(s);
            if end == 0 then Complete(s) == [] && Rest(s) == s
            else Complete(s) == [s[..end]] + Complete(s[end..]) && Rest(s) == Rest(s[end..])
  {
  }

  /** A complete line that ends in CR is followed by one that starts with LF. */
  ghost predicate BrokenPair(lines: seq<string>) {
    exists i :: 0 <= i < |lines| - 1 && EndsCr(lines[i]) && StartsLf(lines[i + 1])
  }

  lemma {:induction false} AllLinesCons(s: string)
    ensures var end := FirstEnd(s);
            if end == 0 then AllLines(s) == (if s == "" then [] else [s])
            else AllLines(s) == [s[..end]] + AllLines(s[end..])
  {
    hide FirstEnd;
    CompleteStep(s);
    hide Complete, Rest;
  }

  lemma {:induction false} NoBrokenPair(line: string, rest: seq<string>)
    requires !BrokenPair(rest) && (rest != [] ==> !(EndsCr(line) && StartsLf(rest[0])))
    ensures !BrokenPair([line] + rest)
  {
    var all := [line] + rest;
    forall i | 0 <= i < |all| - 1 ensures !(EndsCr(all[i]) && StartsLf(all[i + 1])) {
      if i > 0 { assert all[i] == rest[i - 1] && all[i + 1] == rest[i]; }
    }
  }

  lemma {:induction false} CompleteLines(s: string)
    ensures !BrokenPair(AllLines(s))
    ensures s != "" ==> AllLines(s) != [] && AllLines(s)[0] != "" && AllLines(s)[0][0] == s[0]
    ensures s == "" ==> AllLines(s) == []
    ensures Rest(s) == "" || !StartsLf(Rest(s))
    decreases |s|
  {
    var end := FirstEnd(s);
    TerminatorIndexFirst(s);
    AllLinesCons(s);
    CompleteStep(s);
    if end > 0 {
      var t := s[end..];
      assert EndsCr(s[..end]) ==> !StartsLf(t);
      hide Complete, Rest, AllLines, TerminatorIndex, FirstEnd, BrokenPair;
      CompleteLines(t);
      NoBrokenPair(s[..end], AllLines(t));
    }
  }

  lemma {:induction false} LastComplete(s: string)
    requires EndsCr(s)
    ensures Rest(s) == "" && Complete(s) != [] && EndsCr(Complete(s)[|Complete(s)| - 1])
    decreases |s|
  {
    var end := FirstEnd(s);
    TerminatorIndexFirst(s);
    assert end > 0;
    if end < |s| { LastComplete(s[end..]); }
  }

  lemma {:induction false} SeenWhole(chunks: seq<string>)
    requires !SplitsCrLf(chunks)
    ensures Seen(chunks) == (Complete(Concat(chunks)), Rest(Concat(chunks)))
  {
    if chunks != [] {
      var n := |chunks| - 1;
      var most, data := chunks[..n], chunks[n];
      UnsplitPrefix(chunks);
      SeenWhole(most);
      if data == "" {
        assert Concat(chunks) == Concat(most);
      } else {
        assert !(EndsCr(Concat(most)) && StartsLf(data)) by {
          assert chunks[..n] == most;
        }
        CompleteConcat(Concat(most), data);
      }
    }
  }

  lemma {:induction false} UnsplitPrefix(chunks: seq<string>)
    requires chunks != [] && !SplitsCrLf(chunks)
    ensures !SplitsCrLf(chunks[..|chunks| - 1])
  {
    var most := chunks[..|chunks| - 1];
    forall k | 0 <= k < |most| ensures !(StartsLf(most[k]) && EndsCr(Concat(most[..k]))) {
      assert most[..k] == chunks[..k] && most[k] == chunks[k];
    }
  }

  /** Cutting into lines loses nothing. */
  lemma {:induction false} AllLinesSpell(s: string)
    ensures Concat(AllLines(s)) == s
    decreases |s|
  {
    AllLinesStep(s);
    hide AllLines, FirstEnd;
    var end := FirstEnd(s);
    if end > 0 {
      AllLinesSpell(s[end..]);
      ConcatConcat([s[..end]], AllLines(s[end..]));
      assert s == s[..end] + s[end..];
    }
    ConcatOne(s);
    ConcatOne(s[..end]);
  }

  lemma {:induction false} AllLinesStep(s: string)
    ensures var end := FirstEnd(s);
            if end > 0 then AllLines(s) == [s[..end]] + AllLines(s[end..])
            else AllLines(s) == if s == "" then [] else [s]
  {
    CompleteStep(s);
  }

  lemma {:induction false} ConcatOne(s: string)
    ensures Concat([s]) == s && Concat([]) == ""
  {
    assert [s][..0] == [];
  }

  lemma {:induction false} ConcatConcat(a: seq<string>, b: seq<string>)
    ensures Concat(a + b) == Concat(a) + Concat(b)
  {
    if b == [] {
      assert a + b == a;
    } else {
      var most := b[..|b| - 1];
      ConcatConcat(a, most);
      assert (a + b)[..|a + b| - 1] == a + most;
    }
  }

  lemma {:induction false} PairStays(lines: seq<string>, more: seq<string>)
    requires BrokenPair(lines)
    ensures BrokenPair(lines + more)
  {
    var i :| 0 <= i < |lines| - 1 && EndsCr(lines[i]) && StartsLf(lines[i + 1]);
    assert (lines + more)[i] == lines[i] && (lines + more)[i + 1] == lines[i + 1];
  }

  lemma {:induction false} SplitBreaksPair(chunks: seq<string>)
    requires SplitsCrLf(chunks)
    ensures BrokenPair(Seen(chunks).0)
  {
    var n := |chunks| - 1;
    var most, data := chunks[..n], chunks[n];
    var (lines, pending) := Seen(most);
    SplitCases(chunks);
    if SplitsCrLf(most) {
      SplitBreaksPair(most);
      PairStays(lines, Complete(pending + data));
    } else {
      SeenWhole(most);
      LastComplete(Concat(most));
      FirstIsLf(data);
      hide Complete, Rest, SplitsCrLf;
      var all := lines + Complete(data);
      assert pending + data == data;
      assert EndsCr(all[|lines| - 1]) && StartsLf(all[|lines| - 1 + 1]);
    }
  }

  lemma {:induction false} SplitCases(chunks: seq<string>)
    requires SplitsCrLf(chunks)
    ensures var n := |chunks| - 1;
            SplitsCrLf(chunks[..n]) || (StartsLf(chunks[n]) && EndsCr(Concat(chunks[..n])))
  {
    hide Concat;
    var n := |chunks| - 1;
    var k :| 0 <= k < |chunks| && StartsLf(chunks[k]) && EndsCr(Concat(chunks[..k]));
    if k < n { assert chunks[..n][..k] == chunks[..k] && chunks[..n][k] == chunks[k]; }
  }

  lemma {:induction false} FirstIsLf(data: string)
    requires StartsLf(data)
    ensures Complete(data) != [] && StartsLf(Complete(data)[0])
  {
    CompleteStep(data);
  }

  /** The redactor sees the lines of the whole text, whatever the chunks, exactly when
      no chunk boundary falls between a CR and the LF right after it. */
  lemma {:induction false} LinesSeenIffUnsplit(chunks: seq<string>)
    ensures LinesSeen(chunks) == AllLines(Concat(chunks)) <==> !SplitsCrLf(chunks)
  {
    if SplitsCrLf(chunks) {
      SplitBreaksPair(chunks);
      var (lines, pending) := Seen(chunks);
      PairStays(lines, if pending == "" then [] else [pending]);
      CompleteLines(Concat(chunks));
    } else {
      SeenWhole(chunks);
    }
  }

  // ---------- the output ----------

  /** Outputs of the writes, then of the flush, with the key state carried along. */
  function RunWrites(rules: Rules, chunks: seq<string>): (bool, string) {
    if chunks == [] then (false, "")
    else
      var most, data := chunks[..|chunks| - 1], chunks[|chunks| - 1];
      var (key, output) := RunWrites(rules, most);
      var (key', more) := Fold(rules, key, if data == "" then [] else Complete(Seen(most).1 + data));
      (key', output + more)
  }

  function RunStream(rules: Rules, chunks: seq<string>): string {
    var (key, output) := RunWrites(rules, chunks);
    var pending := Seen(chunks).1;
    output + Fold(rules, key, if pending == "" then [] else [pending]).1
  }

  lemma {:induction false} FoldConcat(rules: Rules, key: bool, a: seq<string>, b: seq<string>)
    ensures Fold(rules, key, a + b)
            == (Fold(rules, Fold(rules, key, a).0, b).0,
                Fold(rules, key, a).1 + Fold(rules, Fold(rules, key, a).0, b).1)
    decreases |a|
  {
    if a == [] {
      assert a + b == b;
      assert "" + Fold(rules, key, b).1 == Fold(rules, key, b).1;
    } else {
      var (key', output) := RedactLine(rules, key, a[0]);
      FoldCons(rules, key, a[0], a[1..]);
      FoldCons(rules, key, a[0], a[1..] + b);
      assert a == [a[0]] + a[1..] && a + b == [a[0]] + (a[1..] + b);
      FoldConcat(rules, key', a[1..], b);
      hide Fold, RedactLine;
      Associate(output, Fold(rules, key', a[1..]).1, Fold(rules, Fold(rules, key', a[1..]).0, b).1);
    }
  }

  lemma {:induction false} WritesFold(rules: Rules, chunks: seq<string>)
    ensures RunWrites(rules, chunks) == Fold(rules, false, Seen(chunks).0)
  {
    if chunks != [] {
      hide Complete, Rest, Fold;
      var most, data := chunks[..|chunks| - 1], chunks[|chunks| - 1];
      WritesFold(rules, most);
      var (lines, pending) := Seen(most);
      FoldConcat(rules, false, lines, if data == "" then [] else Complete(pending + data));
      assert lines + [] == lines;
    } else {
      FoldNothing(rules, false);
    }
  }

  lemma {:induction false} StreamFoldsLinesSeen(rules: Rules, chunks: seq<string>)
    ensures RunStream(rules, chunks) == Fold(rules, false, LinesSeen(chunks)).1
  {
    hide Fold, Seen;
    WritesFold(rules, chunks);
    var (lines, pending) := Seen(chunks);
    FoldConcat(rules, false, lines, if pending == "" then [] else [pending]);
  }

  /** Unless a chunk boundary splits a CR LF, the stream's output is the redaction of
      the lines of the whole text. */
  lemma {:induction false} StreamIsFold(rules: Rules, chunks: seq<string>)
    requires !SplitsCrLf(chunks)
    ensures RunStream(rules, chunks) == Fold(rules, false, AllLines(Concat(chunks))).1
  {
    hide *;
    StreamFoldsLinesSeen(rules, chunks);
    LinesSeenIffUnsplit(chunks);
  }

  /** A redaction from which every line can be read back. */
  function Marked(line: string): string {
    if line == "" then "." else "x" + [line[0]] + Marked(line[1..])
  }

  function Marks(lines: seq<string>): string
    decreases |lines|
  {
    if lines == [] then "" else Marked(lines[0]) + Marks(lines[1..])
  }

  const MARKING := Rules(_ => false, _ => false, Marked)

  lemma {:induction false} FoldMarks(lines: seq<string>)
    ensures Fold(MARKING, false, lines).1 == Marks(lines)
    decreases |lines|
  {
    if lines != [] { FoldMarks(lines[1..]); }
  }

  lemma {:induction false} MarkedIsReadable(a: string, b: string, u: string, v: string)
    requires Marked(a) + u == Marked(b) + v
    ensures a == b && u == v
    decreases |a|
  {
    MarkedStart(a, u);
    MarkedStart(b, v);
    hide Marked;
    if a != "" && b != "" {
      MarkedIsReadable(a[1..], b[1..], u, v);
      assert a == [a[0]] + a[1..] && b == [b[0]] + b[1..];
    }
  }

  lemma {:induction false} MarkedStart(a: string, u: string)
    ensures var text := Marked(a) + u;
      if a == "" then |text| > 0 && text[0] == '.' && text[1..] == u
      else |text| > 1 && text[0] == 'x' && text[1] == a[0] && text[2..] == Marked(a[1..]) + u
  {
  }

  lemma {:induction false} MarksAreReadable(a: seq<string>, b: seq<string>)
    requires Marks(a) == Marks(b)
    ensures a == b
    decreases |a|
  {
    if a != [] && b != [] {
      MarkedIsReadable(a[0], b[0], Marks(a[1..]), Marks(b[1..]));
      MarksAreReadable(a[1..], b[1..]);
      assert a == [a[0]] + a[1..] && b == [b[0]] + b[1..];
    } else {
      MarksOfSome(a);
      MarksOfSome(b);
    }
  }

  lemma {:induction false} MarksOfSome(lines: seq<string>)
    ensures Marks(lines) == "" <==> lines == []
  {
    if lines != [] { MarkedStart(lines[0], Marks(lines[1..])); }
  }

  /** Whatever the rules are, the output is the redaction of the lines of the whole text,
      exactly when no chunk boundary splits a CR LF. */
  lemma {:induction false} OutputIsWholeIffUnsplit(chunks: seq<string>)
    ensures (forall rules: Rules :: RunStream(rules, chunks) == Fold(rules, false, AllLines(Concat(chunks))).1)
      <==> !SplitsCrLf(chunks)
  {
    hide *;
    if !SplitsCrLf(chunks) {
      forall rules: Rules ensures RunStream(rules, chunks) == Fold(rules, false, AllLines(Concat(chunks))).1 {
        StreamIsFold(rules, chunks);
      }
    } else {
      LinesSeenIffUnsplit(chunks);
      var lines, whole := LinesSeen(chunks), AllLines(Concat(chunks));
      StreamFoldsLinesSeen(MARKING, chunks);
      FoldMarks(lines);
      FoldMarks(whole);
      if Marks(lines) == Marks(whole) { MarksAreReadable(lines, whole); }
    }
  }

  /** A private key block, from its BEGIN line through its END line, contributes one
      mark and the BEGIN line's terminator, whatever its lines are. */
  lemma {:induction false} KeyBlockIsOneMark(rules: Rules, begin: string, inner: seq<string>, end: string, after: seq<string>)
    requires rules.isBegin(begin) && !rules.isEnd(begin) && rules.isEnd(end)
    requires forall line <- inner :: !rules.isEnd(line)
    ensures Fold(rules, false, [begin] + inner + [end] + after).1
            == REDACTED + Terminator(begin) + Fold(rules, false, after).1
    ensures Fold(rules, false, [begin] + inner) == (true, REDACTED + Terminator(begin))
  {
    assert [begin] + inner + [end] + after == [begin] + (inner + ([end] + after));
    FoldCons(rules, false, begin, inner + ([end] + after));
    FoldCons(rules, false, begin, inner);
    InnerIsSilent(rules, inner);
    FoldConcat(rules, true, inner, [end] + after);
    FoldCons(rules, true, end, after);
    hide Fold;
    assert "" + Fold(rules, false, after).1 == Fold(rules, false, after).1;
    assert REDACTED + Terminator(begin) + "" == REDACTED + Terminator(begin);
  }

  lemma {:induction false} InnerIsSilent(rules: Rules, inner: seq<string>)
    requires forall line <- inner :: !rules.isEnd(line)
    ensures Fold(rules, true, inner) == (true, "")
  {
    if inner != [] {
      assert inner[0] in inner;
      InnerIsSilent(rules, inner[1..]);
      assert "" + "" == "";
    }
  }

  predicate OneLineLong(head: string) { forall k :: 0 <= k < |head| ==> head[k] != '\r' && head[k] != '\n' }

  /** Splitting the CR LF of any BEGIN line changes the output: the LF is swallowed with
      the block. */
  lemma {:induction false} SplitCrLfLosesALf(rules: Rules, head: string)
    requires OneLineLong(head) && rules.isBegin(head + "\r") && rules.isBegin(head + "\r\n")
    requires !rules.isEnd(head + "\r") && !rules.isEnd(head + "\r\n")
    ensures RunStream(rules, [head + "\r\n"]) == REDACTED + "\r\n"
    ensures RunStream(rules, [head + "\r", "\n"]) == REDACTED + "\r"
  {
    hide *;
    KeptTogether(rules, head);
    CutApart(rules, head);
  }

  lemma {:induction false} KeptTogether(rules: Rules, head: string)
    requires OneLineLong(head) && rules.isBegin(head + "\r\n") && !rules.isEnd(head + "\r\n")
    ensures RunStream(rules, [head + "\r\n"]) == REDACTED + "\r\n"
  {
    var line := head + "\r\n";
    OneLine(line, |head|);
    assert line[|line| - 2..] == "\r\n" && Terminator(line) == "\r\n";
    hide Complete, Rest, Fold, Terminator, TerminatorIndex;
    SeenNext([], line);
    assert [] + [line] == [line];
    WritesFold(rules, [line]);
    FoldBegin(rules, line);
    FoldNothing(rules, true);
    assert REDACTED + "\r\n" + "" == REDACTED + "\r\n";
  }

  lemma {:induction false} CutApart(rules: Rules, head: string)
    requires OneLineLong(head) && rules.isBegin(head + "\r") && !rules.isEnd(head + "\r")
    ensures RunStream(rules, [head + "\r", "\n"]) == REDACTED + "\r"
  {
    var line := head + "\r";
    OneLine(line, |head|);
    OneLine("\n", 0);
    CrTerminator(head);
    hide Complete, Rest, Fold, Terminator, TerminatorIndex, LinesSeen, OneLineLong;
    SeenNext([], line);
    SeenNext([line], "\n");
    assert [] + [line] == [line] && [line] + ["\n"] == [line, "\n"];
    StreamFoldsLinesSeen(rules, [line, "\n"]);
    assert LinesSeen([line, "\n"]) == [line] + ["\n"] by { LinesSeenOf([line, "\n"]); }
    FoldBegin(rules, line);
    FoldConcat(rules, false, [line], ["\n"]);
    FoldInKey(rules, "\n");
    assert REDACTED + "\r" + "" == REDACTED + "\r";
  }

  lemma {:induction false} CrTerminator(head: string)
    requires OneLineLong(head)
    ensures Terminator(head + "\r") == "\r"
  {
    var line := head + "\r";
    assert line[|line| - 1..] == "\r";
    if |line| >= 2 { assert line[|line| - 2..][1] == '\r'; }
  }

  lemma {:induction false} LinesSeenOf(chunks: seq<string>)
    requires Seen(chunks).1 == ""
    ensures LinesSeen(chunks) == Seen(chunks).0
  {
    hide Seen;
    var lines := Seen(chunks).0;
    assert lines + [] == lines;
  }

  lemma {:induction false} OneLine(s: string, i: nat)
    requires i < |s| && (s[i] == '\r' || s[i] == '\n')
    requires |s| == if s[i] == '\r' && i + 1 < |s| && s[i + 1] == '\n' then i + 2 else i + 1
    requires forall k :: 0 <= k < i ==> s[k] != '\r' && s[k] != '\n'
    ensures Complete(s) == [s] && Rest(s) == ""
  {
    TerminatorIndexFirst(s);
    CompleteStep(s);
    CompleteStep("");
    assert s[..|s|] == s && s[|s|..] == "";
  }

  lemma {:induction false} SeenNext(chunks: seq<string>, data: string)
    requires data != ""
    ensures Seen(chunks + [data])
            == (Seen(chunks).0 + Complete(Seen(chunks).1 + data), Rest(Seen(chunks).1 + data))
    ensures Seen([]) == ([], "") && "" + data == data
  {
    assert (chunks + [data])[..|chunks|] == chunks;
  }

  lemma {:induction false} FoldBegin(rules: Rules, line: string)
    requires rules.isBegin(line) && !rules.isEnd(line)
    ensures Fold(rules, false, [line]) == (true, REDACTED + Terminator(line))
  {
    FoldCons(rules, false, line, []);
    assert [line] + [] == [line];
    assert REDACTED + Terminator(line) + "" == REDACTED + Terminator(line);
  }

  lemma {:induction false} FoldInKey(rules: Rules, line: string)
    ensures Fold(rules, true, [line]) == (!rules.isEnd(line), "")
  {
    FoldCons(rules, true, line, []);
    assert [line] + [] == [line];
    assert "" + "" == "";
  }
}