/** How the stored records of one conversation turn become messages for the model.
    Strings are byte strings, as in Go. */
module ModelTurns {
  import opened Wrappers

  datatype Attachment = Attachment(mime: string, data: string)

  /** A stored chat record; extra holds provider metadata, empty for none. */
  datatype Record = Record(id: string, role: string, content: string, extra: string, toolName: string,
                           toolCallID: string, toolArguments: string, status: string, attachments: seq<Attachment>)

  datatype Call = Call(id: string, name: string, arguments: string)

  /** A message to the model. The content of an assistant message is its parts joined by an
      empty line; its reasoning is its thoughts joined likewise. */
  datatype Message =
    | System(content: string)
    | User(text: string, attachments: seq<Attachment>)
    | Assistant(parts: seq<string>, thoughts: seq<string>, extra: string, calls: seq<Call>)
    | ToolResult(content: string, callID: string, name: string)

  /** strings.TrimSpace, containsInternalContextMarker, json.Valid, and the cleaned and
      compacted form of a tool result. */
  datatype Texts = Texts(trim: string -> string, internal: string -> bool, validJSON: string -> bool,
                         result: (string, string) -> string)

  const INCOMPLETE_TURN := "[Previous turn has no final answer. Do not repeat work solely because of this marker.]"

  // ---------- decimal numbers in generated ids ----------

  function Decimal(n: nat): string { if n < 10 then [Digit(n)] else Decimal(n / 10) + [Digit(n % 10)] }

  function Digit(n: nat): char
    requires n < 10
  {
    "0123456789"[n]
  }

  lemma {:induction false} DecimalGrows(m: nat, n: nat)
    requires m <= n
    ensures |Decimal(m)| <= |Decimal(n)|
  {
    if m >= 10 { DecimalGrows(m / 10, n / 10); }
  }

  lemma {:induction false} DecimalDetermines(m: nat, n: nat)
    requires Decimal(m) == Decimal(n)
    ensures m == n
  {
    if m >= 10 && n >= 10 {
      assert Decimal(m)[..|Decimal(m)| - 1] == Decimal(m / 10) && Decimal(n)[..|Decimal(n)| - 1] == Decimal(n / 10);
      DecimalDetermines(m / 10, n / 10);
    }
    assert Decimal(m)[|Decimal(m)| - 1] == Digit(m % 10) && Decimal(n)[|Decimal(n)| - 1] == Digit(n % 10);
    DecimalLength(m);
    DecimalLength(n);
  }

  lemma {:induction false} DecimalLength(n: nat)
    ensures |Decimal(n)| >= 1 && (|Decimal(n)| == 1 <==> n < 10)
  {
    if n >= 10 { DecimalLength(n / 10); }
  }

  // ---------- one tool record ----------

  function CallName(t: Texts, r: Record): string { if t.trim(r.toolName) == "" then "unknown" else t.trim(r.toolName) }

  function GeneratedID(turn: nat, tool: nat): string { "history_tool_" + Decimal(turn) + "_" + Decimal(tool) }

  /** A record without a call id gets one made of the turn's index and the tool's own. */
  function CallID(t: Texts, turn: nat, tool: nat, r: Record): string {
    if t.trim(r.toolCallID) != "" then t.trim(r.toolCallID)
    else GeneratedID(turn, tool)
  }

  function CallArguments(t: Texts, r: Record): string {
    var arguments := t.trim(r.toolArguments);
    if arguments == "" || !t.validJSON(arguments) then "{}" else arguments
  }

  function ToCall(t: Texts, turn: nat, tool: nat, r: Record): Call {
    Call(CallID(t, turn, tool, r), CallName(t, r), CallArguments(t, r))
  }

  function ToResult(t: Texts, turn: nat, tool: nat, r: Record): Message {
    ToolResult(t.result(r.toolName, r.content), CallID(t, turn, tool, r), CallName(t, r))
  }

  function Calls(t: Texts, turn: nat, first: nat, batch: seq<Record>): seq<Call> {
    if batch == [] then []
    else Calls(t, turn, first, batch[..|batch| - 1]) + [ToCall(t, turn, first + |batch| - 1, batch[|batch| - 1])]
  }

  function Results(t: Texts, turn: nat, first: nat, batch: seq<Record>): seq<Message> {
    if batch == [] then []
    else Results(t, turn, first, batch[..|batch| - 1]) + [ToResult(t, turn, first + |batch| - 1, batch[|batch| - 1])]
  }

  // ---------- the running state of prepareModelTurn ----------

  datatype Draft = Draft(messages: seq<Message>, content: seq<string>, reasoning: seq<string>,
                         signed: seq<Record>, batch: seq<Record>, tools: nat)

  const BLANK: Draft := Draft([], [], [], [], [], 0)

  function Thought(r: Record): Message { Assistant([], [r.content], r.extra, []) }

  function Thoughts(signed: seq<Record>): seq<Message> {
    if signed == [] then [] else Thoughts(signed[..|signed| - 1]) + [Thought(signed[|signed| - 1])]
  }

  function Contents(signed: seq<Record>): seq<string> {
    if signed == [] then [] else Contents(signed[..|signed| - 1]) + [signed[|signed| - 1].content]
  }

  /** What appendAssistant adds: for anthropic, signed thoughts stay messages of their own, the
      last one joined with the text and the calls; for other providers all reasoning is merged. */
  function Spoken(anthropic: bool, content: seq<string>, reasoning: seq<string>, signed: seq<Record>, calls: seq<Call>): seq<Message> {
    if anthropic && signed != [] then
      var last := signed[|signed| - 1];
      Thoughts(signed[..|signed| - 1]) + [Assistant(content, [last.content], last.extra, calls)]
    else [Assistant(content, Contents(signed) + reasoning, "", calls)]
  }

  function AppendAssistant(anthropic: bool, d: Draft, calls: seq<Call>): Draft {
    Draft(d.messages + Spoken(anthropic, d.content, d.reasoning, d.signed, calls), [], [], [], d.batch, d.tools)
  }

  function FlushTools(t: Texts, anthropic: bool, turn: nat, d: Draft): Draft {
    if d.batch == [] then d
    else
      var a := AppendAssistant(anthropic, d, Calls(t, turn, d.tools, d.batch));
      a.(messages := a.messages + Results(t, turn, d.tools, d.batch), batch := [], tools := d.tools + |d.batch|)
  }

  predicate Kept(t: Texts, r: Record) {
    r.role != "tool" && t.trim(r.content) != "" && !t.internal(t.trim(r.content))
  }

  function Take(t: Texts, anthropic: bool, turn: nat, d: Draft, r: Record): Draft {
    if r.role == "tool" then d.(batch := d.batch + [r])
    else
      var f := FlushTools(t, anthropic, turn, d);
      var content := t.trim(r.content);
      if !Kept(t, r) then f
      else if r.role == "reasoning" && r.extra != "" then f.(signed := f.signed + [r.(content := content)])
      else if r.role == "reasoning" then f.(reasoning := f.reasoning + [content])
      else f.(content := f.content + [content])
  }

  function TakeAll(t: Texts, anthropic: bool, turn: nat, records: seq<Record>): Draft {
    if records == [] then BLANK
    else Take(t, anthropic, turn, TakeAll(t, anthropic, turn, records[..|records| - 1]), records[|records| - 1])
  }

  function Finish(t: Texts, anthropic: bool, turn: nat, d: Draft): seq<Message> {
    var f := FlushTools(t, anthropic, turn, d);
    var g := if f.content != [] || f.reasoning != [] || f.signed != [] then AppendAssistant(anthropic, f, []) else f;
    if g.messages == [] then [Assistant([INCOMPLETE_TURN], [], "", [])] else g.messages
  }

  /** The messages of a turn after the user's own. */
  function TurnMessages(t: Texts, anthropic: bool, turn: nat, records: seq<Record>): seq<Message> {
    Finish(t, anthropic, turn, TakeAll(t, anthropic, turn, records))
  }

  // ---------- the imperative form ----------

  method PrepareTurnMessages(t: Texts, anthropic: bool, turn: nat, records: seq<Record>) returns (messages: seq<Message>, toolResults: nat)
    ensures messages == TurnMessages(t, anthropic, turn, records)
    ensures toolResults == |ToolRecords(records)|
  {
    var d := BLANK;
    toolResults := 0;
    for k := 0 to |records|
      invariant d == TakeAll(t, anthropic, turn, records[..k])
      invariant toolResults == d.tools
    {
      assert records[..k + 1][..k] == records[..k];
      var r := records[k];
      if r.role == "tool" {
        d := d.(batch := d.batch + [r]);
      } else {
        toolResults := toolResults + |d.batch|;
        d := Flush(t, anthropic, turn, d);
        var content := t.trim(r.content);
        if content != "" && !t.internal(content) {
          if r.role == "reasoning" && r.extra != "" {
            d := d.(signed := d.signed + [r.(content := content)]);
          } else if r.role == "reasoning" {
            d := d.(reasoning := d.reasoning + [content]);
          } else {
            d := d.(content := d.content + [content]);
          }
        }
      }
    }
    assert records[..|records|] == records;
    ToolsAreCounted(t, anthropic, turn, records);
    toolResults := toolResults + |d.batch|;
    d := Flush(t, anthropic, turn, d);
    if |d.content| > 0 || |d.reasoning| > 0 || |d.signed| > 0 { d := AppendAssistant(anthropic, d, []); }
    messages := d.messages;
    if |messages| == 0 { messages := [Assistant([INCOMPLETE_TURN], [], "", [])]; }
  }

  lemma BatchStep(t: Texts, turn: nat, first: nat, batch: seq<Record>, k: nat)
    requires k < |batch|
    ensures Calls(t, turn, first, batch[..k + 1]) == Calls(t, turn, first, batch[..k]) + [ToCall(t, turn, first + k, batch[k])]
    ensures Results(t, turn, first, batch[..k + 1]) == Results(t, turn, first, batch[..k]) + [ToResult(t, turn, first + k, batch[k])]
  {
    var longer := batch[..k + 1];
    assert longer[..|longer| - 1] == batch[..k] && longer[|longer| - 1] == batch[k];
    hide ToCall, ToResult;
  }

  method MakeCalls(t: Texts, turn: nat, first: nat, batch: seq<Record>) returns (calls: seq<Call>, results: seq<Message>, tools: nat)
    ensures calls == Calls(t, turn, first, batch) && results == Results(t, turn, first, batch)
    ensures tools == first + |batch|
  {
    calls, results, tools := [], [], first;
    assert batch[..0] == [];
    for k := 0 to |batch|
      invariant tools == first + k
      invariant calls == Calls(t, turn, first, batch[..k])
      invariant results == Results(t, turn, first, batch[..k])
    {
      BatchStep(t, turn, first, batch, k);
      hide *;
      calls := calls + [ToCall(t, turn, tools, batch[k])];
      results := results + [ToResult(t, turn, tools, batch[k])];
      tools := tools + 1;
    }
    assert batch[..|batch|] == batch;
  }

  method Flush(t: Texts, anthropic: bool, turn: nat, d: Draft) returns (f: Draft)
    ensures f == FlushTools(t, anthropic, turn, d)
  {
    if |d.batch| == 0 { return d; }
    hide AppendAssistant, Calls, Results;
    var calls, results, tools := MakeCalls(t, turn, d.tools, d.batch);
    f := AppendAssistant(anthropic, d, calls);
    f := f.(messages := f.messages + results, batch := [], tools := tools);
  }

  // ---------- segments: what is said, then the tools called ----------

  /** A maximal run of records that are no tool results, and the tool results behind it. */
  datatype Segment = Segment(said: seq<Record>, tools: seq<Record>)

  function AddTo(segments: seq<Segment>, r: Record): seq<Segment> {
    if segments == [] then [if r.role == "tool" then Segment([], [r]) else Segment([r], [])]
    else
      var front, last := segments[..|segments| - 1], segments[|segments| - 1];
      if r.role == "tool" then front + [last.(tools := last.tools + [r])]
      else if last.tools != [] then segments + [Segment([r], [])]
      else front + [last.(said := last.said + [r])]
  }

  function Segments(records: seq<Record>): seq<Segment> {
    if records == [] then [] else AddTo(Segments(records[..|records| - 1]), records[|records| - 1])
  }

  /** The records of the segments, one after the other. */
  function Spelled(segments: seq<Segment>): seq<Record> {
    if segments == [] then []
    else Spelled(segments[..|segments| - 1]) + segments[|segments| - 1].said + segments[|segments| - 1].tools
  }

  predicate SegmentOk(s: Segment) {
    && (forall r :: r in s.said ==> r.role != "tool")
    && (forall r :: r in s.tools ==> r.role == "tool")
  }

  /** Only the first segment can say nothing, only the last can call nothing. */
  ghost predicate Alternate(segments: seq<Segment>) {
    && (forall s :: s in segments ==> SegmentOk(s))
    && (forall k :: 0 < k < |segments| ==> segments[k].said != [])
    && (forall k :: 0 <= k < |segments| - 1 ==> segments[k].tools != [])
  }

  lemma {:induction false} AddToAlternates(segments: seq<Segment>, r: Record)
    requires Alternate(segments)
    ensures Alternate(AddTo(segments, r))
  {
    var more := AddTo(segments, r);
    if segments != [] {
      assert SegmentOk(segments[|segments| - 1]);
      hide SegmentOk;
      forall s | s in more[..|more| - 1] ensures SegmentOk(s) { assert s in segments; }
      assert forall k :: 0 <= k < |segments| - 1 ==> more[k] == segments[k];
      assert SegmentOk(more[|more| - 1]) by { LastOk(segments[|segments| - 1], r); }
      assert more == more[..|more| - 1] + [more[|more| - 1]];
    }
  }

  lemma {:induction false} LastOk(s: Segment, r: Record)
    requires SegmentOk(s)
    ensures r.role == "tool" ==> SegmentOk(s.(tools := s.tools + [r]))
    ensures r.role != "tool" ==> SegmentOk(s.(said := s.said + [r])) && SegmentOk(Segment([r], []))
  {
  }

  /** The segments spell the records, what is said and what is called in turns. */
  lemma {:induction false} SegmentsPartition(records: seq<Record>)
    ensures Spelled(Segments(records)) == records && Alternate(Segments(records))
  {
    if records != [] {
      var front, r := records[..|records| - 1], records[|records| - 1];
      SegmentsPartition(front);
      assert records == front + [r] && Segments(records) == AddTo(Segments(front), r);
      hide *;
      AddToSpells(Segments(front), r);
      AddToAlternates(Segments(front), r);
    } else {
      NoSegments();
    }
  }

  lemma {:induction false} NoSegments()
    ensures Spelled([]) == [] && Alternate([])
  {
  }

  lemma {:induction false} AddToSpells(segments: seq<Segment>, r: Record)
    ensures Spelled(AddTo(segments, r)) == Spelled(segments) + [r]
  {
    var more := AddTo(segments, r);
    if segments == [] {
      assert more[..0] == [] && Spelled([]) == [];
    } else {
      var front, last := segments[..|segments| - 1], segments[|segments| - 1];
      if r.role != "tool" && last.tools != [] { assert more[..|segments|] == segments; }
      else { assert more[..|segments| - 1] == front; }
    }
  }

  /** A record joins the segment at the end, which may be a new and empty one. */
  lemma {:induction false} AddToCases(segments: seq<Segment>, r: Record) returns (front: seq<Segment>, s: Segment)
    ensures AddTo(segments, r)
         == front + [if r.role == "tool" then s.(tools := s.tools + [r]) else s.(said := s.said + [r])]
    ensures segments == front + [s] || (segments == front && s == Segment([], []))
  {
    if segments == [] || (r.role != "tool" && segments[|segments| - 1].tools != []) {
      front, s := segments, Segment([], []);
    } else {
      front, s := segments[..|segments| - 1], segments[|segments| - 1];
    }
    assert [] + [r] == [r];
  }

  // ---------- what a segment keeps ----------

  function TextsOf(t: Texts, records: seq<Record>): seq<string> {
    if records == [] then []
    else
      var r := records[|records| - 1];
      TextsOf(t, records[..|records| - 1]) + if Kept(t, r) && r.role != "reasoning" then [t.trim(r.content)] else []
  }

  predicate Signs(t: Texts, r: Record) { Kept(t, r) && r.role == "reasoning" && r.extra != "" }

  predicate Reasons(t: Texts, r: Record) { Kept(t, r) && r.role == "reasoning" && r.extra == "" }

  /** Reasoning without provider metadata. */
  function PlainOf(t: Texts, records: seq<Record>): seq<string> {
    if records == [] then []
    else
      var r := records[|records| - 1];
      PlainOf(t, records[..|records| - 1]) + if Reasons(t, r) then [t.trim(r.content)] else []
  }

  /** Reasoning with provider metadata, trimmed. */
  function SignedOf(t: Texts, records: seq<Record>): seq<Record> {
    if records == [] then []
    else
      var r := records[|records| - 1];
      SignedOf(t, records[..|records| - 1]) + if Signs(t, r) then [r.(content := t.trim(r.content))] else []
  }

  function ToolRecords(records: seq<Record>): seq<Record> {
    if records == [] then []
    else
      var r := records[|records| - 1];
      ToolRecords(records[..|records| - 1]) + if r.role == "tool" then [r] else []
  }

  function SegmentMessages(t: Texts, anthropic: bool, turn: nat, first: nat, s: Segment): seq<Message> {
    var texts, plain, signed := TextsOf(t, s.said), PlainOf(t, s.said), SignedOf(t, s.said);
    if s.tools == [] && texts == [] && plain == [] && signed == [] then []
    else Spoken(anthropic, texts, plain, signed, Calls(t, turn, first, s.tools)) + Results(t, turn, first, s.tools)
  }

  function ToolsOf(segments: seq<Segment>): seq<Record> {
    if segments == [] then [] else ToolsOf(segments[..|segments| - 1]) + segments[|segments| - 1].tools
  }

  function Rendered(t: Texts, anthropic: bool, turn: nat, segments: seq<Segment>): seq<Message> {
    if segments == [] then []
    else
      var front := segments[..|segments| - 1];
      Rendered(t, anthropic, turn, front) + SegmentMessages(t, anthropic, turn, |ToolsOf(front)|, segments[|segments| - 1])
  }

  /** The state of prepareModelTurn after these segments: all but the last are rendered. */
  function DraftOf(t: Texts, anthropic: bool, turn: nat, segments: seq<Segment>): Draft {
    if segments == [] then BLANK
    else
      var front, last := segments[..|segments| - 1], segments[|segments| - 1];
      Draft(Rendered(t, anthropic, turn, front), TextsOf(t, last.said), PlainOf(t, last.said), SignedOf(t, last.said),
            last.tools, |ToolsOf(front)|)
  }

  lemma {:induction false} OneRecord(t: Texts, said: seq<Record>, r: Record)
    ensures TextsOf(t, said + [r]) == TextsOf(t, said) + (if Kept(t, r) && r.role != "reasoning" then [t.trim(r.content)] else [])
    ensures PlainOf(t, said + [r]) == PlainOf(t, said) + (if Reasons(t, r) then [t.trim(r.content)] else [])
    ensures SignedOf(t, said + [r]) == SignedOf(t, said) + (if Signs(t, r) then [r.(content := t.trim(r.content))] else [])
  {
    assert (said + [r])[..|said|] == said;
  }

  lemma {:induction false} Nothing(t: Texts)
    ensures TextsOf(t, []) == [] && PlainOf(t, []) == [] && SignedOf(t, []) == []
    ensures ToolsOf([]) == [] && forall anthropic, turn :: Rendered(t, anthropic, turn, []) == []
  {
  }

  lemma {:induction false} FlushedDraft(t: Texts, anthropic: bool, turn: nat, segments: seq<Segment>)
    requires segments != [] && segments[|segments| - 1].tools != []
    ensures FlushTools(t, anthropic, turn, DraftOf(t, anthropic, turn, segments))
         == Draft(Rendered(t, anthropic, turn, segments), [], [], [], [], |ToolsOf(segments)|)
  {
    hide TextsOf, PlainOf, SignedOf, Spoken, Calls, Results;
    var front, last := segments[..|segments| - 1], segments[|segments| - 1];
    var messages := Rendered(t, anthropic, turn, front);
    var first := |ToolsOf(front)|;
    var spoken := Spoken(anthropic, TextsOf(t, last.said), PlainOf(t, last.said), SignedOf(t, last.said), Calls(t, turn, first, last.tools));
    assert messages + (spoken + Results(t, turn, first, last.tools)) == messages + spoken + Results(t, turn, first, last.tools);
  }

  lemma {:induction false} DraftStep(t: Texts, anthropic: bool, turn: nat, segments: seq<Segment>, r: Record)
    ensures Take(t, anthropic, turn, DraftOf(t, anthropic, turn, segments), r) == DraftOf(t, anthropic, turn, AddTo(segments, r))
  {
    Nothing(t);
    hide Rendered, ToolsOf;
    var more := AddTo(segments, r);
    if segments == [] {
      OneRecord(t, [], r);
      assert more[..0] == [] && [] + [r] == [r];
    } else {
      var front, last := segments[..|segments| - 1], segments[|segments| - 1];
      if r.role == "tool" {
        assert more[..|front|] == front;
      } else if last.tools != [] {
        assert more[..|segments|] == segments && [] + [r] == [r];
        OneRecord(t, [], r);
        FlushedDraft(t, anthropic, turn, segments);
      } else {
        assert more[..|front|] == front;
        OneRecord(t, last.said, r);
      }
    }
  }

  lemma {:induction false} TakeAllIsSegments(t: Texts, anthropic: bool, turn: nat, records: seq<Record>)
    ensures TakeAll(t, anthropic, turn, records) == DraftOf(t, anthropic, turn, Segments(records))
  {
    hide Take, DraftOf, AddTo;
    if records == [] {
      DraftOfNone(t, anthropic, turn);
    } else {
      var front, r := records[..|records| - 1], records[|records| - 1];
      TakeAllIsSegments(t, anthropic, turn, front);
      DraftStep(t, anthropic, turn, Segments(front), r);
    }
  }

  lemma {:induction false} DraftOfNone(t: Texts, anthropic: bool, turn: nat)
    ensures DraftOf(t, anthropic, turn, []) == BLANK
  {
  }

  /** A turn is its segments, one after the other: what is said becomes one assistant message
      (and, for anthropic, one for each signed thought but the last), followed at once by the
      results of the tools it calls. */
  lemma {:induction false} TurnIsItsSegments(t: Texts, anthropic: bool, turn: nat, records: seq<Record>)
    ensures var rendered := Rendered(t, anthropic, turn, Segments(records));
      TurnMessages(t, anthropic, turn, records) == if rendered == [] then [INCOMPLETE] else rendered
  {
    TakeAllIsSegments(t, anthropic, turn, records);
    FinishedDraft(t, anthropic, turn, Segments(records));
    hide Finish, DraftOf, Segments, Rendered;
  }

  const INCOMPLETE: Message := Assistant([INCOMPLETE_TURN], [], "", [])

  lemma {:induction false} FinishedDraft(t: Texts, anthropic: bool, turn: nat, segments: seq<Segment>)
    ensures var rendered := Rendered(t, anthropic, turn, segments);
      Finish(t, anthropic, turn, DraftOf(t, anthropic, turn, segments)) == if rendered == [] then [INCOMPLETE] else rendered
  {
    Nothing(t);
    if segments != [] {
      var front, last := segments[..|segments| - 1], segments[|segments| - 1];
      if last.tools != [] {
        FlushedDraft(t, anthropic, turn, segments);
        hide DraftOf, Rendered;
      } else {
        hide TextsOf, PlainOf, SignedOf, Spoken;
        NoTools(t, turn, |ToolsOf(front)|);
        var messages := Rendered(t, anthropic, turn, front);
        var spoken := Spoken(anthropic, TextsOf(t, last.said), PlainOf(t, last.said), SignedOf(t, last.said), []);
        assert spoken + [] == spoken && messages + [] == messages;
      }
    }
  }

  lemma {:induction false} NoTools(t: Texts, turn: nat, first: nat)
    ensures Calls(t, turn, first, []) == [] && Results(t, turn, first, []) == []
  {
  }

  lemma {:induction false} ToolsOfRecords(records: seq<Record>)
    ensures ToolsOf(Segments(records)) == ToolRecords(records)
  {
    if records != [] {
      var front, r := records[..|records| - 1], records[|records| - 1];
      ToolsOfRecords(front);
      AddToTools(Segments(front), r);
      assert ToolRecords(front) + [] == ToolRecords(front);
    }
  }

  lemma {:induction false} AddToTools(segments: seq<Segment>, r: Record)
    ensures ToolsOf(AddTo(segments, r)) == ToolsOf(segments) + (if r.role == "tool" then [r] else [])
  {
    var more := AddTo(segments, r);
    assert more[..0] == [] && ToolsOf([]) == [];
    if segments != [] {
      var front, last := segments[..|segments| - 1], segments[|segments| - 1];
      if r.role != "tool" && last.tools != [] { assert more[..|segments|] == segments; }
      else { assert more[..|front|] == front; }
    }
  }

  lemma {:induction false} ToolsAreCounted(t: Texts, anthropic: bool, turn: nat, records: seq<Record>)
    ensures var d := TakeAll(t, anthropic, turn, records); d.tools + |d.batch| == |ToolRecords(records)|
  {
    TakeAllIsSegments(t, anthropic, turn, records);
    ToolsOfRecords(records);
    hide TakeAll, Segments, ToolRecords, Rendered;
  }

  // ---------- the transcript is well formed ----------

  /** Message k answers call j of the assistant message before it. */
  predicate Answers(results: seq<Message>, calls: seq<Call>) {
    && |results| == |calls|
    && forall k :: 0 <= k < |results| ==> results[k].ToolResult? && results[k].callID == calls[k].id && results[k].name == calls[k].name
  }

  /** Assistant messages only, each followed at once by exactly the results of its calls. */
  predicate WellFormed(messages: seq<Message>)
    decreases |messages|
  {
    messages == [] || (
      && messages[0].Assistant?
      && |messages[0].calls| < |messages|
      && Answers(messages[1..|messages[0].calls| + 1], messages[0].calls)
      && WellFormed(messages[|messages[0].calls| + 1..]))
  }

  lemma {:induction false} WellFormedConcat(a: seq<Message>, b: seq<Message>)
    requires WellFormed(a) && WellFormed(b)
    ensures WellFormed(a + b)
    decreases |a|
  {
    if a == [] {
      assert a + b == b;
    } else {
      var n := |a[0].calls| + 1;
      WellFormedConcat(a[n..], b);
      assert (a + b)[0] == a[0] && (a + b)[1..n] == a[1..n] && (a + b)[n..] == a[n..] + b;
    }
  }

  lemma {:induction false} ResultsAnswerCalls(t: Texts, turn: nat, first: nat, batch: seq<Record>)
    ensures Answers(Results(t, turn, first, batch), Calls(t, turn, first, batch))
    ensures |Calls(t, turn, first, batch)| == |batch|
  {
    if batch != [] { ResultsAnswerCalls(t, turn, first, batch[..|batch| - 1]); }
  }

  lemma {:induction false} OneAssistant(m: Message, results: seq<Message>)
    requires m.Assistant? && Answers(results, m.calls)
    ensures WellFormed([m] + results)
  {
    var messages := [m] + results;
    assert messages[1..|m.calls| + 1] == results && messages[|m.calls| + 1..] == [];
  }

  lemma {:induction false} ThoughtsWellFormed(signed: seq<Record>)
    ensures WellFormed(Thoughts(signed))
  {
    if signed != [] {
      var front, last := signed[..|signed| - 1], signed[|signed| - 1];
      ThoughtsWellFormed(front);
      OneAssistant(Thought(last), []);
      assert [Thought(last)] + [] == [Thought(last)];
      WellFormedConcat(Thoughts(front), [Thought(last)]);
    }
  }

  lemma {:induction false} SpokenWellFormed(anthropic: bool, content: seq<string>, reasoning: seq<string>, signed: seq<Record>,
                                            calls: seq<Call>, results: seq<Message>)
    requires Answers(results, calls)
    ensures WellFormed(Spoken(anthropic, content, reasoning, signed, calls) + results)
  {
    hide WellFormed, Answers;
    if anthropic && signed != [] {
      var front, last := signed[..|signed| - 1], signed[|signed| - 1];
      var m := Assistant(content, [last.content], last.extra, calls);
      ThoughtsWellFormed(front);
      OneAssistant(m, results);
      WellFormedConcat(Thoughts(front), [m] + results);
      assert Thoughts(front) + [m] + results == Thoughts(front) + ([m] + results);
    } else {
      OneAssistant(Assistant(content, Contents(signed) + reasoning, "", calls), results);
    }
  }

  lemma {:induction false} RenderedWellFormed(t: Texts, anthropic: bool, turn: nat, segments: seq<Segment>)
    ensures WellFormed(Rendered(t, anthropic, turn, segments))
  {
    if segments != [] {
      var front, last := segments[..|segments| - 1], segments[|segments| - 1];
      var first := |ToolsOf(front)|;
      RenderedWellFormed(t, anthropic, turn, front);
      ResultsAnswerCalls(t, turn, first, last.tools);
      SpokenWellFormed(anthropic, TextsOf(t, last.said), PlainOf(t, last.said), SignedOf(t, last.said),
                       Calls(t, turn, first, last.tools), Results(t, turn, first, last.tools));
      assert WellFormed([]);
      hide WellFormed, Spoken, TextsOf, PlainOf, SignedOf;
      WellFormedConcat(Rendered(t, anthropic, turn, front), SegmentMessages(t, anthropic, turn, first, last));
    }
  }

  /** Every turn becomes a non-empty transcript in which each assistant message with calls is
      followed at once by exactly its results, with the same ids in the same order. */
  lemma {:induction false} TurnIsWellFormed(t: Texts, anthropic: bool, turn: nat, records: seq<Record>)
    ensures TurnMessages(t, anthropic, turn, records) != []
    ensures WellFormed(TurnMessages(t, anthropic, turn, records))
  {
    TurnIsItsSegments(t, anthropic, turn, records);
    RenderedWellFormed(t, anthropic, turn, Segments(records));
    OneAssistant(INCOMPLETE, []);
    assert [INCOMPLETE] + [] == [INCOMPLETE];
    hide TurnMessages, Rendered, WellFormed;
  }

  // ---------- nothing a turn stores is lost, doubled or reordered, plain reasoning apart ----------

  /** What messages carry: tool results, assistant texts, thoughts, and the signed thoughts
      with their metadata. */
  datatype View = View(results: seq<Message>, parts: seq<string>, thoughts: seq<string>, signed: seq<(seq<string>, string)>)

  function Both(v: View, w: View): View {
    View(v.results + w.results, v.parts + w.parts, v.thoughts + w.thoughts, v.signed + w.signed)
  }

  function OneView(m: Message): View {
    match m
    case Assistant(parts, thoughts, extra, _) => View([], parts, thoughts, if extra != "" then [(thoughts, extra)] else [])
    case ToolResult(_, _, _) => View([m], [], [], [])
    case System(_) => View([], [], [], [])
    case User(_, _) => View([], [], [], [])
  }

  function Viewed(messages: seq<Message>): View {
    if messages == [] then View([], [], [], [])
    else Both(Viewed(messages[..|messages| - 1]), OneView(messages[|messages| - 1]))
  }

  lemma {:induction false} BothNothing(v: View)
    ensures Both(v, View([], [], [], [])) == v && Both(View([], [], [], []), v) == v
  {
  }

  lemma {:induction false} BothAssociates(u: View, v: View, w: View)
    ensures Both(Both(u, v), w) == Both(u, Both(v, w))
  {
    assert (u.parts + v.parts) + w.parts == u.parts + (v.parts + w.parts);
    assert (u.thoughts + v.thoughts) + w.thoughts == u.thoughts + (v.thoughts + w.thoughts);
    assert (u.results + v.results) + w.results == u.results + (v.results + w.results);
    assert (u.signed + v.signed) + w.signed == u.signed + (v.signed + w.signed);
  }

  lemma {:induction false} ViewedConcat(a: seq<Message>, b: seq<Message>)
    ensures Viewed(a + b) == Both(Viewed(a), Viewed(b))
  {
    if b == [] {
      assert a + b == a;
      BothNothing(Viewed(a));
    } else {
      var front, last := b[..|b| - 1], b[|b| - 1];
      assert (a + b)[..|a + b| - 1] == a + front && (a + b)[|a + b| - 1] == last;
      ViewedConcat(a, front);
      BothAssociates(Viewed(a), Viewed(front), OneView(last));
      hide Both, OneView;
    }
  }

  lemma {:induction false} ViewedOne(m: Message)
    ensures Viewed([m]) == OneView(m)
  {
    assert [m][..0] == [];
    BothNothing(OneView(m));
  }

  function Pairs(signed: seq<Record>): seq<(seq<string>, string)> {
    if signed == [] then []
    else Pairs(signed[..|signed| - 1]) + [([signed[|signed| - 1].content], signed[|signed| - 1].extra)]
  }

  lemma {:induction false} ViewedThoughts(signed: seq<Record>)
    requires forall r :: r in signed ==> r.extra != ""
    ensures Viewed(Thoughts(signed)) == View([], [], Contents(signed), Pairs(signed))
  {
    if signed != [] {
      ViewedThoughts(signed[..|signed| - 1]);
      assert Thoughts(signed)[..|Thoughts(signed)| - 1] == Thoughts(signed[..|signed| - 1]);
    }
  }

  lemma {:induction false} ViewedResults(t: Texts, turn: nat, first: nat, batch: seq<Record>)
    ensures Viewed(Results(t, turn, first, batch)) == View(Results(t, turn, first, batch), [], [], [])
  {
    if batch != [] {
      var front := batch[..|batch| - 1];
      ViewedResults(t, turn, first, front);
      var results := Results(t, turn, first, batch);
      assert results[..|results| - 1] == Results(t, turn, first, front);
    }
  }

  lemma {:induction false} SignedOfAreSigned(t: Texts, records: seq<Record>)
    ensures forall r :: r in SignedOf(t, records) ==> r.extra != ""
  {
    if records != [] { SignedOfAreSigned(t, records[..|records| - 1]); }
  }

  /** The reasoning of one segment that reaches the model, signed thoughts first. */
  function Reasoned(t: Texts, anthropic: bool, said: seq<Record>): seq<string> {
    if anthropic && SignedOf(t, said) != [] then Contents(SignedOf(t, said))
    else Contents(SignedOf(t, said)) + PlainOf(t, said)
  }

  lemma {:induction false} ViewedSpoken(t: Texts, anthropic: bool, said: seq<Record>, calls: seq<Call>)
    ensures Viewed(Spoken(anthropic, TextsOf(t, said), PlainOf(t, said), SignedOf(t, said), calls))
         == View([], TextsOf(t, said), Reasoned(t, anthropic, said), if anthropic then Pairs(SignedOf(t, said)) else [])
  {
    var texts, plain, signed := TextsOf(t, said), PlainOf(t, said), SignedOf(t, said);
    SignedOfAreSigned(t, said);
    hide TextsOf, PlainOf, SignedOf, Viewed;
    if anthropic && signed != [] {
      var front, last := signed[..|signed| - 1], signed[|signed| - 1];
      ViewedThoughts(front);
      ViewedOne(Assistant(texts, [last.content], last.extra, calls));
      ViewedConcat(Thoughts(front), [Assistant(texts, [last.content], last.extra, calls)]);
    } else {
      ViewedOne(Assistant(texts, Contents(signed) + plain, "", calls));
    }
  }

  /** What a segment carries. */
  function SegmentView(t: Texts, anthropic: bool, turn: nat, first: nat, s: Segment): View {
    View(Results(t, turn, first, s.tools), TextsOf(t, s.said), Reasoned(t, anthropic, s.said),
         if anthropic then Pairs(SignedOf(t, s.said)) else [])
  }

  lemma {:induction false} SegmentCarries(t: Texts, anthropic: bool, turn: nat, first: nat, s: Segment)
    ensures Viewed(SegmentMessages(t, anthropic, turn, first, s)) == SegmentView(t, anthropic, turn, first, s)
  {
    hide TextsOf, PlainOf, SignedOf, Spoken, Viewed;
    if s.tools == [] && TextsOf(t, s.said) == [] && PlainOf(t, s.said) == [] && SignedOf(t, s.said) == [] {
      NoTools(t, turn, first);
      assert Viewed([]) == View([], [], [], []) by { ViewedNone(); }
    } else {
      var calls, results := Calls(t, turn, first, s.tools), Results(t, turn, first, s.tools);
      var spoken := Spoken(anthropic, TextsOf(t, s.said), PlainOf(t, s.said), SignedOf(t, s.said), calls);
      ViewedSpoken(t, anthropic, s.said, calls);
      ViewedResults(t, turn, first, s.tools);
      ViewedConcat(spoken, results);
      hide Results, Reasoned;
    }
  }

  lemma {:induction false} ViewedNone()
    ensures Viewed([]) == View([], [], [], [])
  {
  }

  function SegmentTexts(t: Texts, segments: seq<Segment>): seq<string> {
    if segments == [] then []
    else SegmentTexts(t, segments[..|segments| - 1]) + TextsOf(t, segments[|segments| - 1].said)
  }

  function SegmentSigned(t: Texts, segments: seq<Segment>): seq<(seq<string>, string)> {
    if segments == [] then []
    else SegmentSigned(t, segments[..|segments| - 1]) + Pairs(SignedOf(t, segments[|segments| - 1].said))
  }

  /** Segment by segment: the signed thoughts, and the plain reasoning unless the provider is
      anthropic and the segment has signed thoughts. */
  function Reasoning(t: Texts, anthropic: bool, segments: seq<Segment>): seq<string> {
    if segments == [] then []
    else Reasoning(t, anthropic, segments[..|segments| - 1]) + Reasoned(t, anthropic, segments[|segments| - 1].said)
  }

  lemma {:induction false} ResultsConcat(t: Texts, turn: nat, first: nat, a: seq<Record>, b: seq<Record>)
    ensures Results(t, turn, first, a + b) == Results(t, turn, first, a) + Results(t, turn, first + |a|, b)
  {
    if b == [] {
      assert a + b == a;
    } else {
      var front, last := b[..|b| - 1], b[|b| - 1];
      assert (a + b)[..|a + b| - 1] == a + front && (a + b)[|a + b| - 1] == last;
      ResultsConcat(t, turn, first, a, front);
    }
  }

  lemma {:induction false} RenderedCarries(t: Texts, anthropic: bool, turn: nat, segments: seq<Segment>)
    ensures Viewed(Rendered(t, anthropic, turn, segments))
         == View(Results(t, turn, 0, ToolsOf(segments)), SegmentTexts(t, segments), Reasoning(t, anthropic, segments),
                 if anthropic then SegmentSigned(t, segments) else [])
  {
    hide Viewed, TextsOf, SignedOf, SegmentMessages, Reasoned, Pairs, Results;
    if segments == [] {
      ViewedNone();
      NoTools(t, turn, 0);
    } else {
      var front, last := segments[..|segments| - 1], segments[|segments| - 1];
      var first := |ToolsOf(front)|;
      RenderedCarries(t, anthropic, turn, front);
      SegmentCarries(t, anthropic, turn, first, last);
      ViewedConcat(Rendered(t, anthropic, turn, front), SegmentMessages(t, anthropic, turn, first, last));
      ResultsConcat(t, turn, 0, ToolsOf(front), last.tools);
    }
  }

  lemma SegmentsUnfold(records: seq<Record>)
    requires records != []
    ensures Segments(records) == AddTo(Segments(records[..|records| - 1]), records[|records| - 1])
  {
  }

  lemma {:induction false} NoTexts(t: Texts)
    ensures SegmentTexts(t, Segments([])) == TextsOf(t, []) && SegmentSigned(t, Segments([])) == Pairs(SignedOf(t, []))
  {
    Nothing(t);
    assert Pairs([]) == [] && SegmentTexts(t, []) == [] && SegmentSigned(t, []) == [];
  }

  lemma {:induction false} TextsOfRecords(t: Texts, records: seq<Record>)
    ensures SegmentTexts(t, Segments(records)) == TextsOf(t, records)
    ensures SegmentSigned(t, Segments(records)) == Pairs(SignedOf(t, records))
  {
    hide *;
    if records == [] {
      NoTexts(t);
    } else {
      var front, r := records[..|records| - 1], records[|records| - 1];
      TextsOfRecords(t, front);
      SegmentsUnfold(records);
      assert front + [r] == records;
      AddToTexts(t, Segments(front), r);
      Gains(t, front, r);
    }
  }

  lemma {:induction false} PairsGrow(signed: seq<Record>, r: Record)
    ensures Pairs(signed + [r]) == Pairs(signed) + [([r.content], r.extra)]
  {
    assert (signed + [r])[..|signed|] == signed;
  }

  lemma {:induction false} LastTexts(t: Texts, front: seq<Segment>, s: Segment)
    ensures SegmentTexts(t, front + [s]) == SegmentTexts(t, front) + TextsOf(t, s.said)
    ensures SegmentSigned(t, front + [s]) == SegmentSigned(t, front) + Pairs(SignedOf(t, s.said))
    ensures Reasoning(t, false, front + [s]) == Reasoning(t, false, front) + (Contents(SignedOf(t, s.said)) + PlainOf(t, s.said))
  {
    assert (front + [s])[..|front|] == front;
  }

  function GainedText(t: Texts, r: Record): seq<string> {
    if Kept(t, r) && r.role != "reasoning" then [t.trim(r.content)] else []
  }

  function GainedPair(t: Texts, r: Record): seq<(seq<string>, string)> {
    if Signs(t, r) then [([t.trim(r.content)], r.extra)] else []
  }

  lemma {:induction false} Gains(t: Texts, said: seq<Record>, r: Record)
    ensures TextsOf(t, said + [r]) == TextsOf(t, said) + GainedText(t, r)
    ensures Pairs(SignedOf(t, said + [r])) == Pairs(SignedOf(t, said)) + GainedPair(t, r)
  {
    OneRecord(t, said, r);
    PairsGrow(SignedOf(t, said), r.(content := t.trim(r.content)));
    hide TextsOf, SignedOf, Pairs, Kept;
    assert SignedOf(t, said) + [] == SignedOf(t, said) && Pairs(SignedOf(t, said)) + [] == Pairs(SignedOf(t, said));
  }

  /** The segment at the end, old or new, and what the record makes of it. */
  lemma {:induction false} LastGains(t: Texts, s: Segment, r: Record)
    ensures var s' := if r.role == "tool" then s.(tools := s.tools + [r]) else s.(said := s.said + [r]);
      && TextsOf(t, s'.said) == TextsOf(t, s.said) + GainedText(t, r)
      && Pairs(SignedOf(t, s'.said)) == Pairs(SignedOf(t, s.said)) + GainedPair(t, r)
  {
    if r.role == "tool" {
      ToolsSayNothing(t, r);
      hide TextsOf, SignedOf, Pairs, Kept;
      assert TextsOf(t, s.said) + [] == TextsOf(t, s.said) && Pairs(SignedOf(t, s.said)) + [] == Pairs(SignedOf(t, s.said));
    } else {
      Gains(t, s.said, r);
    }
  }

  lemma {:induction false} SplitLast(t: Texts, segments: seq<Segment>, front: seq<Segment>, s: Segment)
    requires segments == front + [s] || (segments == front && s == Segment([], []))
    ensures SegmentTexts(t, segments) == SegmentTexts(t, front) + TextsOf(t, s.said)
    ensures SegmentSigned(t, segments) == SegmentSigned(t, front) + Pairs(SignedOf(t, s.said))
    ensures Reasoning(t, false, segments) == Reasoning(t, false, front) + (Contents(SignedOf(t, s.said)) + PlainOf(t, s.said))
  {
    LastTexts(t, front, s);
    if segments == front {
      Nothing(t);
      assert Pairs([]) == [] && Contents([]) == [];
      hide TextsOf, SignedOf, PlainOf, Pairs, Contents, SegmentTexts, SegmentSigned, Reasoning;
      assert SegmentTexts(t, front) + [] == SegmentTexts(t, front) && SegmentSigned(t, front) + [] == SegmentSigned(t, front);
      assert Reasoning(t, false, front) + ([] + []) == Reasoning(t, false, front);
    }
  }

  lemma {:induction false} AddToTexts(t: Texts, segments: seq<Segment>, r: Record)
    ensures SegmentTexts(t, AddTo(segments, r)) == SegmentTexts(t, segments) + GainedText(t, r)
    ensures SegmentSigned(t, AddTo(segments, r)) == SegmentSigned(t, segments) + GainedPair(t, r)
  {
    hide *;
    var front, s := AddToCases(segments, r);
    SplitLast(t, segments, front, s);
    SplitLast(t, AddTo(segments, r), front, if r.role == "tool" then s.(tools := s.tools + [r]) else s.(said := s.said + [r]));
    LastGains(t, s, r);
    Associate(SegmentTexts(t, front), TextsOf(t, s.said), GainedText(t, r));
    Associate(SegmentSigned(t, front), Pairs(SignedOf(t, s.said)), GainedPair(t, r));
  }

  lemma {:induction false} Associate<T>(a: seq<T>, b: seq<T>, c: seq<T>)
    ensures a + (b + c) == a + b + c
  {
  }

  lemma {:induction false} ToolsSayNothing(t: Texts, r: Record)
    requires r.role == "tool"
    ensures !Kept(t, r) && !Signs(t, r) && !Reasons(t, r)
  {
  }

  /** The tool messages of the transcript are the turn's tool records, one each, in order; the
      assistant texts are the kept texts, each once, in order; the thoughts are those of the
      segments, each in its own segment's messages, signed ones first. */
  lemma {:induction false} TurnIsFaithful(t: Texts, anthropic: bool, turn: nat, records: seq<Record>)
    ensures var carried := Viewed(TurnMessages(t, anthropic, turn, records));
      && carried.results == Results(t, turn, 0, ToolRecords(records))
      && carried.thoughts == Reasoning(t, anthropic, Segments(records))
      && carried.signed == (if anthropic then Pairs(SignedOf(t, records)) else [])
      && (carried.parts == TextsOf(t, records)
          || (carried.parts == [INCOMPLETE_TURN] && Rendered(t, anthropic, turn, Segments(records)) == []))
  {
    var segments := Segments(records);
    TurnIsItsSegments(t, anthropic, turn, records);
    RenderedCarries(t, anthropic, turn, segments);
    TextsOfRecords(t, records);
    ToolsOfRecords(records);
    ViewedOne(INCOMPLETE);
    ViewedNone();
    hide Viewed, TurnMessages, Rendered, Segments, Results, Reasoning, TextsOf, SignedOf, Pairs, ToolRecords;
  }

  /** The transcript of a turn around one of its segments. */
  lemma {:induction false} SegmentInTurn(t: Texts, anthropic: bool, turn: nat, records: seq<Record>, k: nat)
    returns (before: seq<Message>, after: seq<Message>)
    requires k < |Segments(records)| && Rendered(t, anthropic, turn, Segments(records)) != []
    ensures var s := Segments(records)[k];
      var first := |ToolsOf(Segments(records)[..k])|;
      && TurnMessages(t, anthropic, turn, records) == before + SegmentMessages(t, anthropic, turn, first, s) + after
      && before == Rendered(t, anthropic, turn, Segments(records)[..k])
  {
    TurnIsItsSegments(t, anthropic, turn, records);
    hide TurnMessages, Segments, SegmentMessages;
    after := RenderedAround(t, anthropic, turn, Segments(records), k);
    before := Rendered(t, anthropic, turn, Segments(records)[..k]);
  }

  lemma {:induction false} RenderedAround(t: Texts, anthropic: bool, turn: nat, segments: seq<Segment>, k: nat)
    returns (after: seq<Message>)
    requires k < |segments|
    ensures Rendered(t, anthropic, turn, segments)
         == Rendered(t, anthropic, turn, segments[..k]) + SegmentMessages(t, anthropic, turn, |ToolsOf(segments[..k])|, segments[k]) + after
  {
    hide SegmentMessages;
    if k == |segments| - 1 {
      after := [];
      var m := SegmentMessages(t, anthropic, turn, |ToolsOf(segments[..k])|, segments[k]);
      assert Rendered(t, anthropic, turn, segments[..k]) + m + [] == Rendered(t, anthropic, turn, segments[..k]) + m;
    } else {
      var front := segments[..|segments| - 1];
      assert front[..k] == segments[..k];
      var rest := RenderedAround(t, anthropic, turn, front, k);
      var last := SegmentMessages(t, anthropic, turn, |ToolsOf(front)|, segments[|segments| - 1]);
      after := rest + last;
      var early := Rendered(t, anthropic, turn, front[..k]) + SegmentMessages(t, anthropic, turn, |ToolsOf(front[..k])|, front[k]);
      assert early + rest + last == early + (rest + last);
    }
  }

  /** For other providers than anthropic, all reasoning of a segment stands in its one assistant
      message, the signed thoughts in order and then the plain reasoning in order. */
  lemma {:induction false} OneMessageHoldsTheReasoning(t: Texts, turn: nat, records: seq<Record>, k: nat)
    returns (before: seq<Message>, after: seq<Message>)
    requires k < |Segments(records)|
    requires Segments(records)[k].tools != [] || Reasoned(t, false, Segments(records)[k].said) != []
    ensures var s := Segments(records)[k];
      var first := |ToolsOf(Segments(records)[..k])|;
      TurnMessages(t, false, turn, records)
        == before
           + [Assistant(TextsOf(t, s.said), Contents(SignedOf(t, s.said)) + PlainOf(t, s.said), "", Calls(t, turn, first, s.tools))]
           + Results(t, turn, first, s.tools) + after
    ensures before == Rendered(t, false, turn, Segments(records)[..k])
  {
    hide Segments, Rendered, TurnMessages, TextsOf, PlainOf, SignedOf, Calls, Results;
    var segments := Segments(records);
    var s, first := segments[k], |ToolsOf(segments[..k])|;
    SpeakingSegment(t, turn, first, s);
    var rest := RenderedAround(t, false, turn, segments, k);
    hide SegmentMessages;
    before, after := SegmentInTurn(t, false, turn, records, k);
    var m := Assistant(TextsOf(t, s.said), Contents(SignedOf(t, s.said)) + PlainOf(t, s.said), "", Calls(t, turn, first, s.tools));
    var results := Results(t, turn, first, s.tools);
    assert before + ([m] + results) + after == before + [m] + results + after;
  }

  lemma {:induction false} SpeakingSegment(t: Texts, turn: nat, first: nat, s: Segment)
    requires s.tools != [] || Reasoned(t, false, s.said) != []
    ensures SegmentMessages(t, false, turn, first, s)
         == [Assistant(TextsOf(t, s.said), Contents(SignedOf(t, s.said)) + PlainOf(t, s.said), "", Calls(t, turn, first, s.tools))]
            + Results(t, turn, first, s.tools)
    ensures SegmentMessages(t, false, turn, first, s) != []
  {
    assert Contents([]) == [];
    hide TextsOf, PlainOf, SignedOf, Calls, Results;
  }

  /** All kept reasoning of a list of records. */
  function ReasoningTexts(t: Texts, records: seq<Record>): seq<string> {
    if records == [] then []
    else
      var r := records[|records| - 1];
      ReasoningTexts(t, records[..|records| - 1]) + if Kept(t, r) && r.role == "reasoning" then [t.trim(r.content)] else []
  }

  function GainedReasoning(t: Texts, r: Record): seq<string> {
    if Kept(t, r) && r.role == "reasoning" then [t.trim(r.content)] else []
  }

  lemma {:induction false} InsertCounts(a: seq<string>, b: seq<string>, x: string)
    ensures multiset((a + [x]) + b) == multiset(a + b) + multiset([x])
    ensures multiset(a + (b + [x])) == multiset(a + b) + multiset([x])
  {
  }

  lemma {:induction false} ReasonGains(t: Texts, said: seq<Record>, r: Record)
    ensures multiset(Contents(SignedOf(t, said + [r])) + PlainOf(t, said + [r]))
         == multiset(Contents(SignedOf(t, said)) + PlainOf(t, said)) + multiset(GainedReasoning(t, r))
  {
    OneRecord(t, said, r);
    ContentsGrow(SignedOf(t, said), r.(content := t.trim(r.content)));
    InsertCounts(Contents(SignedOf(t, said)), PlainOf(t, said), t.trim(r.content));
    hide SignedOf, PlainOf, Contents, Kept;
    if !Signs(t, r) { assert SignedOf(t, said + [r]) == SignedOf(t, said); }
    if !Reasons(t, r) { assert PlainOf(t, said + [r]) == PlainOf(t, said); }
  }

  lemma {:induction false} LastReasons(t: Texts, s: Segment, r: Record)
    ensures var s' := if r.role == "tool" then s.(tools := s.tools + [r]) else s.(said := s.said + [r]);
      multiset(Contents(SignedOf(t, s'.said)) + PlainOf(t, s'.said))
        == multiset(Contents(SignedOf(t, s.said)) + PlainOf(t, s.said)) + multiset(GainedReasoning(t, r))
  {
    if r.role == "tool" { ToolsSayNothing(t, r); } else { ReasonGains(t, s.said, r); }
    hide SignedOf, PlainOf, Contents, Kept;
  }

  lemma {:induction false} AddToReasoning(t: Texts, segments: seq<Segment>, r: Record)
    ensures multiset(Reasoning(t, false, AddTo(segments, r)))
         == multiset(Reasoning(t, false, segments)) + multiset(GainedReasoning(t, r))
  {
    hide *;
    var front, s := AddToCases(segments, r);
    SplitLast(t, segments, front, s);
    SplitLast(t, AddTo(segments, r), front, if r.role == "tool" then s.(tools := s.tools + [r]) else s.(said := s.said + [r]));
    LastReasons(t, s, r);
  }

  lemma {:induction false} ContentsGrow(signed: seq<Record>, r: Record)
    ensures Contents(signed + [r]) == Contents(signed) + [r.content]
  {
    assert (signed + [r])[..|signed|] == signed;
  }

  /** For other providers every kept reasoning record reaches the model exactly once. */
  lemma {:induction false} ReasoningIsKept(t: Texts, turn: nat, records: seq<Record>)
    ensures multiset(Viewed(TurnMessages(t, false, turn, records)).thoughts) == multiset(ReasoningTexts(t, records))
  {
    TurnIsFaithful(t, false, turn, records);
    hide Viewed, TurnMessages;
    ReasoningOfRecords(t, records);
  }

  lemma {:induction false} ReasoningOfRecords(t: Texts, records: seq<Record>)
    ensures multiset(Reasoning(t, false, Segments(records))) == multiset(ReasoningTexts(t, records))
  {
    if records != [] {
      var front, r := records[..|records| - 1], records[|records| - 1];
      ReasoningOfRecords(t, front);
      hide Kept, Reasoning, AddTo;
      AddToReasoning(t, Segments(front), r);
    }
  }

  /** Plain reasoning beside a signed thought, between two batches of tools. */
  predicate Mixed(t: Texts, s: Segment) { SignedOf(t, s.said) != [] && PlainOf(t, s.said) != [] }

  /** For anthropic, all plain reasoning of a segment reaches its messages if the segment has no
      signed thought, and none of it otherwise. */
  lemma {:induction false} PlainReasoningReachesExactly(t: Texts, turn: nat, first: nat, s: Segment)
    requires PlainOf(t, s.said) != []
    ensures var thoughts := Viewed(SegmentMessages(t, true, turn, first, s)).thoughts;
      && (SignedOf(t, s.said) == [] <==> thoughts == PlainOf(t, s.said) && Pairs(SignedOf(t, s.said)) == [])
      && (SignedOf(t, s.said) != [] ==> thoughts == Contents(SignedOf(t, s.said)))
  {
    SegmentCarries(t, true, turn, first, s);
    assert Contents([]) == [] && [] + PlainOf(t, s.said) == PlainOf(t, s.said);
    hide SegmentMessages, Viewed, SignedOf, PlainOf;
    if SignedOf(t, s.said) != [] { PairsLength(SignedOf(t, s.said)); }
  }

  lemma {:induction false} PairsLength(signed: seq<Record>)
    ensures |Pairs(signed)| == |signed| == |Contents(signed)|
  {
    if signed != [] { PairsLength(signed[..|signed| - 1]); }
  }

  lemma {:induction false} MixedIsShorter(t: Texts, segments: seq<Segment>)
    ensures |Reasoning(t, true, segments)| <= |Reasoning(t, false, segments)|
    ensures |Reasoning(t, true, segments)| == |Reasoning(t, false, segments)| <==> forall s :: s in segments ==> !Mixed(t, s)
    ensures (forall s :: s in segments ==> !Mixed(t, s)) ==> Reasoning(t, true, segments) == Reasoning(t, false, segments)
  {
    hide SignedOf, PlainOf;
    if segments != [] {
      var front, last := segments[..|segments| - 1], segments[|segments| - 1];
      MixedIsShorter(t, front);
      assert Contents([]) == [];
      assert Contents(SignedOf(t, last.said)) + [] == Contents(SignedOf(t, last.said));
      assert segments == front + [last];
      assert (forall s :: s in segments ==> !Mixed(t, s)) <==> (forall s :: s in front ==> !Mixed(t, s)) && !Mixed(t, last);
      hide Contents;
    }
  }

  /** With anthropic a turn carries all the reasoning it carries otherwise, in the same order, if
      and only if none of its segments mixes plain reasoning with signed thoughts. */
  lemma {:induction false} AnthropicDropsNothingExactly(t: Texts, turn: nat, records: seq<Record>)
    ensures Viewed(TurnMessages(t, true, turn, records)).thoughts == Viewed(TurnMessages(t, false, turn, records)).thoughts
      <==> forall s :: s in Segments(records) ==> !Mixed(t, s)
  {
    TurnIsFaithful(t, true, turn, records);
    TurnIsFaithful(t, false, turn, records);
    hide Viewed, TurnMessages, Segments, Reasoning, Mixed;
    MixedIsShorter(t, Segments(records));
  }

  /** Call k of a batch and its result: the record's call id or one generated from the turn's index
      and the tool's own, the tool's name, and its arguments if they are valid JSON. */
  lemma {:induction false} ToolIsExactly(t: Texts, turn: nat, first: nat, batch: seq<Record>, k: nat)
    requires k < |batch|
    ensures var r := batch[k];
      var id := if t.trim(r.toolCallID) != "" then t.trim(r.toolCallID)
                else "history_tool_" + Decimal(turn) + "_" + Decimal(first + k);
      var name := if t.trim(r.toolName) != "" then t.trim(r.toolName) else "unknown";
      var arguments := if t.trim(r.toolArguments) != "" && t.validJSON(t.trim(r.toolArguments)) then t.trim(r.toolArguments) else "{}";
      && |Calls(t, turn, first, batch)| == |batch| && Calls(t, turn, first, batch)[k] == Call(id, name, arguments)
      && |Results(t, turn, first, batch)| == |batch|
      && Results(t, turn, first, batch)[k] == ToolResult(t.result(r.toolName, r.content), id, name)
  {
    BatchAt(t, turn, first, batch, k);
    hide Calls, Results, Decimal;
  }

  /** What one more record adds to each list: its trimmed content, unless that is empty or carries
      an internal marker, to the texts or to one of the lists of reasoning, by its role. */
  lemma {:induction false} KeptExactly(t: Texts, records: seq<Record>, r: Record)
    ensures var content := t.trim(r.content);
      var shown := content != "" && !t.internal(content);
      && TextsOf(t, records + [r])
           == TextsOf(t, records) + (if shown && r.role != "tool" && r.role != "reasoning" then [content] else [])
      && PlainOf(t, records + [r])
           == PlainOf(t, records) + (if shown && r.role == "reasoning" && r.extra == "" then [content] else [])
      && Pairs(SignedOf(t, records + [r]))
           == Pairs(SignedOf(t, records)) + (if shown && r.role == "reasoning" && r.extra != "" then [([content], r.extra)] else [])
      && ReasoningTexts(t, records + [r])
           == ReasoningTexts(t, records) + (if shown && r.role == "reasoning" then [content] else [])
      && ToolRecords(records + [r]) == ToolRecords(records) + (if r.role == "tool" then [r] else [])
  {
    Gains(t, records, r);
    OneRecord(t, records, r);
    assert (records + [r])[..|records|] == records;
    hide TextsOf, PlainOf, SignedOf, Pairs;
  }

  // ---------- the turn's index matters only to generated ids ----------

  function Join(parts: seq<string>): string {
    if parts == [] then "" else if |parts| == 1 then parts[0] else parts[0] + "\n\n" + Join(parts[1..])
  }

  function CallBytes(calls: seq<Call>): nat {
    if calls == [] then 0
    else
      var last := calls[|calls| - 1];
      CallBytes(calls[..|calls| - 1]) + |last.id| + |last.name| + |last.arguments|
  }

  function MessageBytes(m: Message): nat {
    match m
    case System(content) => |content|
    case User(_, _) => 0
    case Assistant(parts, thoughts, _, calls) => |Join(parts)| + |Join(thoughts)| + CallBytes(calls)
    case ToolResult(content, _, _) => |content|
  }

  function Bytes(messages: seq<Message>): nat {
    if messages == [] then 0 else Bytes(messages[..|messages| - 1]) + MessageBytes(messages[|messages| - 1])
  }

  /** Texts are joined by an empty line. */
  lemma {:induction false} JoinExactly(parts: seq<string>, last: string)
    ensures Join([]) == "" && Join([last]) == last
    ensures parts != [] ==> Join(parts + [last]) == Join(parts) + "\n\n" + last
  {
    if |parts| > 1 {
      JoinExactly(parts[1..], last);
      assert (parts + [last])[1..] == parts[1..] + [last];
    } else if |parts| == 1 {
      assert (parts + [last])[1..] == [last];
    }
  }

  /** The bytes of messages: those of the joined texts and thoughts, of the ids, names and
      arguments of the calls, and of the results. */
  lemma {:induction false} BytesExactly(messages: seq<Message>, m: Message, calls: seq<Call>, c: Call)
    ensures Bytes([]) == 0 && Bytes(messages + [m]) == Bytes(messages) + MessageBytes(m)
    ensures CallBytes([]) == 0 && CallBytes(calls + [c]) == CallBytes(calls) + |c.id| + |c.name| + |c.arguments|
    ensures m.Assistant? ==> MessageBytes(m) == |Join(m.parts)| + |Join(m.thoughts)| + CallBytes(m.calls)
    ensures m.ToolResult? || m.System? ==> MessageBytes(m) == |m.content|
    ensures m.User? ==> MessageBytes(m) == 0
  {
    assert (messages + [m])[..|messages|] == messages && (calls + [c])[..|calls|] == calls;
  }

  lemma {:induction false} BytesConcat(a: seq<Message>, b: seq<Message>)
    ensures Bytes(a + b) == Bytes(a) + Bytes(b)
  {
    if b == [] {
      assert a + b == a;
    } else {
      var front, last := b[..|b| - 1], b[|b| - 1];
      assert (a + b)[..|a + b| - 1] == a + front && (a + b)[|a + b| - 1] == last;
      BytesConcat(a, front);
    }
  }

  /** The same id, or the generated ids of the same tool under two indexes of the turn. */
  ghost predicate RenamedID(turn: nat, turn': nat, id: string, id': string) {
    id' == id || exists tool: nat :: id == GeneratedID(turn, tool) && id' == GeneratedID(turn', tool)
  }

  ghost predicate RenamedCall(turn: nat, turn': nat, c: Call, c': Call) {
    RenamedID(turn, turn', c.id, c'.id) && c'.name == c.name && c'.arguments == c.arguments
  }

  /** The same message, up to generated ids. */
  ghost predicate RenamedMessage(turn: nat, turn': nat, m: Message, m': Message) {
    match (m, m')
    case (Assistant(parts, thoughts, extra, calls), Assistant(parts', thoughts', extra', calls')) =>
      && parts' == parts && thoughts' == thoughts && extra' == extra && |calls'| == |calls|
      && forall k :: 0 <= k < |calls| ==> RenamedCall(turn, turn', calls[k], calls'[k])
    case (ToolResult(content, id, name), ToolResult(content', id', name')) =>
      content' == content && name' == name && RenamedID(turn, turn', id, id')
    case _ => m' == m
  }

  ghost predicate RenamedMessages(turn: nat, turn': nat, ms: seq<Message>, ms': seq<Message>) {
    |ms'| == |ms| && forall k :: 0 <= k < |ms| ==> RenamedMessage(turn, turn', ms[k], ms'[k])
  }

  lemma {:induction false} SameIsRenamed(turn: nat, turn': nat, ms: seq<Message>)
    ensures RenamedMessages(turn, turn', ms, ms)
  {
  }

  lemma {:induction false} RenamedConcat(turn: nat, turn': nat, a: seq<Message>, b: seq<Message>, a': seq<Message>, b': seq<Message>)
    requires RenamedMessages(turn, turn', a, a') && RenamedMessages(turn, turn', b, b')
    ensures RenamedMessages(turn, turn', a + b, a' + b')
  {
    hide RenamedMessage;
  }

  lemma {:induction false} CallRenamed(t: Texts, turn: nat, turn': nat, tool: nat, r: Record)
    ensures RenamedCall(turn, turn', ToCall(t, turn, tool, r), ToCall(t, turn', tool, r))
    ensures RenamedMessage(turn, turn', ToResult(t, turn, tool, r), ToResult(t, turn', tool, r))
  {
    hide CallName, CallArguments, GeneratedID;
  }

  lemma {:induction false} BatchAt(t: Texts, turn: nat, first: nat, batch: seq<Record>, k: nat)
    requires k < |batch|
    ensures |Calls(t, turn, first, batch)| == |batch| && Calls(t, turn, first, batch)[k] == ToCall(t, turn, first + k, batch[k])
    ensures |Results(t, turn, first, batch)| == |batch| && Results(t, turn, first, batch)[k] == ToResult(t, turn, first + k, batch[k])
  {
    hide ToCall, ToResult;
    var front := batch[..|batch| - 1];
    if k < |front| {
      BatchAt(t, turn, first, front, k);
    } else if front != [] {
      BatchAt(t, turn, first, front, 0);
    } else {
      NoTools(t, turn, first);
    }
  }

  lemma {:induction false} BatchRenamed(t: Texts, turn: nat, turn': nat, first: nat, batch: seq<Record>)
    ensures RenamedMessages(turn, turn', Results(t, turn, first, batch), Results(t, turn', first, batch))
    ensures |Calls(t, turn', first, batch)| == |Calls(t, turn, first, batch)|
    ensures forall k :: 0 <= k < |Calls(t, turn, first, batch)| ==>
      RenamedCall(turn, turn', Calls(t, turn, first, batch)[k], Calls(t, turn', first, batch)[k])
  {
    hide Calls, Results, RenamedCall, RenamedMessage, ToCall, ToResult;
    if batch == [] {
      NoTools(t, turn, first);
      NoTools(t, turn', first);
    } else {
      forall k | 0 <= k < |batch|
        ensures |Calls(t, turn, first, batch)| == |Calls(t, turn', first, batch)| == |batch|
        ensures |Results(t, turn, first, batch)| == |Results(t, turn', first, batch)| == |batch|
        ensures RenamedCall(turn, turn', Calls(t, turn, first, batch)[k], Calls(t, turn', first, batch)[k])
        ensures RenamedMessage(turn, turn', Results(t, turn, first, batch)[k], Results(t, turn', first, batch)[k])
      {
        BatchAt(t, turn, first, batch, k);
        BatchAt(t, turn', first, batch, k);
        CallRenamed(t, turn, turn', first + k, batch[k]);
      }
      BatchAt(t, turn, first, batch, 0);
      BatchAt(t, turn', first, batch, 0);
    }
  }

  lemma {:induction false} SpokenRenamed(turn: nat, turn': nat, anthropic: bool, content: seq<string>, reasoning: seq<string>,
                                         signed: seq<Record>, calls: seq<Call>, calls': seq<Call>)
    requires |calls'| == |calls| && forall k :: 0 <= k < |calls| ==> RenamedCall(turn, turn', calls[k], calls'[k])
    ensures RenamedMessages(turn, turn', Spoken(anthropic, content, reasoning, signed, calls),
                            Spoken(anthropic, content, reasoning, signed, calls'))
  {
    hide RenamedCall, Thoughts, Contents;
    if anthropic && signed != [] {
      var front, last := signed[..|signed| - 1], signed[|signed| - 1];
      SameIsRenamed(turn, turn', Thoughts(front));
      RenamedConcat(turn, turn', Thoughts(front), [Assistant(content, [last.content], last.extra, calls)],
                    Thoughts(front), [Assistant(content, [last.content], last.extra, calls')]);
    }
  }

  lemma {:induction false} RenderedRenamed(t: Texts, anthropic: bool, turn: nat, turn': nat, segments: seq<Segment>)
    ensures RenamedMessages(turn, turn', Rendered(t, anthropic, turn, segments), Rendered(t, anthropic, turn', segments))
  {
    if segments != [] {
      var front, last := segments[..|segments| - 1], segments[|segments| - 1];
      var first := |ToolsOf(front)|;
      RenderedRenamed(t, anthropic, turn, turn', front);
      SegmentRenamed(t, anthropic, turn, turn', first, last);
      hide SegmentMessages, RenamedMessages;
      RenamedConcat(turn, turn', Rendered(t, anthropic, turn, front), SegmentMessages(t, anthropic, turn, first, last),
                    Rendered(t, anthropic, turn', front), SegmentMessages(t, anthropic, turn', first, last));
    }
  }

  lemma {:induction false} SegmentRenamed(t: Texts, anthropic: bool, turn: nat, turn': nat, first: nat, s: Segment)
    ensures RenamedMessages(turn, turn', SegmentMessages(t, anthropic, turn, first, s), SegmentMessages(t, anthropic, turn', first, s))
  {
    var texts, plain, signed := TextsOf(t, s.said), PlainOf(t, s.said), SignedOf(t, s.said);
    SameIsRenamed(turn, turn', []);
    BatchRenamed(t, turn, turn', first, s.tools);
    hide TextsOf, PlainOf, SignedOf, Spoken, Calls, Results, RenamedMessages, RenamedCall;
    var calls, calls' := Calls(t, turn, first, s.tools), Calls(t, turn', first, s.tools);
    SpokenRenamed(turn, turn', anthropic, texts, plain, signed, calls, calls');
    RenamedConcat(turn, turn', Spoken(anthropic, texts, plain, signed, calls), Results(t, turn, first, s.tools),
                  Spoken(anthropic, texts, plain, signed, calls'), Results(t, turn', first, s.tools));
  }

  /** Under another index a turn has the same messages, up to the ids generated for its tools. */
  lemma {:induction false} TurnIsRenamed(t: Texts, anthropic: bool, turn: nat, turn': nat, records: seq<Record>)
    ensures RenamedMessages(turn, turn', TurnMessages(t, anthropic, turn, records), TurnMessages(t, anthropic, turn', records))
  {
    TurnIsItsSegments(t, anthropic, turn, records);
    TurnIsItsSegments(t, anthropic, turn', records);
    RenderedRenamed(t, anthropic, turn, turn', Segments(records));
    SameIsRenamed(turn, turn', [INCOMPLETE]);
    hide TurnMessages, Rendered, Segments, RenamedMessage;
  }

  lemma {:induction false} RenamedIDIsNoLonger(turn: nat, turn': nat, id: string, id': string)
    requires turn' <= turn && RenamedID(turn, turn', id, id')
    ensures |id'| <= |id|
  {
    DecimalGrows(turn', turn);
    hide Decimal;
  }

  lemma {:induction false} RenamedCallsAreNoLarger(turn: nat, turn': nat, calls: seq<Call>, calls': seq<Call>)
    requires turn' <= turn && |calls'| == |calls| && forall k :: 0 <= k < |calls| ==> RenamedCall(turn, turn', calls[k], calls'[k])
    ensures CallBytes(calls') <= CallBytes(calls)
  {
    if calls != [] {
      var n := |calls| - 1;
      RenamedCallsAreNoLarger(turn, turn', calls[..n], calls'[..n]);
      assert RenamedCall(turn, turn', calls[n], calls'[n]);
      RenamedIDIsNoLonger(turn, turn', calls[n].id, calls'[n].id);
    }
  }

  lemma {:induction false} RenamedAreNoLarger(turn: nat, turn': nat, ms: seq<Message>, ms': seq<Message>)
    requires turn' <= turn && RenamedMessages(turn, turn', ms, ms')
    ensures Bytes(ms') <= Bytes(ms)
  {
    if ms != [] {
      var n := |ms| - 1;
      hide RenamedMessage, CallBytes, MessageBytes;
      RenamedAreNoLarger(turn, turn', ms[..n], ms'[..n]);
      RenamedIsNoLarger(turn, turn', ms[n], ms'[n]);
    }
  }

  lemma {:induction false} RenamedIsNoLarger(turn: nat, turn': nat, m: Message, m': Message)
    requires turn' <= turn && RenamedMessage(turn, turn', m, m')
    ensures MessageBytes(m') <= MessageBytes(m)
  {
    hide CallBytes, Join, RenamedCall;
    if m.Assistant? && m'.Assistant? { RenamedCallsAreNoLarger(turn, turn', m.calls, m'.calls); }
  }

  // ---------- when the index shows ----------

  /** Every tool record has a call id of its own. */
  predicate CallsNamed(t: Texts, records: seq<Record>) {
    forall r :: r in records && r.role == "tool" ==> t.trim(r.toolCallID) != ""
  }

  lemma {:induction false} ToolRecordsHold(records: seq<Record>, r: Record)
    ensures r in ToolRecords(records) <==> r in records && r.role == "tool"
  {
    if records != [] {
      ToolRecordsHold(records[..|records| - 1], r);
      assert records == records[..|records| - 1] + [records[|records| - 1]];
    }
  }

  lemma {:induction false} NamedBatch(t: Texts, turn: nat, turn': nat, first: nat, batch: seq<Record>)
    requires forall r :: r in batch ==> t.trim(r.toolCallID) != ""
    ensures Calls(t, turn', first, batch) == Calls(t, turn, first, batch)
    ensures Results(t, turn', first, batch) == Results(t, turn, first, batch)
  {
    if batch != [] { NamedBatch(t, turn, turn', first, batch[..|batch| - 1]); }
  }

  lemma {:induction false} NamedRendered(t: Texts, anthropic: bool, turn: nat, turn': nat, segments: seq<Segment>)
    requires forall r :: r in ToolsOf(segments) ==> t.trim(r.toolCallID) != ""
    ensures Rendered(t, anthropic, turn', segments) == Rendered(t, anthropic, turn, segments)
  {
    if segments != [] {
      var front, last := segments[..|segments| - 1], segments[|segments| - 1];
      assert ToolsOf(segments) == ToolsOf(front) + last.tools;
      NamedRendered(t, anthropic, turn, turn', front);
      NamedBatch(t, turn, turn', |ToolsOf(front)|, last.tools);
      hide Spoken, TextsOf, PlainOf, SignedOf, Calls, Results;
    }
  }

  lemma {:induction false} GeneratedShowsIndex(turn: nat, turn': nat, tool: nat)
    requires GeneratedID(turn, tool) == GeneratedID(turn', tool)
    ensures turn == turn'
  {
    var prefix, a, b, suffix := "history_tool_", Decimal(turn), Decimal(turn'), "_" + Decimal(tool);
    hide Decimal;
    assert GeneratedID(turn, tool) == prefix + a + suffix && GeneratedID(turn', tool) == prefix + b + suffix;
    Enclosed(prefix, a, b, suffix);
    DecimalDetermines(turn, turn');
  }

  lemma {:induction false} Enclosed(prefix: string, a: string, b: string, suffix: string)
    requires prefix + a + suffix == prefix + b + suffix
    ensures a == b
  {
    assert |prefix + a + suffix| == |prefix + b + suffix|;
    assert (prefix + a + suffix)[|prefix|..|prefix| + |a|] == a;
    assert (prefix + b + suffix)[|prefix|..|prefix| + |b|] == b;
  }

  lemma {:induction false} UnnamedResultShows(t: Texts, turn: nat, turn': nat, tools: seq<Record>, k: nat)
    requires turn != turn' && k < |tools| && t.trim(tools[k].toolCallID) == ""
    ensures Results(t, turn', 0, tools) != Results(t, turn, 0, tools)
  {
    hide Results, Calls, GeneratedID;
    BatchAt(t, turn, 0, tools, k);
    BatchAt(t, turn', 0, tools, k);
    if GeneratedID(turn, k) == GeneratedID(turn', k) { GeneratedShowsIndex(turn, turn', k); }
  }

  /** A turn has the same messages under two indexes if and only if each of its tool records
      has a call id of its own. */
  lemma {:induction false} IndexShowsExactly(t: Texts, anthropic: bool, turn: nat, turn': nat, records: seq<Record>)
    requires turn != turn'
    ensures TurnMessages(t, anthropic, turn', records) == TurnMessages(t, anthropic, turn, records) <==> CallsNamed(t, records)
  {
    var tools := ToolRecords(records);
    if CallsNamed(t, records) {
      NamedTurnIgnoresIndex(t, anthropic, turn, turn', records);
    } else {
      var r :| r in records && r.role == "tool" && t.trim(r.toolCallID) == "";
      ToolRecordsHold(records, r);
      var k :| 0 <= k < |tools| && tools[k] == r;
      UnnamedResultShows(t, turn, turn', tools, k);
      hide *;
      TurnIsFaithful(t, anthropic, turn, records);
      TurnIsFaithful(t, anthropic, turn', records);
    }
  }

  lemma {:induction false} NamedTurnIgnoresIndex(t: Texts, anthropic: bool, turn: nat, turn': nat, records: seq<Record>)
    requires CallsNamed(t, records)
    ensures TurnMessages(t, anthropic, turn', records) == TurnMessages(t, anthropic, turn, records)
  {
    TurnIsItsSegments(t, anthropic, turn, records);
    TurnIsItsSegments(t, anthropic, turn', records);
    ToolsOfRecords(records);
    forall r | r in ToolRecords(records) ensures t.trim(r.toolCallID) != "" { ToolRecordsHold(records, r); }
    NamedRendered(t, anthropic, turn, turn', Segments(records));
    hide TurnMessages, Rendered;
  }
}
