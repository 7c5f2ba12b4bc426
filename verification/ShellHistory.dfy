/** The bounded in-memory history of a terminal opened from the web app. */
module ShellHistory {
  import opened Wrappers

  const MAX_EVENTS: nat := 4096
  const MAX_BYTES: nat := 2097152
  const PAGE_EVENTS: nat := 512

  /** Strings are byte strings. */
  datatype Event = Event(shellID: string, sequence: nat, stream: string, content: string, readable: Option<string>,
                         source: string, status: string)

  function OutputBytes(e: Event): nat {
    if e.stream != "stdout" && e.stream != "stderr" then 0
    else if e.readable.Some? then |e.readable.value| else |e.content|
  }

  function MemoryBytes(e: Event): nat {
    |e.content| + |e.source| + |e.status| + 96 + if e.readable.Some? then |e.readable.value| else 0
  }

  function Memory(events: seq<Event>): nat {
    if events == [] then 0 else MemoryBytes(events[0]) + Memory(events[1..])
  }

  lemma {:induction false} MemoryConcat(a: seq<Event>, b: seq<Event>)
    ensures Memory(a + b) == Memory(a) + Memory(b)
  {
    hide MemoryBytes;
    if a == [] {
      assert a + b == b;
    } else {
      assert (a + b)[0] == a[0] && (a + b)[1..] == a[1..] + b;
      MemoryConcat(a[1..], b);
    }
  }

  /** An event counts 96 bytes and its texts; as output it counts what is shown of it. */
  lemma {:induction false} SizesExactly(e: Event)
    ensures Memory([]) == 0 && Memory([e]) == 96 + |e.content| + |e.source| + |e.status| + |ReadableOf(e)|
    ensures e.stream in ["stdout", "stderr"] ==> OutputBytes(e) == if e.readable.Some? then |e.readable.value| else |e.content|
    ensures e.stream !in ["stdout", "stderr"] ==> OutputBytes(e) == 0
  {
    assert [e][1..] == [];
  }

  function ReadableOf(e: Event): string { match e.readable case Some(text) => text case None => "" }

  // ---------- retention ----------

  predicate Fits(events: seq<Event>) { |events| <= MAX_EVENTS && Memory(events) <= MAX_BYTES }

  /** Drop the oldest events until the rest fits; the newest one always stays. */
  function Trim(events: seq<Event>): seq<Event> {
    if |events| > 1 && !Fits(events) then Trim(events[1..]) else events
  }

  /** What is retained is the longest suffix that fits, or the last event if none does. */
  lemma {:induction false} TrimIsLongestFit(events: seq<Event>)
    requires events != []
    ensures var n := |events| - |Trim(events)|;
      && 0 <= n < |events|
      && Trim(events) == events[n..]
      && (Fits(events[n..]) || n == |events| - 1)
      && (forall k :: 0 <= k < n ==> !Fits(events[k..]))
  {
    if |events| > 1 && !Fits(events) {
      TrimIsLongestFit(events[1..]);
      hide Fits;
      var n := |events| - |Trim(events)|;
      assert events[1..][n - 1..] == events[n..];
      assert events[0..] == events;
      forall k | 0 <= k < n ensures !Fits(events[k..]) {
        if k > 0 { assert events[1..][k - 1..] == events[k..]; }
      }
    }
  }

  /** Trimming early loses nothing that would have been kept. */
  lemma {:induction false} TrimInSteps(a: seq<Event>, b: seq<Event>)
    requires b != []
    ensures Trim(Trim(a) + b) == Trim(a + b)
  {
    if |a| > 1 && !Fits(a) {
      TrimInSteps(a[1..], b);
      assert (a + b)[1..] == a[1..] + b;
      if Fits(a + b) { PrefixFits(a, b); }
    }
  }

  lemma {:induction false} PrefixFits(a: seq<Event>, b: seq<Event>)
    requires Fits(a + b)
    ensures Fits(a)
  {
    MemoryConcat(a, b);
  }

  // ---------- appending, batch by batch ----------

  predicate Accepted(shellID: string, batch: seq<Event>) {
    shellID != "" && batch != [] && batch[|batch| - 1].shellID == shellID
  }

  /** The events retained after a list of calls of Append. */
  function Retained(shellID: string, batches: seq<seq<Event>>): seq<Event> {
    if batches == [] then []
    else
      var earlier := Retained(shellID, batches[..|batches| - 1]);
      var batch := batches[|batches| - 1];
      if Accepted(shellID, batch) then Trim(earlier + batch) else earlier
  }

  /** Everything that was ever accepted. */
  function Appended(shellID: string, batches: seq<seq<Event>>): seq<Event> {
    if batches == [] then []
    else
      var earlier := Appended(shellID, batches[..|batches| - 1]);
      var batch := batches[|batches| - 1];
      if Accepted(shellID, batch) then earlier + batch else earlier
  }

  /** However the appends are batched, what is retained depends only on what was appended. */
  lemma {:induction false} BatchingIsIrrelevant(shellID: string, batches: seq<seq<Event>>)
    ensures Retained(shellID, batches) == Trim(Appended(shellID, batches))
  {
    if batches != [] {
      var front, batch := batches[..|batches| - 1], batches[|batches| - 1];
      BatchingIsIrrelevant(shellID, front);
      hide Trim;
      if Accepted(shellID, batch) { TrimInSteps(Appended(shellID, front), batch); }
    } else {
      assert Trim([]) == [];
    }
  }

  // ---------- paging ----------

  function Later(events: seq<Event>, after: nat): seq<Event> {
    if events == [] then []
    else (if events[0].sequence > after then [events[0]] else []) + Later(events[1..], after)
  }

  /** How many of the later events go on a page that already holds k of them. */
  function PageEnd(later: seq<Event>, limit: int, k: nat, bytes: nat): (end: nat)
    requires k <= |later|
    ensures k <= end <= |later|
    decreases |later| - k
  {
    if k == |later| then k
    else if limit > 0 && k >= PAGE_EVENTS then k
    else if limit > 0 && bytes > 0 && bytes + OutputBytes(later[k]) > limit then k
    else PageEnd(later, limit, k + 1, bytes + OutputBytes(later[k]))
  }

  function Page(events: seq<Event>, after: nat, limit: int): seq<Event> {
    Later(events, after)[..PageEnd(Later(events, after), limit, 0, 0)]
  }

  predicate HasMore(events: seq<Event>, after: nat, limit: int) {
    PageEnd(Later(events, after), limit, 0, 0) < |Later(events, after)|
  }

  function Output(events: seq<Event>): nat {
    if events == [] then 0 else Output(events[..|events| - 1]) + OutputBytes(events[|events| - 1])
  }

  lemma {:induction false} OutputAdds(events: seq<Event>, e: Event)
    ensures Output([]) == 0 && Output(events + [e]) == Output(events) + OutputBytes(e)
  {
    assert (events + [e])[..|events|] == events;
  }

  /** The first k later events keep the output limit, unless they are one oversized output. */
  predicate WithinLimit(later: seq<Event>, limit: int, k: nat)
    requires k <= |later|
  {
    Output(later[..k]) <= limit || exists j :: 0 <= j < k && Output(later[..k]) == OutputBytes(later[j])
  }

  predicate Overflows(later: seq<Event>, limit: int, k: nat)
    requires k < |later|
  {
    Output(later[..k]) > 0 && Output(later[..k]) + OutputBytes(later[k]) > limit
  }

  lemma {:induction false} OneMore(later: seq<Event>, limit: int, k: nat)
    requires k < |later| && WithinLimit(later, limit, k) && !Overflows(later, limit, k)
    ensures Output(later[..k + 1]) == Output(later[..k]) + OutputBytes(later[k])
    ensures WithinLimit(later, limit, k + 1)
  {
    assert later[..k + 1][..k] == later[..k];
    assert Output(later[..k + 1]) == Output(later[..k]) + OutputBytes(later[k]);
    hide Output, OutputBytes;
    if Output(later[..k]) == 0 { assert Output(later[..k + 1]) == OutputBytes(later[k]); }
  }

  /** A page is at most as long as the limits say, a single oversized output apart, and it
      stops only where the next event would break one of them. */
  lemma {:induction false} PageRespectsLimits(later: seq<Event>, limit: int, k: nat)
    requires limit > 0 && k <= |later| && k <= PAGE_EVENTS && WithinLimit(later, limit, k)
    ensures var end := PageEnd(later, limit, k, Output(later[..k]));
      && end <= PAGE_EVENTS
      && WithinLimit(later, limit, end)
      && (end < |later| ==> end == PAGE_EVENTS || Overflows(later, limit, end))
    decreases |later| - k
  {
    if k < |later| {
      PageStep(later, limit, k, Output(later[..k]));
      if k < PAGE_EVENTS && !Overflows(later, limit, k) {
        hide PageEnd, WithinLimit, Output, OutputBytes;
        OneMore(later, limit, k);
        PageRespectsLimits(later, limit, k + 1);
      }
    }
  }

  /** A page that says there is more is never empty. */
  lemma {:induction false} PageProgresses(events: seq<Event>, after: nat, limit: int)
    requires HasMore(events, after, limit)
    ensures Page(events, after, limit) != []
  {
    var later := Later(events, after);
    assert PageEnd(later, limit, 0, 0) >= 1 by {
      assert later != [];
      assert PageEnd(later, limit, 0, 0) == PageEnd(later, limit, 1, OutputBytes(later[0]));
    }
  }

  lemma {:induction false} LaterAreLater(events: seq<Event>, after: nat, k: nat)
    requires k < |Later(events, after)|
    ensures Later(events, after)[k].sequence > after
  {
    var here := if events[0].sequence > after then 1 else 0;
    if k >= here { LaterAreLater(events[1..], after, k - here); }
  }

  lemma {:induction false} LaterOfLater(events: seq<Event>, after: nat, next: nat)
    requires after <= next
    ensures Later(Later(events, after), next) == Later(events, next)
  {
    if events != [] {
      LaterOfLater(events[1..], after, next);
      var rest := Later(events[1..], after);
      assert ([events[0]] + rest)[1..] == rest;
      assert [] + rest == rest;
    }
  }

  predicate Increasing(events: seq<Event>) {
    forall i, j :: 0 <= i < j < |events| ==> events[i].sequence < events[j].sequence
  }

  lemma {:induction false} LaterCounts(events: seq<Event>, next: nat)
    ensures |Later(events, next)| <= |events|
    ensures (exists k :: 0 <= k < |events| && events[k].sequence <= next) ==> |Later(events, next)| < |events|
  {
    if events != [] {
      LaterCounts(events[1..], next);
      if k: nat :| 1 <= k < |events| && events[k].sequence <= next { assert events[1..][k - 1] == events[k]; }
    }
  }

  lemma {:induction false} NextPageIsSmaller(events: seq<Event>, after: nat, limit: int)
    requires HasMore(events, after, limit)
    ensures Page(events, after, limit) != []
    ensures var page := Page(events, after, limit);
      |Later(events, page[|page| - 1].sequence)| < |Later(events, after)|
  {
    PageProgresses(events, after, limit);
    var page, later := Page(events, after, limit), Later(events, after);
    var next := page[|page| - 1].sequence;
    LaterAreLater(events, after, |page| - 1);
    LaterOfLater(events, after, next);
    LaterCounts(later, next);
    assert later[|page| - 1].sequence <= next;
  }

  /** All events a client collects by asking again from the last sequence it was given. */
  function Collected(events: seq<Event>, after: nat, limit: int): seq<Event>
    decreases |Later(events, after)|
  {
    var page := Page(events, after, limit);
    if HasMore(events, after, limit) then
      NextPageIsSmaller(events, after, limit);
      page + Collected(events, page[|page| - 1].sequence, limit)
    else page
  }

  lemma {:induction false} LaterIncreases(events: seq<Event>, after: nat)
    requires Increasing(events)
    ensures Increasing(Later(events, after))
    ensures forall k :: 0 <= k < |Later(events, after)| && events != [] ==> Later(events, after)[k].sequence >= events[0].sequence
  {
    if events != [] {
      var rest := events[1..];
      LaterIncreases(rest, after);
      if rest != [] { assert events[0].sequence < events[1].sequence && rest[0] == events[1]; }
    }
  }

  lemma {:induction false} LaterOfIncreasing(later: seq<Event>, k: nat)
    requires Increasing(later) && k < |later|
    ensures Later(later, later[k].sequence) == later[k + 1..]
  {
    if k == 0 {
      LaterKeepsAll(later[1..], later[0].sequence);
    } else {
      assert later[0].sequence < later[k].sequence;
      LaterOfIncreasing(later[1..], k - 1);
      assert later[1..][k..] == later[k + 1..];
    }
  }

  lemma {:induction false} LaterKeepsAll(events: seq<Event>, after: nat)
    requires forall k :: 0 <= k < |events| ==> events[k].sequence > after
    ensures Later(events, after) == events
  {
    if events != [] { LaterKeepsAll(events[1..], after); }
  }

  lemma {:induction false} RestBehindPage(events: seq<Event>, after: nat, limit: int)
    requires Increasing(events) && HasMore(events, after, limit)
    ensures Page(events, after, limit) != []
    ensures var page := Page(events, after, limit);
      Later(events, after) == page + Later(events, page[|page| - 1].sequence)
  {
    PageProgresses(events, after, limit);
    var page, later := Page(events, after, limit), Later(events, after);
    assert page == later[..|page|] && page[|page| - 1] == later[|page| - 1];
    hide Page, HasMore, Later, Increasing, PageEnd;
    LaterIncreases(events, after);
    var next := page[|page| - 1].sequence;
    LaterAreLater(events, after, |page| - 1);
    LaterOfLater(events, after, next);
    LaterOfIncreasing(later, |page| - 1);
    assert later[..|page|] + later[|page|..] == later;
  }

  /** With increasing sequences, following the pages yields every retained event after the
      cursor exactly once, in order, whatever the page limit. */
  lemma {:induction false} PagesCoverEverything(events: seq<Event>, after: nat, limit: int)
    requires Increasing(events)
    ensures Collected(events, after, limit) == Later(events, after)
    decreases |Later(events, after)|
  {
    hide Later, Increasing, PageEnd;
    if HasMore(events, after, limit) {
      NextPageIsSmaller(events, after, limit);
      RestBehindPage(events, after, limit);
      hide Page, HasMore;
      var page := Page(events, after, limit);
      PagesCoverEverything(events, page[|page| - 1].sequence, limit);
    } else {
      var later := Later(events, after);
      assert later[..|later|] == later;
    }
  }

  lemma {:induction false} NextLater(events: seq<Event>, after: nat, k: nat, later: seq<Event>, n: nat)
    requires k < |events| && n <= |later| && later[n..] == Later(events[k..], after)
    ensures events[k].sequence > after ==>
      && n < |later| && later[n] == events[k] && later[..n + 1] == later[..n] + [events[k]]
      && later[n + 1..] == Later(events[k + 1..], after)
    ensures events[k].sequence <= after ==> later[n..] == Later(events[k + 1..], after)
  {
    assert events[k..][1..] == events[k + 1..];
    var rest := Later(events[k + 1..], after);
    if events[k].sequence > after {
      assert later[n..] == [events[k]] + rest;
      hide Later;
      assert later[n..][0] == later[n] && later[n + 1..] == later[n..][1..];
    } else {
      assert [] + rest == rest;
    }
  }

  lemma LaterOfNothing(events: seq<Event>, after: nat)
    ensures Later(events[|events|..], after) == []
  {
  }

  lemma PageStep(later: seq<Event>, limit: int, k: nat, bytes: nat)
    requires k < |later|
    ensures PageEnd(later, limit, k, bytes)
         == if limit > 0 && (k >= PAGE_EVENTS || (bytes > 0 && bytes + OutputBytes(later[k]) > limit)) then k
            else PageEnd(later, limit, k + 1, bytes + OutputBytes(later[k]))
  {
  }

  // ---------- the history object ----------

  class MemoryShellHistory {
    var shellID: string
    var lastSequence: nat
    var events: seq<Event>
    var eventBytes: nat
    var recentOutput: string

    ghost predicate Valid()
      reads this
    {
      eventBytes == Memory(events)
    }

    constructor (id: string)
      ensures Valid() && events == [] && shellID == id
    {
      shellID, lastSequence, events, eventBytes, recentOutput := id, 0, [], 0, "";
    }

    /** An empty batch succeeds without effect; only the last event's shell is looked at. */
    method Append(batch: seq<Event>, recent: string) returns (ok: bool)
      requires Valid()
      modifies `events, `eventBytes, `lastSequence, `recentOutput
      ensures Valid()
      ensures ok <==> batch == [] || Accepted(shellID, batch)
      ensures events == if Accepted(shellID, batch) then Trim(old(events) + batch) else old(events)
      ensures lastSequence == if Accepted(shellID, batch) then batch[|batch| - 1].sequence else old(lastSequence)
      ensures recentOutput == if Accepted(shellID, batch) then recent else old(recentOutput)
    {
      if |batch| == 0 { return true; }
      if shellID == "" || batch[|batch| - 1].shellID != shellID { return false; }
      assert batch[..0] == [];
      for k := 0 to |batch|
        invariant events == old(events) + batch[..k]
        invariant eventBytes == Memory(events)
      {
        MemoryConcat(events, [batch[k]]);
        assert batch[..k + 1] == batch[..k] + [batch[k]];
        events := events + [batch[k]];
        eventBytes := eventBytes + MemoryBytes(batch[k]);
      }
      assert batch[..|batch|] == batch;
      lastSequence, recentOutput := batch[|batch| - 1].sequence, recent;
      while |events| > 1 && (|events| > MAX_EVENTS || eventBytes > MAX_BYTES)
        invariant events != [] && eventBytes == Memory(events)
        invariant Trim(events) == Trim(old(events) + batch)
        invariant lastSequence == batch[|batch| - 1].sequence && recentOutput == recent
        decreases |events|
      {
        eventBytes := eventBytes - MemoryBytes(events[0]);
        events := events[1..];
      }
      ok := true;
    }

    method ListPage(after: nat, limit: int) returns (page: seq<Event>, more: bool)
      ensures page == Page(events, after, limit) && more == HasMore(events, after, limit)
    {
      page, more := CollectPage(events, after, limit);
    }
  }

  /** The loop of ListPage over the retained events. */
  method CollectPage(events: seq<Event>, after: nat, limit: int) returns (page: seq<Event>, more: bool)
    ensures page == Page(events, after, limit) && more == HasMore(events, after, limit)
  {
    ghost var later := Later(events, after);
    assert events[0..] == events && later[..0] == [] && later[0..] == later;
    page := [];
    var count, bytes: nat := 0, 0;
    LaterOfNothing(events, after);
    hide Later, PageEnd, OutputBytes;
    for k := 0 to |events|
      invariant count <= |later| && page == later[..count] && later[count..] == Later(events[k..], after)
      invariant PageEnd(later, limit, 0, 0) == PageEnd(later, limit, count, bytes)
    {
      NextLater(events, after, k, later, count);
      if events[k].sequence > after {
        PageStep(later, limit, count, bytes);
        if limit > 0 && count >= PAGE_EVENTS { return page, true; }
        var size := OutputBytes(events[k]);
        if limit > 0 && bytes > 0 && bytes + size > limit { return page, true; }
        page := page + [events[k]];
        count, bytes := count + 1, bytes + size;
      }
    }
    assert later[count..] == [] && count == |later|;
    more := false;
  }
}
