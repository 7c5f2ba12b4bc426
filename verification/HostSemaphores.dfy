/** Service.acquire: a global slot, then one slot of every host, in sorted order. */
module HostSemaphores {

  // ---------- sorted, duplicate-free host ids ----------

  predicate LexLess(a: string, b: string) {
    if b == "" then false
    else if a == "" then true
    else a[0] < b[0] || (a[0] == b[0] && LexLess(a[1..], b[1..]))
  }

  lemma {:induction false} LexOrder(a: string, b: string, c: string)
    ensures !LexLess(a, a)
    ensures a != b ==> LexLess(a, b) || LexLess(b, a)
    ensures LexLess(a, b) && LexLess(b, c) ==> LexLess(a, c)
    ensures LexLess(a, b) ==> !LexLess(b, a)
    decreases |a| + |b| + |c|
  {
    if a != "" && b != "" && c != "" {
      LexOrder(a[1..], b[1..], c[1..]);
    } else if a != "" && b != "" {
      LexOrder(a[1..], b[1..], c);
    } else if a != "" {
      LexOrder(a[1..], b, c);
    }
    if a != b && a != "" && b != "" && a[0] == b[0] { assert a == [a[0]] + a[1..] && b == [b[0]] + b[1..]; }
  }

  ghost predicate Sorted(hosts: seq<string>) {
    forall i, j :: 0 <= i < j < |hosts| ==> LexLess(hosts[i], hosts[j])
  }

  /** The host ids acquire locks: those given, without the empty one. */
  ghost predicate PlanFor(hostIDs: seq<string>, hosts: seq<string>) {
    && Sorted(hosts)
    && forall h :: h in hosts <==> h in hostIDs && h != ""
  }

  /** Where h goes in a sorted list. */
  function InsertAt(h: string, hosts: seq<string>): (r: seq<string>)
    ensures multiset(r) == multiset(hosts) + multiset{h}
  {
    if hosts == [] || LexLess(h, hosts[0]) then [h] + hosts
    else
      assert hosts == [hosts[0]] + hosts[1..];
      [hosts[0]] + InsertAt(h, hosts[1..])
  }

  /** sort.Strings, given as insertion sort. */
  function SortStrings(hosts: seq<string>): (r: seq<string>)
    ensures multiset(r) == multiset(hosts)
  {
    if hosts == [] then []
    else
      assert hosts == [hosts[0]] + hosts[1..];
      InsertAt(hosts[0], SortStrings(hosts[1..]))
  }

  lemma {:induction false} InsertKeepsSorted(h: string, hosts: seq<string>)
    requires Sorted(hosts) && h !in hosts
    ensures Sorted(InsertAt(h, hosts))
  {
    if hosts != [] {
      LexOrder(h, hosts[0], h);
      if LexLess(h, hosts[0]) {
        forall j | 0 <= j < |hosts| ensures LexLess(h, hosts[j]) { LexOrder(h, hosts[0], hosts[j]); }
      } else {
        var rest := InsertAt(h, hosts[1..]);
        InsertKeepsSorted(h, hosts[1..]);
        forall j | 0 <= j < |rest| ensures LexLess(hosts[0], rest[j]) {
          assert rest[j] in multiset(rest);
          assert rest[j] in multiset(hosts[1..]) + multiset{h};
        }
      }
    }
  }

  ghost predicate Distinct(hosts: seq<string>) {
    forall i, j :: 0 <= i < j < |hosts| ==> hosts[i] != hosts[j]
  }

  lemma {:induction false} SortedDistinct(hosts: seq<string>)
    requires Distinct(hosts)
    ensures Sorted(SortStrings(hosts))
  {
    if hosts != [] {
      SortedDistinct(hosts[1..]);
      var rest := SortStrings(hosts[1..]);
      forall k | 0 <= k < |hosts[1..]| ensures hosts[1..][k] != hosts[0] {}
      assert hosts[0] !in multiset(hosts[1..]);
      InsertKeepsSorted(hosts[0], rest);
    }
  }

  /** The first part of acquire: drop duplicates and the empty id, then sort. */
  method UniqueSortedHosts(hostIDs: seq<string>) returns (hosts: seq<string>)
    ensures PlanFor(hostIDs, hosts)
  {
    var unique: seq<string>, seen := [], {};
    for i := 0 to |hostIDs|
      invariant Distinct(unique)
      invariant seen == (set h | h in unique)
      invariant forall h :: h in unique <==> h in hostIDs[..i] && h != ""
    {
      assert hostIDs[..i + 1] == hostIDs[..i] + [hostIDs[i]];
      if hostIDs[i] == "" || hostIDs[i] in seen {
        continue;
      }
      seen := seen + {hostIDs[i]};
      unique := unique + [hostIDs[i]];
    }
    assert hostIDs[..|hostIDs|] == hostIDs;
    SortedDistinct(unique);
    hosts := SortStrings(unique);
    assert forall h :: h in hosts <==> h in multiset(hosts);
    assert forall h :: h in unique <==> h in multiset(unique);
  }

  // ---------- callers and semaphores ----------

  datatype Resource = Global | Host(id: string)

  predicate Before(a: Resource, b: Resource) {
    match (a, b)
    case (Global, Host(_)) => true
    case (Host(x), Host(y)) => LexLess(x, y)
    case (_, Global) => false
  }

  lemma {:induction false} BeforeIsOrder(a: Resource, b: Resource, c: Resource)
    ensures !Before(a, a)
    ensures a != b ==> Before(a, b) || Before(b, a)
    ensures Before(a, b) && Before(b, c) ==> Before(a, c)
    ensures Before(a, b) ==> !Before(b, a)
  {
    if a.Host? && b.Host? {
      LexOrder(a.id, b.id, if c.Host? then c.id else "");
    } else if a.Host? {
      LexOrder(a.id, a.id, a.id);
    }
  }

  /** A caller inside acquire, holding plan[..held], or after it. Releasing and rolling
      back go through the plan in reverse. */
  datatype Caller =
    | Waiting(plan: seq<Resource>, held: nat)
    | Running(plan: seq<Resource>)
    | Releasing(plan: seq<Resource>, held: nat, cancelled: bool)
    | Finished(cancelled: bool)

  function Held(c: Caller): seq<Resource>
    requires ValidCaller(c)
  {
    match c
    case Waiting(plan, held) => plan[..held]
    case Running(plan) => plan
    case Releasing(plan, held, _) => plan[..held]
    case Finished(_) => []
  }

  predicate ValidCaller(c: Caller) {
    match c
    case Waiting(plan, held) => ValidPlan(plan) && held < |plan|
    case Running(plan) => ValidPlan(plan)
    case Releasing(plan, held, _) => ValidPlan(plan) && 0 < held <= |plan|
    case Finished(_) => true
  }

  predicate ValidPlan(plan: seq<Resource>) {
    && plan != [] && plan[0] == Global
    && forall i, j :: 0 <= i < j < |plan| ==> Before(plan[i], plan[j])
  }

  predicate Holds(c: Caller, r: Resource)
    requires ValidCaller(c)
  {
    r in Held(c)
  }

  /** New and acquire replace non-positive limits by 8 and 2. */
  datatype Limits = Limits(globalConcurrency: int, hostConcurrency: int)

  function Capacity(limits: Limits, r: Resource): (n: nat)
    ensures n > 0
  {
    match r
    case Global => if limits.globalConcurrency <= 0 then 8 else limits.globalConcurrency
    case Host(_) => if limits.hostConcurrency <= 0 then 2 else limits.hostConcurrency
  }

  /** Callers in order of arrival and the number of tokens in each semaphore. */
  datatype State = State(callers: seq<Caller>, tokens: map<Resource, nat>)

  const INITIAL: State := State([], map[Global := 0])

  datatype Event =
    | Arrive(hosts: seq<string>)
    | Take(caller: nat)      // the select receives the next slot
    | Cancel(caller: nat)    // the select receives ctx.Done
    | Finish(caller: nat)    // the operation ends and calls the release function
    | Give(caller: nat)      // one receive of the release or rollback loop

  function PlanOf(hosts: seq<string>): seq<Resource> {
    [Global] + seq(|hosts|, i requires 0 <= i < |hosts| => Host(hosts[i]))
  }

  predicate Enabled(limits: Limits, s: State, e: Event) {
    match e
    case Arrive(hosts) => forall i, j :: 0 <= i < j < |hosts| ==> LexLess(hosts[i], hosts[j])
    case Take(c) =>
      && c < |s.callers| && s.callers[c].Waiting? && s.callers[c].held < |s.callers[c].plan|
      && var r := s.callers[c].plan[s.callers[c].held]; r in s.tokens && s.tokens[r] < Capacity(limits, r)
    case Cancel(c) => c < |s.callers| && s.callers[c].Waiting?
    case Finish(c) => c < |s.callers| && s.callers[c].Running?
    case Give(c) =>
      && c < |s.callers| && s.callers[c].Releasing? && 0 < s.callers[c].held <= |s.callers[c].plan|
      && var r := s.callers[c].plan[s.callers[c].held - 1]; r in s.tokens && s.tokens[r] > 0
  }

  /** The caller once it holds plan[..held] and still goes forward. */
  function Forward(plan: seq<Resource>, held: nat): Caller {
    if held == |plan| then Running(plan) else Waiting(plan, held)
  }

  /** The caller once it holds plan[..held] and gives it back. */
  function Back(plan: seq<Resource>, held: nat, cancelled: bool): Caller {
    if held == 0 then Finished(cancelled) else Releasing(plan, held, cancelled)
  }

  function Apply(limits: Limits, s: State, e: Event): State
    requires Enabled(limits, s, e)
  {
    match e
    case Arrive(hosts) =>
      var created := map h | h in hosts && Host(h) !in s.tokens :: Host(h) := 0;
      State(s.callers + [Waiting(PlanOf(hosts), 0)], s.tokens + created)
    case Take(c) =>
      var Waiting(plan, held) := s.callers[c];
      State(s.callers[c := Forward(plan, held + 1)], s.tokens[plan[held] := s.tokens[plan[held]] + 1])
    case Cancel(c) =>
      var Waiting(plan, held) := s.callers[c];
      s.(callers := s.callers[c := Back(plan, held, true)])
    case Finish(c) => s.(callers := s.callers[c := Back(s.callers[c].plan, |s.callers[c].plan|, false)])
    case Give(c) =>
      var Releasing(plan, held, cancelled) := s.callers[c];
      var r := plan[held - 1];
      State(s.callers[c := Back(plan, held - 1, cancelled)], s.tokens[r := s.tokens[r] - 1])
  }

  /** New callers may always arrive, and a waiting one may be cancelled at any time and then
      gives back what it holds. */
  lemma {:induction false} AnythingMayArrive(limits: Limits, s: State, hosts: seq<string>, i: nat)
    requires i < |s.callers| && s.callers[i].Waiting?
    ensures Enabled(limits, s, Cancel(i))
    ensures var c, s' := s.callers[i], Apply(limits, s, Cancel(i));
      && s'.tokens == s.tokens && |s'.callers| == |s.callers|
      && s'.callers == s.callers[i := if c.held == 0 then Finished(true) else Releasing(c.plan, c.held, true)]
    ensures (forall j, k :: 0 <= j < k < |hosts| ==> LexLess(hosts[j], hosts[k])) <==> Enabled(limits, s, Arrive(hosts))
  {
  }

  // ---------- the invariant ----------

  ghost predicate ValidCallers(callers: seq<Caller>) { forall c <- callers :: ValidCaller(c) }

  /** How many callers hold a slot of r. */
  ghost function Holders(callers: seq<Caller>, r: Resource): nat
    requires ValidCallers(callers)
  {
    if callers == [] then 0
    else (if Holds(callers[|callers| - 1], r) then 1 else 0) + Holders(callers[..|callers| - 1], r)
  }

  ghost predicate Valid(limits: Limits, s: State) {
    && ValidCallers(s.callers)
    && Global in s.tokens
    && (forall c, r :: c in s.callers && !c.Finished? && r in c.plan ==> r in s.tokens)
    && (forall r :: r in s.tokens ==> s.tokens[r] == Holders(s.callers, r) <= Capacity(limits, r))
  }

  lemma {:induction false} HoldersUpdate(callers: seq<Caller>, i: nat, c: Caller, r: Resource)
    requires ValidCallers(callers) && i < |callers| && ValidCaller(c)
    ensures ValidCallers(callers[i := c])
    ensures Holders(callers[i := c], r)
            == Holders(callers, r) - (if Holds(callers[i], r) then 1 else 0) + (if Holds(c, r) then 1 else 0)
  {
    hide ValidCaller, Holds;
    var n := |callers| - 1;
    assert forall x :: x in callers[i := c] ==> x in callers || x == c;
    if i < n {
      HoldersUpdate(callers[..n], i, c, r);
      assert callers[i := c][..n] == callers[..n][i := c];
    } else {
      assert callers[i := c][..n] == callers[..n];
    }
  }

  lemma {:induction false} HolderCounts(callers: seq<Caller>, i: nat, r: Resource)
    requires ValidCallers(callers) && i < |callers| && Holds(callers[i], r)
    ensures Holders(callers, r) > 0
  {
    hide ValidCaller, Holds;
    var n := |callers| - 1;
    if i < n { HolderCounts(callers[..n], i, r); }
  }

  lemma {:induction false} SomeHolder(callers: seq<Caller>, r: Resource) returns (i: nat)
    requires ValidCallers(callers) && Holders(callers, r) > 0
    ensures i < |callers| && ValidCaller(callers[i]) && Holds(callers[i], r)
  {
    hide ValidCaller, Holds;
    var n := |callers| - 1;
    if Holds(callers[n], r) { i := n; } else { i := SomeHolder(callers[..n], r); }
  }

  /** The slot a caller takes or gives back. */
  function Moved(s: State, e: Event): Resource
    requires e.Take? || e.Give?
    requires e.caller < |s.callers|
    requires ValidCaller(s.callers[e.caller])
    requires e.Take? ==> s.callers[e.caller].Waiting?
    requires e.Give? ==> s.callers[e.caller].Releasing?
  {
    var c := s.callers[e.caller];
    if e.Take? then c.plan[c.held] else c.plan[c.held - 1]
  }

  lemma {:induction false} PlanTake(plan: seq<Resource>, k: nat, r: Resource)
    requires ValidPlan(plan) && k < |plan|
    ensures r in plan[..k + 1] <==> r in plan[..k] || r == plan[k]
    ensures plan[k] !in plan[..k]
  {
    assert plan[..k + 1] == plan[..k] + [plan[k]];
    forall j | 0 <= j < k ensures plan[..k][j] != plan[k] { BeforeIsOrder(plan[j], plan[k], plan[j]); }
  }

  lemma {:induction false} ForwardValid(plan: seq<Resource>, held: nat)
    requires ValidPlan(plan) && held <= |plan|
    ensures ValidCaller(Forward(plan, held)) && Held(Forward(plan, held)) == plan[..held]
    ensures forall cancelled :: ValidCaller(Back(plan, held, cancelled))
                                && Held(Back(plan, held, cancelled)) == plan[..held]
  {
    assert plan[..|plan|] == plan;
  }

  lemma {:induction false} CallerTakes(plan: seq<Resource>, held: nat, r: Resource)
    requires ValidPlan(plan) && held < |plan|
    ensures ValidCaller(Waiting(plan, held)) && ValidCaller(Forward(plan, held + 1))
    ensures !Holds(Waiting(plan, held), plan[held])
    ensures Holds(Forward(plan, held + 1), r) <==> Holds(Waiting(plan, held), r) || r == plan[held]
  {
    PlanTake(plan, held, r);
    ForwardValid(plan, held + 1);
    hide ValidPlan, Forward;
  }

  lemma {:induction false} CallerGives(plan: seq<Resource>, held: nat, cancelled: bool, r: Resource)
    requires ValidPlan(plan) && 0 < held <= |plan|
    ensures ValidCaller(Releasing(plan, held, cancelled)) && ValidCaller(Back(plan, held - 1, cancelled))
    ensures Holds(Releasing(plan, held, cancelled), plan[held - 1])
    ensures Holds(Back(plan, held - 1, cancelled), r) <==> Holds(Releasing(plan, held, cancelled), r) && r != plan[held - 1]
  {
    PlanTake(plan, held - 1, r);
    PlanTake(plan, held - 1, plan[held - 1]);
    ForwardValid(plan, held - 1);
    hide ValidPlan, Back;
  }

  lemma {:induction false} CallerTurns(plan: seq<Resource>, held: nat, cancelled: bool, r: Resource)
    requires ValidPlan(plan) && held <= |plan|
    ensures ValidCaller(Back(plan, held, cancelled)) && (Holds(Back(plan, held, cancelled), r) <==> r in plan[..held])
    ensures plan[..|plan|] == plan
  {
    ForwardValid(plan, held);
    hide ValidPlan, Back;
    assert plan[..|plan|] == plan;
  }

  lemma ValidAt(limits: Limits, s: State, e: Event)
    requires Valid(limits, s) && Enabled(limits, s, e) && !e.Arrive?
    ensures e.caller < |s.callers| && ValidCaller(s.callers[e.caller])
  {
    hide ValidCaller, Holders;
    assert s.callers[e.caller] in s.callers;
  }

  /** The caller after its event, and what it then holds of r. */
  ghost predicate CallerMoves(limits: Limits, s: State, e: Event, r: Resource)
    requires Enabled(limits, s, e) && !e.Arrive? && e.caller < |s.callers|
  {
    var before, after := s.callers[e.caller], Apply(limits, s, e).callers[e.caller];
    && ValidCaller(before) && ValidCaller(after)
    && Apply(limits, s, e).callers == s.callers[e.caller := after]
    && (e.Cancel? || e.Finish? ==> (Holds(after, r) <==> Holds(before, r)))
    && (e.Take? ==> !Holds(before, Moved(s, e)) && (Holds(after, r) <==> Holds(before, r) || r == Moved(s, e)))
    && (e.Give? ==> Holds(before, Moved(s, e)) && (Holds(after, r) <==> Holds(before, r) && r != Moved(s, e)))
  }

  lemma {:induction false} TakeMoves(limits: Limits, s: State, e: Event, r: Resource)
    requires Valid(limits, s) && Enabled(limits, s, e) && e.Take?
    ensures CallerMoves(limits, s, e, r)
  {
    ValidAt(limits, s, e);
    hide Valid, ValidPlan, Forward, Back, Capacity, Holds;
    var c := s.callers[e.caller];
    CallerTakes(c.plan, c.held, r);
  }

  lemma {:induction false} GiveMoves(limits: Limits, s: State, e: Event, r: Resource)
    requires Valid(limits, s) && Enabled(limits, s, e) && e.Give?
    ensures CallerMoves(limits, s, e, r)
  {
    ValidAt(limits, s, e);
    GiveApplies(limits, s, e);
    hide Valid, ValidPlan, Forward, Back, Capacity, Holds, Apply, Moved, Enabled;
    var c := s.callers[e.caller];
    CallerGives(c.plan, c.held, c.cancelled, r);
    assert c == Releasing(c.plan, c.held, c.cancelled);
  }

  lemma GiveApplies(limits: Limits, s: State, e: Event)
    requires Enabled(limits, s, e) && e.Give? && ValidCaller(s.callers[e.caller])
    ensures var c := s.callers[e.caller];
      && c.Releasing? && 0 < c.held <= |c.plan| && Moved(s, e) == c.plan[c.held - 1]
      && Apply(limits, s, e).callers == s.callers[e.caller := Back(c.plan, c.held - 1, c.cancelled)]
  {
    hide Back, Capacity;
  }

  lemma {:induction false} CancelMoves(limits: Limits, s: State, e: Event, r: Resource)
    requires Valid(limits, s) && Enabled(limits, s, e) && e.Cancel?
    ensures CallerMoves(limits, s, e, r)
  {
    ValidAt(limits, s, e);
    hide Valid, ValidPlan, Forward, Back, Capacity;
    var c := s.callers[e.caller];
    CallerTurns(c.plan, c.held, true, r);
  }

  lemma {:induction false} FinishMoves(limits: Limits, s: State, e: Event, r: Resource)
    requires Valid(limits, s) && Enabled(limits, s, e) && e.Finish?
    ensures CallerMoves(limits, s, e, r)
  {
    ValidAt(limits, s, e);
    hide Valid, ValidPlan, Forward, Back, Capacity;
    var c := s.callers[e.caller];
    CallerTurns(c.plan, |c.plan|, false, r);
  }

  lemma {:induction false} CallerAfter(limits: Limits, s: State, e: Event, r: Resource)
    requires Valid(limits, s) && Enabled(limits, s, e) && !e.Arrive?
    ensures CallerMoves(limits, s, e, r)
  {
    hide *;
    match e
    case Take(_) => TakeMoves(limits, s, e, r);
    case Give(_) => GiveMoves(limits, s, e, r);
    case Cancel(_) => CancelMoves(limits, s, e, r);
    case Finish(_) => FinishMoves(limits, s, e, r);
  }

  lemma {:induction false} TokensAfter(limits: Limits, s: State, e: Event, r: Resource)
    requires Valid(limits, s) && Enabled(limits, s, e) && !e.Arrive? && r in s.tokens
    ensures r in Apply(limits, s, e).tokens && ValidCallers(Apply(limits, s, e).callers)
    ensures Apply(limits, s, e).tokens[r] == Holders(Apply(limits, s, e).callers, r) <= Capacity(limits, r)
  {
    CallerAfter(limits, s, e, r);
    var after := Apply(limits, s, e);
    hide ValidCaller, Holds, Holders;
    HoldersUpdate(s.callers, e.caller, after.callers[e.caller], r);
  }

  lemma PlanKept(limits: Limits, s: State, e: Event)
    requires Valid(limits, s) && Enabled(limits, s, e) && !e.Arrive?
    ensures !s.callers[e.caller].Finished?
    ensures var after := Apply(limits, s, e).callers[e.caller];
            after.Finished? || after.plan == s.callers[e.caller].plan
    ensures Apply(limits, s, e).tokens.Keys == s.tokens.Keys
  {
  }

  lemma {:induction false} MoveKeepsValid(limits: Limits, s: State, e: Event)
    requires Valid(limits, s) && Enabled(limits, s, e) && !e.Arrive?
    ensures Valid(limits, Apply(limits, s, e))
  {
    CallerAfter(limits, s, e, Global);
    PlanKept(limits, s, e);
    var after := Apply(limits, s, e);
    forall r | r in after.tokens
      ensures ValidCallers(after.callers) && after.tokens[r] == Holders(after.callers, r) <= Capacity(limits, r)
    {
      TokensAfter(limits, s, e, r);
    }
    TokensAfter(limits, s, e, Global);
    hide Apply, Enabled, Holders, Holds, ValidCaller;
    forall c, r | c in after.callers && !c.Finished? && r in c.plan ensures r in after.tokens {
      assert c in s.callers || c == after.callers[e.caller];
      assert s.callers[e.caller] in s.callers;
    }
  }

  lemma {:induction false} NobodyHolds(callers: seq<Caller>, tokens: map<Resource, nat>, r: Resource)
    requires ValidCallers(callers) && r !in tokens
    requires forall c, x :: c in callers && !c.Finished? && x in c.plan ==> x in tokens
    ensures Holders(callers, r) == 0
  {
    if callers != [] {
      var n := |callers| - 1;
      NobodyHolds(callers[..n], tokens, r);
      var c := callers[n];
      if !c.Finished? { assert r !in c.plan; }
    }
  }

  lemma PlanOfValid(hosts: seq<string>)
    requires Sorted(hosts)
    ensures ValidPlan(PlanOf(hosts))
    ensures forall r :: r in PlanOf(hosts) ==> r == Global || (r.Host? && r.id in hosts)
  {
  }

  lemma {:induction false} ArriveKeepsValid(limits: Limits, s: State, hosts: seq<string>)
    requires Valid(limits, s) && Sorted(hosts)
    ensures Valid(limits, Apply(limits, s, Arrive(hosts)))
  {
    var after, c := Apply(limits, s, Arrive(hosts)), Waiting(PlanOf(hosts), 0);
    PlanOfValid(hosts);
    assert ValidCallers(after.callers);
    forall r | r in after.tokens ensures after.tokens[r] == Holders(after.callers, r) <= Capacity(limits, r) {
      assert after.callers[..|s.callers|] == s.callers;
      assert !Holds(c, r);
      if r !in s.tokens { NobodyHolds(s.callers, s.tokens, r); }
    }
    forall x, r | x in after.callers && !x.Finished? && r in x.plan ensures r in after.tokens {
      if x == c { assert r == Global || r.id in hosts; }
    }
  }

  /** Every step keeps each semaphore equal to the number of its holders and within
      its capacity. */
  lemma {:induction false} StepKeepsValid(limits: Limits, s: State, e: Event)
    requires Valid(limits, s) && Enabled(limits, s, e)
    ensures Valid(limits, Apply(limits, s, e))
  {
    if e.Arrive? { ArriveKeepsValid(limits, s, e.hosts); } else { MoveKeepsValid(limits, s, e); }
  }

  // ---------- runs ----------

  ghost predicate Possible(limits: Limits, s: State, events: seq<Event>)
    decreases |events|
  {
    events == [] || (Enabled(limits, s, events[0]) && Possible(limits, Apply(limits, s, events[0]), events[1..]))
  }

  ghost function After(limits: Limits, s: State, events: seq<Event>): State
    requires Possible(limits, s, events)
    decreases |events|
  {
    if events == [] then s else After(limits, Apply(limits, s, events[0]), events[1..])
  }

  lemma {:induction false} RunKeepsValid(limits: Limits, s: State, events: seq<Event>)
    requires Valid(limits, s) && Possible(limits, s, events)
    ensures Valid(limits, After(limits, s, events))
    decreases |events|
  {
    if events != [] {
      StepKeepsValid(limits, s, events[0]);
      RunKeepsValid(limits, Apply(limits, s, events[0]), events[1..]);
    }
  }

  /** In every reachable state each semaphore counts its holders, no capacity is
      exceeded, and a caller that has returned, cancelled or not, holds nothing. */
  lemma {:induction false} ReachableStates(limits: Limits, events: seq<Event>)
    requires Possible(limits, INITIAL, events)
    ensures var s := After(limits, INITIAL, events);
            && ValidCallers(s.callers)
            && (forall r :: r in s.tokens ==> s.tokens[r] == Holders(s.callers, r) <= Capacity(limits, r))
            && (forall c, r :: c in s.callers && c.Finished? ==> !Holds(c, r))
  {
    assert Valid(limits, INITIAL);
    RunKeepsValid(limits, INITIAL, events);
  }

  // ---------- a running caller has what it asked for ----------

  /** The hosts of the callers in order of arrival. */
  function Arrivals(events: seq<Event>): seq<seq<string>>
    decreases |events|
  {
    if events == [] then [] else (if events[0].Arrive? then [events[0].hosts] else []) + Arrivals(events[1..])
  }

  /** The caller goes for the global slot first and then for its hosts in order. */
  predicate GoesFor(c: Caller, hosts: seq<string>) {
    c.Finished?
    || (|c.plan| == |hosts| + 1 && c.plan[0] == Global && forall k :: 0 <= k < |hosts| ==> c.plan[k + 1] == Host(hosts[k]))
  }

  predicate AllGoFor(callers: seq<Caller>, arrivals: seq<seq<string>>) {
    |callers| == |arrivals| && forall i :: 0 <= i < |callers| ==> GoesFor(callers[i], arrivals[i])
  }

  lemma {:induction false} StepKeepsGoals(limits: Limits, s: State, e: Event, arrivals: seq<seq<string>>)
    requires Enabled(limits, s, e) && AllGoFor(s.callers, arrivals)
    ensures AllGoFor(Apply(limits, s, e).callers, arrivals + if e.Arrive? then [e.hosts] else [])
  {
    var after := Apply(limits, s, e);
    if e.Arrive? {
      assert GoesFor(Waiting(PlanOf(e.hosts), 0), e.hosts);
      hide GoesFor;
    } else {
      assert arrivals + [] == arrivals;
      assert GoesFor(after.callers[e.caller], arrivals[e.caller]) by { assert GoesFor(s.callers[e.caller], arrivals[e.caller]); }
      hide GoesFor;
    }
  }

  lemma {:induction false} RunKeepsGoals(limits: Limits, s: State, events: seq<Event>, arrivals: seq<seq<string>>)
    requires Possible(limits, s, events) && AllGoFor(s.callers, arrivals)
    ensures AllGoFor(After(limits, s, events).callers, arrivals + Arrivals(events))
    decreases |events|
  {
    hide Apply, Enabled, AllGoFor;
    if events == [] {
      assert arrivals + [] == arrivals;
    } else {
      var first := if events[0].Arrive? then [events[0].hosts] else [];
      StepKeepsGoals(limits, s, events[0], arrivals);
      RunKeepsGoals(limits, Apply(limits, s, events[0]), events[1..], arrivals + first);
      assert arrivals + first + Arrivals(events[1..]) == arrivals + (first + Arrivals(events[1..]));
    }
  }

  lemma {:induction false} GoalIsHeld(c: Caller, hosts: seq<string>, r: Resource)
    requires ValidCaller(c) && c.Running? && GoesFor(c, hosts)
    ensures Holds(c, r) <==> r == Global || (r.Host? && r.id in hosts)
  {
    if r.Host? && r.id in hosts {
      var k :| 0 <= k < |hosts| && hosts[k] == r.id;
      assert c.plan[k + 1] == r;
    }
    if r in c.plan {
      var k :| 0 <= k < |c.plan| && c.plan[k] == r;
      if k > 0 { assert c.plan[k - 1 + 1] == Host(hosts[k - 1]); }
    }
  }

  /** In every reachable state a caller whose operation runs holds the global slot, one slot of
      each host it arrived with, and no other. */
  lemma {:induction false} RunningHoldsItsHosts(limits: Limits, events: seq<Event>, i: nat, r: Resource)
    requires Possible(limits, INITIAL, events) && i < |After(limits, INITIAL, events).callers|
    ensures |Arrivals(events)| == |After(limits, INITIAL, events).callers|
    ensures var c := After(limits, INITIAL, events).callers[i];
      ValidCaller(c) && (c.Running? ==> (Holds(c, r) <==> r == Global || (r.Host? && r.id in Arrivals(events)[i])))
  {
    RunKeepsGoals(limits, INITIAL, events, []);
    assert [] + Arrivals(events) == Arrivals(events);
    ReachableStates(limits, events);
    var callers := After(limits, INITIAL, events).callers;
    assert callers[i] in callers;
    hide ValidCaller, Holds, Possible, After, GoesFor;
    if callers[i].Running? { GoalIsHeld(callers[i], Arrivals(events)[i], r); }
  }

  /** How many operations run that named the host. */
  function RunningOn(callers: seq<Caller>, arrivals: seq<seq<string>>, host: string): nat
    requires |callers| == |arrivals|
  {
    if callers == [] then 0
    else
      var n := |callers| - 1;
      (if callers[n].Running? && host in arrivals[n] then 1 else 0) + RunningOn(callers[..n], arrivals[..n], host)
  }

  lemma {:induction false} RunningIsHolding(callers: seq<Caller>, arrivals: seq<seq<string>>, host: string)
    requires ValidCallers(callers) && AllGoFor(callers, arrivals)
    ensures RunningOn(callers, arrivals, host) <= Holders(callers, Host(host))
  {
    hide ValidCaller, Holds, GoesFor;
    if callers != [] {
      var n := |callers| - 1;
      assert callers[n] in callers && forall c :: c in callers[..n] ==> c in callers;
      RunningIsHolding(callers[..n], arrivals[..n], host);
      if callers[n].Running? { GoalIsHeld(callers[n], arrivals[n], Host(host)); }
    }
  }

  lemma {:induction false} UnknownIsFree(limits: Limits, s: State, r: Resource)
    requires Valid(limits, s) && r !in s.tokens
    ensures Holders(s.callers, r) == 0
  {
    if Holders(s.callers, r) > 0 {
      var i := SomeHolder(s.callers, r);
    }
  }

  /** So no more operations run on a host at once than its configured number, two by default. */
  lemma {:induction false} HostIsNotOverrun(limits: Limits, events: seq<Event>, host: string)
    requires Possible(limits, INITIAL, events)
    ensures var s := After(limits, INITIAL, events);
      |Arrivals(events)| == |s.callers|
      && RunningOn(s.callers, Arrivals(events), host) <= if limits.hostConcurrency <= 0 then 2 else limits.hostConcurrency
  {
    RunKeepsGoals(limits, INITIAL, events, []);
    assert [] + Arrivals(events) == Arrivals(events);
    assert Valid(limits, INITIAL);
    RunKeepsValid(limits, INITIAL, events);
    var s := After(limits, INITIAL, events);
    assert Capacity(limits, Host(host)) == if limits.hostConcurrency <= 0 then 2 else limits.hostConcurrency;
    hide Possible, After, RunningOn, Holders, AllGoFor, ValidCaller;
    RunningIsHolding(s.callers, Arrivals(events), host);
    if Host(host) !in s.tokens { UnknownIsFree(limits, s, Host(host)); }
  }

  /** What a caller's state says about the steps it has made. */
  ghost predicate Honest(c: Caller, events: seq<Event>, i: nat) {
    match c
    case Waiting(_, _) => Cancel(i) !in events && Finish(i) !in events
    case Running(_) => Cancel(i) !in events && Finish(i) !in events
    case Releasing(_, _, cancelled) => (cancelled <==> Cancel(i) in events) && (!cancelled <==> Finish(i) in events)
    case Finished(cancelled) => (cancelled <==> Cancel(i) in events) && (!cancelled <==> Finish(i) in events)
  }

  lemma {:induction false} StepIsHonest(limits: Limits, s: State, events: seq<Event>, e: Event, i: nat)
    requires Valid(limits, s) && Enabled(limits, s, e) && i < |Apply(limits, s, e).callers|
    requires if i < |s.callers| then Honest(s.callers[i], events, i) else Cancel(i) !in events && Finish(i) !in events
    ensures Honest(Apply(limits, s, e).callers[i], events + [e], i)
  {
    assert forall d :: d in events + [e] <==> d in events || d == e;
    if !e.Arrive? { ValidAt(limits, s, e); }
    hide Valid, Capacity;
  }

  lemma {:induction false} LastStep(limits: Limits, s: State, events: seq<Event>)
    requires events != [] && Possible(limits, s, events)
    ensures var front, e := events[..|events| - 1], events[|events| - 1];
      Possible(limits, s, front) && Enabled(limits, After(limits, s, front), e)
      && After(limits, s, events) == Apply(limits, After(limits, s, front), e)
    decreases |events|
  {
    var front, e := events[..|events| - 1], events[|events| - 1];
    hide Enabled, Apply;
    if |events| == 1 {
      assert events == [e];
      assert Possible(limits, Apply(limits, s, e), events[1..]);
    } else {
      LastStep(limits, Apply(limits, s, events[0]), events[1..]);
      assert events[1..][..|events| - 2] == front[1..];
    }
  }

  lemma CallersStay(limits: Limits, s: State, e: Event)
    requires Enabled(limits, s, e)
    ensures |s.callers| <= |Apply(limits, s, e).callers|
    ensures !e.Arrive? ==> e.caller < |s.callers|
  {
  }

  lemma Snoc(events: seq<Event>)
    requires events != []
    ensures events == events[..|events| - 1] + [events[|events| - 1]]
    ensures forall d :: d in events <==> d in events[..|events| - 1] || d == events[|events| - 1]
  {
  }

  lemma {:induction false} EveryoneIsHonest(limits: Limits, events: seq<Event>, i: nat)
    requires Possible(limits, INITIAL, events)
    ensures var callers := After(limits, INITIAL, events).callers;
      if i < |callers| then Honest(callers[i], events, i) else Cancel(i) !in events && Finish(i) !in events
    decreases |events|
  {
    if events != [] {
      assert Valid(limits, INITIAL);
      hide *;
      var front, e := events[..|events| - 1], events[|events| - 1];
      LastStep(limits, INITIAL, events);
      EveryoneIsHonest(limits, front, i);
      RunKeepsValid(limits, INITIAL, front);
      CallersStay(limits, After(limits, INITIAL, front), e);
      Snoc(events);
      if i < |After(limits, INITIAL, events).callers| { StepIsHonest(limits, After(limits, INITIAL, front), front, e, i); }
    }
  }

  /** A caller that has returned reports cancellation exactly if its wait was cancelled, and
      otherwise its operation has run to its end; it never does both. */
  lemma {:induction false} OutcomeIsHonest(limits: Limits, events: seq<Event>, i: nat)
    requires Possible(limits, INITIAL, events) && i < |After(limits, INITIAL, events).callers|
    requires After(limits, INITIAL, events).callers[i].Finished?
    ensures After(limits, INITIAL, events).callers[i].cancelled <==> Cancel(i) in events
    ensures !After(limits, INITIAL, events).callers[i].cancelled <==> Finish(i) in events
  {
    EveryoneIsHonest(limits, events, i);
    hide Possible, After;
  }

  function RunningAnywhere(callers: seq<Caller>): nat {
    if callers == [] then 0
    else (if callers[|callers| - 1].Running? then 1 else 0) + RunningAnywhere(callers[..|callers| - 1])
  }

  lemma {:induction false} RunningHoldsGlobal(callers: seq<Caller>)
    requires ValidCallers(callers)
    ensures RunningAnywhere(callers) <= Holders(callers, Global)
  {
    if callers != [] {
      assert callers[|callers| - 1] in callers && forall c :: c in callers[..|callers| - 1] ==> c in callers;
      RunningHoldsGlobal(callers[..|callers| - 1]);
    }
  }

  /** Nor more operations in all than the global number, eight by default. */
  lemma {:induction false} ServiceIsNotOverrun(limits: Limits, events: seq<Event>)
    requires Possible(limits, INITIAL, events)
    ensures RunningAnywhere(After(limits, INITIAL, events).callers)
         <= if limits.globalConcurrency <= 0 then 8 else limits.globalConcurrency
  {
    assert Valid(limits, INITIAL);
    RunKeepsValid(limits, INITIAL, events);
    var s := After(limits, INITIAL, events);
    assert Capacity(limits, Global) == if limits.globalConcurrency <= 0 then 8 else limits.globalConcurrency;
    hide Possible, After, Holders, RunningAnywhere;
    RunningHoldsGlobal(s.callers);
  }

  // ---------- no deadlock ----------

  predicate Progress(e: Event) { e.Take? || e.Finish? || e.Give? }

  /** Index of a waiting caller whose wanted slot no other wanted slot follows. */
  lemma {:induction false} LastWanted(callers: seq<Caller>) returns (m: nat)
    requires callers != [] && ValidCallers(callers)
    requires exists c :: c in callers && c.Waiting?
    ensures m < |callers| && callers[m].Waiting? && ValidCaller(callers[m])
    ensures forall i :: 0 <= i < |callers| && callers[i].Waiting? ==>
              ValidCaller(callers[i]) && !Before(callers[m].plan[callers[m].held], callers[i].plan[callers[i].held])
  {
    hide ValidPlan, Before;
    var n := |callers| - 1;
    var last := callers[n];
    var rest := callers[..n];
    if !(exists c :: c in rest && c.Waiting?) {
      m := n;
      assert forall i :: 0 <= i < n ==> callers[i] in rest;
      assert last.Waiting?;
      BeforeIsOrder(last.plan[last.held], last.plan[last.held], last.plan[last.held]);
    } else {
      m := LastWanted(rest);
      if last.Waiting? {
        var a, b := rest[m].plan[rest[m].held], last.plan[last.held];
        BeforeIsOrder(b, b, b);
        if Before(a, b) {
          forall i | 0 <= i < n && callers[i].Waiting?
            ensures !Before(b, callers[i].plan[callers[i].held])
          {
            assert callers[i] == rest[i];
            BeforeIsOrder(a, b, rest[i].plan[rest[i].held]);
          }
          m := n;
        }
      }
    }
  }

  /** Whoever holds a slot and waits, waits for a later one. */
  lemma {:induction false} HolderWantsLater(c: Caller, r: Resource)
    requires ValidCaller(c) && c.Waiting? && Holds(c, r)
    ensures Before(r, c.plan[c.held])
  {
    var j :| 0 <= j < c.held && c.plan[..c.held][j] == r;
    assert c.plan[j] == r;
  }

  /** As long as some caller has not returned, a step other than an arrival or a
      cancellation is possible: acquiring never deadlocks if running operations end. */
  lemma {:induction false} NoDeadlock(limits: Limits, s: State)
    requires Valid(limits, s) && exists c :: c in s.callers && !c.Finished?
    ensures exists e :: Progress(e) && Enabled(limits, s, e)
  {
    if i :| 0 <= i < |s.callers| && s.callers[i].Running? {
      assert Enabled(limits, s, Finish(i));
    } else if i :| 0 <= i < |s.callers| && s.callers[i].Releasing? {
      HeldIsCounted(limits, s, i);
      assert Enabled(limits, s, Give(i));
    } else {
      var c :| c in s.callers && !c.Finished?;
      assert c.Waiting?;
      var m := LastWanted(s.callers);
      WantedIsFree(limits, s, m);
      assert Enabled(limits, s, Take(m));
    }
  }

  lemma {:induction false} HeldIsCounted(limits: Limits, s: State, i: nat)
    requires Valid(limits, s) && i < |s.callers| && s.callers[i].Releasing?
    ensures var c := s.callers[i];
            && 0 < c.held <= |c.plan| && c.plan[c.held - 1] in s.tokens && s.tokens[c.plan[c.held - 1]] > 0
  {
    var c := s.callers[i];
    assert c in s.callers;
    assert c.plan[..c.held][c.held - 1] == c.plan[c.held - 1];
    HolderCounts(s.callers, i, c.plan[c.held - 1]);
  }

  lemma {:induction false} WantedIsFree(limits: Limits, s: State, m: nat)
    requires Valid(limits, s) && m < |s.callers| && s.callers[m].Waiting? && ValidCaller(s.callers[m])
    requires forall c <- s.callers :: c.Waiting? || c.Finished?
    requires forall i :: 0 <= i < |s.callers| && s.callers[i].Waiting? ==>
               ValidCaller(s.callers[i])
               && !Before(s.callers[m].plan[s.callers[m].held], s.callers[i].plan[s.callers[i].held])
    ensures var r := s.callers[m].plan[s.callers[m].held]; r in s.tokens && s.tokens[r] < Capacity(limits, r)
  {
    var c := s.callers[m];
    var r := c.plan[c.held];
    assert c in s.callers && r in c.plan;
    if s.tokens[r] > 0 {
      hide ValidPlan, Before;
      var d := SomeHolder(s.callers, r);
      assert s.callers[d] in s.callers;
      HolderWantsLater(s.callers[d], r);
    }
  }

  // ---------- every caller can return ----------

  /** Steps a caller still needs, at most. */
  function Work(c: Caller): nat {
    match c
    case Waiting(plan, held) => 2 * |plan| + 1 + (if held <= |plan| then |plan| - held else 0)
    case Running(plan) => 2 * |plan|
    case Releasing(plan, held, _) => held
    case Finished(_) => 0
  }

  function TotalWork(callers: seq<Caller>): nat {
    if callers == [] then 0 else Work(callers[|callers| - 1]) + TotalWork(callers[..|callers| - 1])
  }

  lemma {:induction false} WorkUpdate(callers: seq<Caller>, i: nat, c: Caller)
    requires i < |callers|
    ensures TotalWork(callers[i := c]) == TotalWork(callers) - Work(callers[i]) + Work(c)
  {
    hide Work;
    var n := |callers| - 1;
    if i < n {
      WorkUpdate(callers[..n], i, c);
      assert callers[i := c][..n] == callers[..n][i := c];
    } else {
      assert callers[i := c][..n] == callers[..n];
    }
  }

  /** Every step but an arrival uses up work, so there is no livelock either. */
  lemma {:induction false} StepUsesWork(limits: Limits, s: State, e: Event)
    requires Valid(limits, s) && Enabled(limits, s, e) && !e.Arrive?
    ensures TotalWork(Apply(limits, s, e).callers) < TotalWork(s.callers)
    ensures |Apply(limits, s, e).callers| == |s.callers|
  {
    var before, after := s.callers[e.caller], Apply(limits, s, e).callers[e.caller];
    assert before in s.callers;
    WorkUpdate(s.callers, e.caller, after);
  }

  lemma {:induction false} FinishedHoldNothing(callers: seq<Caller>, r: Resource)
    requires ValidCallers(callers) && forall c <- callers :: c.Finished?
    ensures Holders(callers, r) == 0
  {
    if callers != [] {
      assert callers[|callers| - 1] in callers;
      FinishedHoldNothing(callers[..|callers| - 1], r);
    }
  }

  /** No schedule can go on for ever without new callers. */
  lemma {:induction false} RunsAreBounded(limits: Limits, s: State, events: seq<Event>)
    requires Valid(limits, s) && Possible(limits, s, events) && forall e <- events :: !e.Arrive?
    ensures |events| <= TotalWork(s.callers)
    decreases |events|
  {
    if events != [] {
      StepKeepsValid(limits, s, events[0]);
      StepUsesWork(limits, s, events[0]);
      RunsAreBounded(limits, Apply(limits, s, events[0]), events[1..]);
    }
  }

  /** From every reachable state, some continuation without new callers and without
      cancellations lets every caller return and empties every semaphore. */
  lemma {:induction false} EveryoneCanReturn(limits: Limits, s: State) returns (events: seq<Event>)
    requires Valid(limits, s)
    ensures (forall e <- events :: Progress(e)) && Possible(limits, s, events)
    ensures var end := After(limits, s, events);
            && |end.callers| == |s.callers| && (forall c <- end.callers :: c.Finished?)
            && forall r :: r in end.tokens ==> end.tokens[r] == 0
    decreases TotalWork(s.callers)
  {
    if forall c <- s.callers :: c.Finished? {
      events := [];
      forall r | r in s.tokens ensures s.tokens[r] == 0 {
        FinishedHoldNothing(s.callers, r);
      }
    } else {
      NoDeadlock(limits, s);
      var e :| Progress(e) && Enabled(limits, s, e);
      StepKeepsValid(limits, s, e);
      StepUsesWork(limits, s, e);
      var rest := EveryoneCanReturn(limits, Apply(limits, s, e));
      events := [e] + rest;
      assert events[1..] == rest;
    }
  }
}
