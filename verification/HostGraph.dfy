/** The graph of hosts, ProxyJump references and proxies: the check made when a
    configuration is imported, and the resolver that later walks the same graph. */
module HostGraph {
  import opened Wrappers

  const MAX_JUMPS: nat := 4

  datatype Host = Host(id: string, name: string, jump: string, proxy: string)

  datatype Proxy = Proxy(id: string, name: string, url: string)

  datatype Problem = BadProxy | TooDeep | MissingHost | Cycle

  /** Everything the walk looks at; compatible is sshx.NormalizeProxyURL succeeding. */
  datatype Graph = Graph(hosts: map<string, Host>, proxies: map<string, Proxy>, compatible: string -> bool)

  predicate Keyed(g: Graph) { forall id :: id in g.hosts ==> g.hosts[id].id == id }

  predicate ProxyOk(g: Graph, h: Host) {
    h.proxy == "" || (h.proxy in g.proxies && g.compatible(g.proxies[h.proxy].url))
  }

  // ---------- the resolver ----------

  /** The store's GetHost. */
  type Lookup = string -> Option<Host>

  function ById(hosts: map<string, Host>): Lookup {
    key => if key in hosts then Some(hosts[key]) else None
  }

  /** The jumps beyond a host, nearest first. */
  function Walk(g: Graph, get: Lookup, current: Host, seen: set<string>, depth: nat): Result<seq<Host>, Problem>
    decreases MAX_JUMPS - depth
  {
    if current.jump == "" then Ok([])
    else if depth >= MAX_JUMPS then Err(TooDeep)
    else if get(current.jump).None? then Err(MissingHost)
    else
      var jump := get(current.jump).value;
      if jump.id in seen then Err(Cycle)
      else if !ProxyOk(g, jump) then Err(BadProxy)
      else
        var rest := Walk(g, get, jump, seen + {jump.id}, depth + 1);
        if rest.Ok? then Ok([jump] + rest.value) else rest
  }

  function Resolve(g: Graph, get: Lookup, target: Host): Result<seq<Host>, Problem> {
    if ProxyOk(g, target) then Walk(g, get, target, {target.id}, 0) else Err(BadProxy)
  }

  /** resolveSSHConnection: the jumps are returned farthest first. */
  method ResolveSSHConnection(g: Graph, get: Lookup, target: Host) returns (result: Result<seq<Host>, Problem>)
    ensures match Resolve(g, get, target)
      case Ok(jumps) =>
        && result.Ok? && |result.value| == |jumps|
        && forall k :: 0 <= k < |jumps| ==> result.value[k] == jumps[|jumps| - 1 - k]
      case Err(problem) => result == Err(problem)
  {
    if !ProxyOk(g, target) { return Err(BadProxy); }
    var seen := {target.id};
    var current := target;
    var nearestFirst: seq<Host> := [];
    PrependNothing(Walk(g, get, current, seen, 0));
    while current.jump != ""
      invariant |nearestFirst| <= MAX_JUMPS
      invariant Resolve(g, get, target)
             == Prepend(nearestFirst, Walk(g, get, current, seen, |nearestFirst|))
      decreases MAX_JUMPS - |nearestFirst|
    {
      if |nearestFirst| >= MAX_JUMPS { return Err(TooDeep); }
      var found := get(current.jump);
      if found.None? { return Err(MissingHost); }
      var jump := found.value;
      if jump.id in seen { return Err(Cycle); }
      if !ProxyOk(g, jump) { return Err(BadProxy); }
      PrependTwice(nearestFirst, jump, Walk(g, get, jump, seen + {jump.id}, |nearestFirst| + 1));
      seen := seen + {jump.id};
      nearestFirst := nearestFirst + [jump];
      current := jump;
    }
    assert nearestFirst + [] == nearestFirst;
    var jumps := FarthestFirst(nearestFirst);
    result := Ok(jumps);
  }

  function Prepend(front: seq<Host>, rest: Result<seq<Host>, Problem>): Result<seq<Host>, Problem> {
    if rest.Ok? then Ok(front + rest.value) else rest
  }

  lemma {:induction false} PrependNothing(rest: Result<seq<Host>, Problem>)
    ensures Prepend([], rest) == rest
  {
    if rest.Ok? { assert [] + rest.value == rest.value; }
  }

  lemma {:induction false} PrependTwice(front: seq<Host>, jump: Host, rest: Result<seq<Host>, Problem>)
    ensures Prepend(front, if rest.Ok? then Ok([jump] + rest.value) else rest) == Prepend(front + [jump], rest)
  {
    if rest.Ok? { assert front + ([jump] + rest.value) == front + [jump] + rest.value; }
  }

  method FarthestFirst(nearestFirst: seq<Host>) returns (jumps: seq<Host>)
    ensures |jumps| == |nearestFirst|
    ensures forall k :: 0 <= k < |jumps| ==> jumps[k] == nearestFirst[|nearestFirst| - 1 - k]
  {
    jumps := [];
    for index := |nearestFirst| downto 0
      invariant |jumps| == |nearestFirst| - index
      invariant forall k :: 0 <= k < |jumps| ==> jumps[k] == nearestFirst[|nearestFirst| - 1 - k]
    {
      jumps := jumps + [nearestFirst[index]];
    }
  }

  // ---------- what a successful resolution is ----------

  function Previous(target: Host, jumps: seq<Host>, k: nat): Host
    requires k <= |jumps|
  {
    if k == 0 then target else jumps[k - 1]
  }

  /** Jump k is the host its predecessor names, with a usable proxy, and was not seen before. */
  predicate Linked(g: Graph, get: Lookup, target: Host, jumps: seq<Host>, seen: set<string>, k: nat)
    requires k < |jumps|
  {
    && Previous(target, jumps, k).jump != ""
    && get(Previous(target, jumps, k).jump) == Some(jumps[k])
    && ProxyOk(g, jumps[k])
    && jumps[k].id !in seen
  }

  /** A complete route to the target: every host reaches the next one named by its jump
      reference, the last needs no jump, no host is passed twice, every proxy is usable. */
  ghost predicate Route(g: Graph, get: Lookup, target: Host, jumps: seq<Host>, seen: set<string>, limit: nat) {
    && |jumps| <= limit
    && Previous(target, jumps, |jumps|).jump == ""
    && (forall k :: 0 <= k < |jumps| ==> Linked(g, get, target, jumps, seen, k))
    && (forall j, k :: 0 <= j < k < |jumps| ==> jumps[j].id != jumps[k].id)
  }

  lemma LinkedShifts(g: Graph, get: Lookup, target: Host, jump: Host, rest: seq<Host>, seen: set<string>, k: nat)
    requires k < |rest|
    ensures Linked(g, get, target, [jump] + rest, seen, k + 1) && rest[k].id != jump.id
      <==> Linked(g, get, jump, rest, seen + {jump.id}, k)
  {
  }

  lemma ConsAt<T>(x: T, s: seq<T>, k: nat)
    requires k <= |s|
    ensures |[x] + s| == |s| + 1 && ([x] + s)[k] == if k == 0 then x else s[k - 1]
  {
  }

  lemma {:induction false} RouteUnfolds(g: Graph, get: Lookup, target: Host, jump: Host, rest: seq<Host>, seen: set<string>, limit: nat)
    requires limit > 0 && Linked(g, get, target, [jump] + rest, seen, 0)
    requires Route(g, get, jump, rest, seen + {jump.id}, limit - 1)
    ensures Route(g, get, target, [jump] + rest, seen, limit)
  {
    hide Linked;
    var jumps := [jump] + rest;
    ConsAt(jump, rest, |rest|);
    forall k | 0 <= k < |jumps| ensures Linked(g, get, target, jumps, seen, k) {
      if k > 0 { LinkBehind(g, get, target, jump, rest, seen, limit, k); }
    }
    forall j, k | 0 <= j < k < |jumps| ensures jumps[j].id != jumps[k].id {
      ConsAt(jump, rest, j);
      ConsAt(jump, rest, k);
      if j == 0 {
        LinkBehind(g, get, target, jump, rest, seen, limit, k);
      } else {
        assert rest[j - 1].id != rest[k - 1].id;
      }
    }
  }

  lemma {:induction false} LinkBehind(g: Graph, get: Lookup, target: Host, jump: Host, rest: seq<Host>, seen: set<string>, limit: nat, k: nat)
    requires limit > 0 && Route(g, get, jump, rest, seen + {jump.id}, limit - 1) && 0 < k <= |rest|
    ensures Linked(g, get, target, [jump] + rest, seen, k) && rest[k - 1].id != jump.id
  {
    assert Linked(g, get, jump, rest, seen + {jump.id}, k - 1);
    hide Linked;
    LinkedShifts(g, get, target, jump, rest, seen, k - 1);
  }

  lemma {:induction false} RouteFolds(g: Graph, get: Lookup, target: Host, jump: Host, rest: seq<Host>, seen: set<string>, limit: nat)
    requires Route(g, get, target, [jump] + rest, seen, limit)
    ensures limit > 0 && Linked(g, get, target, [jump] + rest, seen, 0)
    ensures Route(g, get, jump, rest, seen + {jump.id}, limit - 1)
  {
    var jumps := [jump] + rest;
    hide Linked;
    forall k | 0 <= k < |rest| ensures Linked(g, get, jump, rest, seen + {jump.id}, k) {
      assert jumps[0].id != jumps[k + 1].id;
      LinkedShifts(g, get, target, jump, rest, seen, k);
    }
    forall j, k | 0 <= j < k < |rest| ensures rest[j].id != rest[k].id {
      assert jumps[j + 1].id != jumps[k + 1].id;
    }
  }

  lemma {:induction false} WalkIsRoute(g: Graph, get: Lookup, current: Host, seen: set<string>, depth: nat)
    requires depth <= MAX_JUMPS && Walk(g, get, current, seen, depth).Ok?
    ensures Route(g, get, current, Walk(g, get, current, seen, depth).value, seen, MAX_JUMPS - depth)
    decreases MAX_JUMPS - depth
  {
    if current.jump != "" {
      var jump := get(current.jump).value;
      hide Route, ProxyOk;
      WalkIsRoute(g, get, jump, seen + {jump.id}, depth + 1);
      var rest := Walk(g, get, jump, seen + {jump.id}, depth + 1).value;
      assert Walk(g, get, current, seen, depth).value == [jump] + rest;
      RouteUnfolds(g, get, current, jump, rest, seen, MAX_JUMPS - depth);
    }
  }

  lemma {:induction false} RouteIsWalked(g: Graph, get: Lookup, current: Host, jumps: seq<Host>, seen: set<string>, depth: nat)
    requires depth <= MAX_JUMPS && Route(g, get, current, jumps, seen, MAX_JUMPS - depth)
    ensures Walk(g, get, current, seen, depth) == Ok(jumps)
    decreases |jumps|
  {
    if jumps != [] {
      hide Route, ProxyOk;
      var jump, rest := jumps[0], jumps[1..];
      assert jumps == [jump] + rest;
      RouteFolds(g, get, current, jump, rest, seen, MAX_JUMPS - depth);
      RouteIsWalked(g, get, jump, rest, seen + {jump.id}, depth + 1);
    }
  }

  /** The resolver succeeds exactly when there is a route of at most four jumps, and returns it. */
  lemma {:induction false} ResolvesExactlyRoutes(g: Graph, get: Lookup, target: Host, jumps: seq<Host>)
    ensures Resolve(g, get, target) == Ok(jumps) <==>
      ProxyOk(g, target) && Route(g, get, target, jumps, {target.id}, MAX_JUMPS)
  {
    hide Walk, Route, ProxyOk;
    if Resolve(g, get, target) == Ok(jumps) { WalkIsRoute(g, get, target, {target.id}, 0); }
    if Route(g, get, target, jumps, {target.id}, MAX_JUMPS) { RouteIsWalked(g, get, target, jumps, {target.id}, 0); }
  }

  // ---------- the import check ----------

  datatype Imported = Imported(hosts: set<string>, proxies: set<string>)

  /** The inner loop of validateConfigurationHostGraph, from one host on. */
  function Check(g: Graph, imported: Imported, current: Host, seen: set<string>, depth: nat, affected: bool): Option<Problem>
    decreases MAX_JUMPS - depth
  {
    if current.proxy != "" && (affected || current.proxy in imported.proxies) && !ProxyOk(g, current) then Some(BadProxy)
    else if current.jump == "" then None
    else if depth >= MAX_JUMPS then if affected then Some(TooDeep) else None
    else if current.jump !in g.hosts then if affected then Some(MissingHost) else None
    else
      var jump := g.hosts[current.jump];
      var affected' := affected || jump.id in imported.hosts;
      if jump.id in seen then if affected' then Some(Cycle) else None
      else Check(g, imported, jump, seen + {jump.id}, depth + 1, affected')
  }

  function CheckHost(g: Graph, imported: Imported, h: Host): Option<Problem> {
    Check(g, imported, h, {h.id}, 0, h.id in imported.hosts)
  }

  method ValidateHost(g: Graph, imported: Imported, host: Host) returns (problem: Option<Problem>)
    ensures problem == CheckHost(g, imported, host)
  {
    var affected := host.id in imported.hosts;
    var seen := {host.id};
    var current := host;
    var depth := 0;
    while true
      invariant depth <= MAX_JUMPS
      invariant CheckHost(g, imported, host) == Check(g, imported, current, seen, depth, affected)
      decreases MAX_JUMPS - depth
    {
      if current.proxy != "" && (affected || current.proxy in imported.proxies) {
        if current.proxy !in g.proxies { return Some(BadProxy); }
        if !g.compatible(g.proxies[current.proxy].url) { return Some(BadProxy); }
      }
      if current.jump == "" { return None; }
      if depth >= MAX_JUMPS { return if affected then Some(TooDeep) else None; }
      if current.jump !in g.hosts { return if affected then Some(MissingHost) else None; }
      var jump := g.hosts[current.jump];
      if jump.id in imported.hosts { affected := true; }
      if jump.id in seen { return if affected then Some(Cycle) else None; }
      seen := seen + {jump.id};
      current := jump;
      depth := depth + 1;
    }
  }

  /** The hosts come in the arbitrary order of a Go map. */
  method ValidateConfigurationHostGraph(g: Graph, imported: Imported) returns (problem: Option<(string, Problem)>)
    ensures problem.None? <==> forall id :: id in g.hosts ==> CheckHost(g, imported, g.hosts[id]).None?
    ensures problem.Some? ==>
      problem.value.0 in g.hosts && CheckHost(g, imported, g.hosts[problem.value.0]) == Some(problem.value.1)
  {
    hide CheckHost;
    var todo := g.hosts.Keys;
    while todo != {}
      invariant todo <= g.hosts.Keys
      invariant forall id :: id in g.hosts && id !in todo ==> CheckHost(g, imported, g.hosts[id]).None?
    {
      var id :| id in todo;
      var found := ValidateHost(g, imported, g.hosts[id]);
      if found.Some? { return Some((id, found.value)); }
      todo := todo - {id};
    }
    problem := None;
  }

  // ---------- the check against the resolver ----------

  predicate Resolves(g: Graph, h: Host) { Resolve(g, ById(g.hosts), h).Ok? }

  /** From an affected host on, the check finds what the resolver would run into. */
  lemma {:induction false} AffectedCheckIsResolution(g: Graph, imported: Imported, current: Host, seen: set<string>, depth: nat)
    requires Keyed(g) && depth <= MAX_JUMPS
    ensures Check(g, imported, current, seen, depth, true)
         == if !ProxyOk(g, current) then Some(BadProxy)
            else match Walk(g, ById(g.hosts), current, seen, depth) case Ok(_) => None case Err(problem) => Some(problem)
    decreases MAX_JUMPS - depth
  {
    if current.jump in g.hosts && depth < MAX_JUMPS {
      var jump := g.hosts[current.jump];
      AffectedCheckIsResolution(g, imported, jump, seen + {jump.id}, depth + 1);
    }
  }

  /** For an imported host the check reports exactly the resolver's outcome. */
  lemma {:induction false} ImportedHostsAreCheckedExactly(g: Graph, imported: Imported, h: Host)
    requires Keyed(g) && h.id in imported.hosts
    ensures CheckHost(g, imported, h)
         == match Resolve(g, ById(g.hosts), h) case Ok(_) => None case Err(problem) => Some(problem)
  {
    hide Check, Walk, ProxyOk;
    AffectedCheckIsResolution(g, imported, h, {h.id}, 0);
  }

  /** A host whose jumps stay among hosts that are not imported and use no imported proxy is
      never refused, whatever is wrong with it. */
  lemma {:induction false} UntouchedHostsPass(g: Graph, imported: Imported, h: Host, near: set<string>)
    requires Keyed(g) && h.id !in imported.hosts && h.proxy !in imported.proxies && near !! imported.hosts
    requires h.jump == "" || h.jump in near
    requires forall id :: id in near && id in g.hosts ==>
      g.hosts[id].proxy !in imported.proxies && (g.hosts[id].jump == "" || g.hosts[id].jump in near)
    ensures CheckHost(g, imported, h) == None
  {
    hide Check, ProxyOk;
    UntouchedWalkPasses(g, imported, h, {h.id}, 0, near);
  }

  lemma {:induction false} UntouchedWalkPasses(g: Graph, imported: Imported, current: Host, seen: set<string>, depth: nat, near: set<string>)
    requires Keyed(g) && current.proxy !in imported.proxies && near !! imported.hosts
    requires current.jump == "" || current.jump in near
    requires forall id :: id in near && id in g.hosts ==>
      g.hosts[id].proxy !in imported.proxies && (g.hosts[id].jump == "" || g.hosts[id].jump in near)
    ensures Check(g, imported, current, seen, depth, false) == None
    decreases MAX_JUMPS - depth
  {
    hide ProxyOk;
    if current.jump != "" && current.jump in g.hosts && depth < MAX_JUMPS {
      var jump := g.hosts[current.jump];
      assert jump.id in near && jump.id !in imported.hosts;
      UntouchedWalkPasses(g, imported, jump, seen + {jump.id}, depth + 1, near);
    }
  }

  /** No host that resolves is ever refused. */
  lemma {:induction false} ResolvingWalkPasses(g: Graph, imported: Imported, current: Host, seen: set<string>, depth: nat, affected: bool)
    requires depth <= MAX_JUMPS && ProxyOk(g, current) && Walk(g, ById(g.hosts), current, seen, depth).Ok?
    ensures Check(g, imported, current, seen, depth, affected).None?
    decreases MAX_JUMPS - depth
  {
    if current.jump != "" {
      var jump := g.hosts[current.jump];
      ResolvingWalkPasses(g, imported, jump, seen + {jump.id}, depth + 1, affected || jump.id in imported.hosts);
    }
  }

  /** The graph after the import: imported entries replace or join the existing ones. */
  ghost predicate Extends(before: Graph, after: Graph, imported: Imported) {
    && after.compatible == before.compatible
    && before.hosts.Keys <= after.hosts.Keys
    && before.proxies.Keys <= after.proxies.Keys
    && (forall id :: id in after.hosts && id !in imported.hosts ==> id in before.hosts && after.hosts[id] == before.hosts[id])
    && (forall id :: id in after.proxies && id !in imported.proxies ==>
          id in before.proxies && after.proxies[id] == before.proxies[id])
  }

  lemma ProxyStaysOk(before: Graph, after: Graph, imported: Imported, h: Host)
    requires Extends(before, after, imported) && ProxyOk(before, h)
    requires h.proxy in imported.proxies ==> ProxyOk(after, h)
    ensures ProxyOk(after, h)
  {
  }

  /** A walk that worked before either stays as it was or meets an imported host, from where
      the check has followed it to the end. */
  lemma {:induction false} PassedWalkStillWorks(before: Graph, after: Graph, imported: Imported, current: Host,
                                                seen: set<string>, depth: nat)
    requires Extends(before, after, imported) && Keyed(before) && Keyed(after) && depth <= MAX_JUMPS
    requires ProxyOk(before, current) && Walk(before, ById(before.hosts), current, seen, depth).Ok?
    requires Check(after, imported, current, seen, depth, false).None?
    ensures ProxyOk(after, current) && Walk(after, ById(after.hosts), current, seen, depth).Ok?
    decreases MAX_JUMPS - depth
  {
    ProxyStaysOk(before, after, imported, current);
    if current.jump != "" {
      var jump := after.hosts[current.jump];
      if jump.id in imported.hosts {
        AffectedCheckIsResolution(after, imported, jump, seen + {jump.id}, depth + 1);
      } else {
        PassedWalkStillWorks(before, after, imported, jump, seen + {jump.id}, depth + 1);
      }
    }
  }

  predicate Accepted(g: Graph, imported: Imported) {
    forall id :: id in g.hosts ==> CheckHost(g, imported, g.hosts[id]).None?
  }

  /** An accepted import leaves every imported host resolvable and breaks no existing one. */
  lemma {:induction false} AcceptedHostsResolve(before: Graph, after: Graph, imported: Imported, id: string)
    requires Extends(before, after, imported) && Keyed(before) && Keyed(after) && Accepted(after, imported)
    requires id in after.hosts
    requires id in imported.hosts || Resolves(before, before.hosts[id])
    ensures Resolves(after, after.hosts[id])
  {
    hide Check, Walk;
    assert CheckHost(after, imported, after.hosts[id]).None?;
    if id in imported.hosts {
      ImportedHostsAreCheckedExactly(after, imported, after.hosts[id]);
    } else {
      PassedWalkStillWorks(before, after, imported, after.hosts[id], {id}, 0);
    }
  }

  /** Where every host resolved before, the check accepts exactly the imports after which
      every host still does. */
  lemma {:induction false} AcceptedExactlyWhenAllResolve(before: Graph, after: Graph, imported: Imported)
    requires Extends(before, after, imported) && Keyed(before) && Keyed(after)
    requires forall id :: id in before.hosts ==> Resolves(before, before.hosts[id])
    ensures Accepted(after, imported) <==> forall id :: id in after.hosts ==> Resolves(after, after.hosts[id])
  {
    hide CheckHost, Resolves;
    if Accepted(after, imported) {
      forall id | id in after.hosts ensures Resolves(after, after.hosts[id]) {
        AcceptedHostsResolve(before, after, imported, id);
      }
    }
    if forall id :: id in after.hosts ==> Resolves(after, after.hosts[id]) {
      forall id | id in after.hosts ensures CheckHost(after, imported, after.hosts[id]).None? {
        ResolvingHostPasses(after, imported, after.hosts[id]);
      }
    }
  }

  lemma {:induction false} ResolvingHostPasses(g: Graph, imported: Imported, h: Host)
    requires Resolves(g, h)
    ensures CheckHost(g, imported, h).None?
  {
    hide Check, Walk;
    ResolvingWalkPasses(g, imported, h, {h.id}, 0, h.id in imported.hosts);
  }

  // ---------- GetHost accepts a name as well ----------

  /** WHERE id=? OR name=?: any one matching row. */
  ghost predicate FoundRight(hosts: map<string, Host>, key: string, found: Option<Host>) {
    match found
    case Some(h) => h.id in hosts && hosts[h.id] == h && (h.id == key || h.name == key)
    case None => key !in hosts && forall id :: id in hosts ==> hosts[id].name != key
  }

  ghost predicate StoreLookup(hosts: map<string, Host>, get: Lookup) {
    forall key :: FoundRight(hosts, key, get(key))
  }

  /** Another host bears this id as its name. */
  predicate Aliased(hosts: map<string, Host>, key: string) {
    exists id :: id in hosts && id != key && hosts[id].name == key
  }

  /** The keys a walk along these jumps looks up. */
  function References(target: Host, jumps: seq<Host>): set<string>
    decreases |jumps|
  {
    if jumps == [] then {} else {target.jump} + References(jumps[0], jumps[1..])
  }

  predicate Unaliased(hosts: map<string, Host>, keys: set<string>) {
    forall key :: key in keys ==> !Aliased(hosts, key)
  }

  lemma {:induction false} WalkUnfolds(g: Graph, get: Lookup, current: Host, seen: set<string>, depth: nat)
    requires Walk(g, get, current, seen, depth).Ok? && current.jump != ""
    ensures depth < MAX_JUMPS && get(current.jump).Some?
    ensures var jump := get(current.jump).value;
      var rest := Walk(g, get, jump, seen + {jump.id}, depth + 1);
      && rest.Ok?
      && Walk(g, get, current, seen, depth) == Ok([jump] + rest.value)
      && References(current, Walk(g, get, current, seen, depth).value) == {current.jump} + References(jump, rest.value)
  {
    var jump := get(current.jump).value;
    var rest := Walk(g, get, jump, seen + {jump.id}, depth + 1).value;
    assert ([jump] + rest)[1..] == rest;
  }

  /** Two walks that reach the same next host differ only by what they do beyond it. */
  lemma {:induction false} WalksShareAStep(g: Graph, get: Lookup, get': Lookup, current: Host, seen: set<string>, depth: nat)
    requires current.jump != "" && get(current.jump).Some? && get'(current.jump) == get(current.jump)
    requires Walk(g, get, current, seen, depth).Ok?
    ensures var jump := get(current.jump).value;
      Walk(g, get', current, seen, depth) == Walk(g, get, current, seen, depth) <==>
      Walk(g, get', jump, seen + {jump.id}, depth + 1) == Walk(g, get, jump, seen + {jump.id}, depth + 1)
  {
    var jump := get(current.jump).value;
    var rest, rest' := Walk(g, get, jump, seen + {jump.id}, depth + 1), Walk(g, get', jump, seen + {jump.id}, depth + 1);
    if rest.Ok? && rest'.Ok? && [jump] + rest.value == [jump] + rest'.value {
      assert ([jump] + rest.value)[1..] == rest.value;
      assert ([jump] + rest'.value)[1..] == rest'.value;
    }
  }

  lemma {:induction false} UnaliasedKeyFound(g: Graph, get: Lookup, key: string)
    requires Keyed(g) && StoreLookup(g.hosts, get) && key in g.hosts && !Aliased(g.hosts, key)
    ensures get(key) == Some(g.hosts[key])
  {
    assert FoundRight(g.hosts, key, get(key));
    hide StoreLookup;
  }

  lemma {:induction false} UnaliasedWalk(g: Graph, get: Lookup, current: Host, seen: set<string>, depth: nat)
    requires Keyed(g) && StoreLookup(g.hosts, get) && Walk(g, ById(g.hosts), current, seen, depth).Ok?
    requires Unaliased(g.hosts, References(current, Walk(g, ById(g.hosts), current, seen, depth).value))
    ensures Walk(g, get, current, seen, depth) == Walk(g, ById(g.hosts), current, seen, depth)
    decreases MAX_JUMPS - depth
  {
    if current.jump != "" {
      hide Walk, References, StoreLookup, Aliased, Keyed;
      WalkUnfolds(g, ById(g.hosts), current, seen, depth);
      var jump := g.hosts[current.jump];
      UnaliasedKeyFound(g, get, current.jump);
      WalksShareAStep(g, ById(g.hosts), get, current, seen, depth);
      UnaliasedWalk(g, get, jump, seen + {jump.id}, depth + 1);
    }
  }

  ghost function Named(hosts: map<string, Host>, key: string): Option<Host> {
    if key in hosts then Some(hosts[key])
    else if exists id :: id in hosts && hosts[id].name == key then
      var id :| id in hosts && hosts[id].name == key;
      Some(hosts[id])
    else None
  }

  /** The lookup that finds a name at one key and goes by id wherever it can. */
  ghost function PreferName(hosts: map<string, Host>, key: string, other: string): Lookup
    requires other in hosts
  {
    k => if k == key then Some(hosts[other]) else Named(hosts, k)
  }

  lemma {:induction false} PreferNameIsPossible(g: Graph, key: string, other: string)
    requires Keyed(g) && other in g.hosts && g.hosts[other].name == key
    ensures StoreLookup(g.hosts, PreferName(g.hosts, key, other))
  {
    var get := PreferName(g.hosts, key, other);
    forall k ensures FoundRight(g.hosts, k, get(k)) {
      assert get(k) == if k == key then Some(g.hosts[other]) else Named(g.hosts, k);
    }
  }

  lemma {:induction false} WrongStepDiffers(g: Graph, get: Lookup, get': Lookup, current: Host, seen: set<string>, depth: nat)
    requires current.jump != "" && get'(current.jump) != get(current.jump)
    requires Walk(g, get, current, seen, depth).Ok?
    ensures Walk(g, get', current, seen, depth) != Walk(g, get, current, seen, depth)
  {
    WalkUnfolds(g, get, current, seen, depth);
    if Walk(g, get', current, seen, depth).Ok? {
      WalkUnfolds(g, get', current, seen, depth);
      hide Walk, References;
      assert Walk(g, get, current, seen, depth).value[0] == get(current.jump).value;
      assert Walk(g, get', current, seen, depth).value[0] == get'(current.jump).value;
    }
  }

  lemma {:induction false} AliasedWalkDiffers(g: Graph, current: Host, seen: set<string>, depth: nat, key: string, other: string)
    requires Keyed(g) && Walk(g, ById(g.hosts), current, seen, depth).Ok?
    requires other in g.hosts && other != key
    requires key in References(current, Walk(g, ById(g.hosts), current, seen, depth).value)
    ensures Walk(g, PreferName(g.hosts, key, other), current, seen, depth) != Walk(g, ById(g.hosts), current, seen, depth)
    decreases MAX_JUMPS - depth
  {
    var get := PreferName(g.hosts, key, other);
    if current.jump != "" {
      WalkUnfolds(g, ById(g.hosts), current, seen, depth);
      hide Walk, References;
      var jump := g.hosts[current.jump];
      if current.jump == key {
        assert get(key) == Some(g.hosts[other]);
        WrongStepDiffers(g, ById(g.hosts), get, current, seen, depth);
      } else {
        assert get(current.jump) == Some(jump);
        WalksShareAStep(g, ById(g.hosts), get, current, seen, depth);
        AliasedWalkDiffers(g, jump, seen + {jump.id}, depth + 1, key, other);
      }
    }
  }

  /** Whatever row the store picks, a resolvable host is resolved as by id, exactly when no
      reference on its route is another host's name. */
  lemma {:induction false} NamesAreHarmlessExactly(g: Graph, target: Host)
    requires Keyed(g) && Resolves(g, target)
    ensures (forall get: Lookup :: StoreLookup(g.hosts, get) ==> Resolve(g, get, target) == Resolve(g, ById(g.hosts), target))
      <==> Unaliased(g.hosts, References(target, Resolve(g, ById(g.hosts), target).value))
  {
    hide Walk, References, StoreLookup, PreferName, Aliased;
    var jumps := Resolve(g, ById(g.hosts), target).value;
    if Unaliased(g.hosts, References(target, jumps)) {
      forall get: Lookup | StoreLookup(g.hosts, get) ensures Resolve(g, get, target) == Resolve(g, ById(g.hosts), target) {
        UnaliasedWalk(g, get, target, {target.id}, 0);
      }
    } else {
      var key :| key in References(target, jumps) && Aliased(g.hosts, key);
      var other := NamedLike(g.hosts, key);
      PreferNameIsPossible(g, key, other);
      AliasedWalkDiffers(g, target, {target.id}, 0, key, other);
      assert Resolve(g, PreferName(g.hosts, key, other), target) != Resolve(g, ById(g.hosts), target);
    }
  }

  lemma {:induction false} NamedLike(hosts: map<string, Host>, key: string) returns (other: string)
    requires Aliased(hosts, key)
    ensures other in hosts && other != key && hosts[other].name == key
  {
    other :| other in hosts && other != key && hosts[other].name == key;
  }

  const HOST_A := Host("a", "web", "b", "")
  const HOST_B := Host("b", "gate", "", "")
  const HOST_C := Host("c", "b", "", "")
  const AMBIGUOUS: map<string, Host> := map["a" := HOST_A, "b" := HOST_B, "c" := HOST_C]

  lemma {:induction false} AmbiguousIsAccepted(g: Graph)
    requires g.hosts == AMBIGUOUS
    ensures Keyed(g) && Accepted(g, Imported(g.hosts.Keys, {}))
  {
    var imported := Imported(g.hosts.Keys, {});
    assert Check(g, imported, HOST_B, {"a"} + {"b"}, 1, true).None?;
  }

  lemma {:induction false} OneJump(g: Graph, get: Lookup, target: Host, jump: Host)
    requires target.proxy == "" && target.jump != "" && get(target.jump) == Some(jump)
    requires jump.proxy == "" && jump.jump == "" && jump.id != target.id
    ensures Resolve(g, get, target) == Ok([jump])
  {
    assert Walk(g, get, jump, {target.id} + {jump.id}, 1) == Ok([]);
    assert [jump] + [] == [jump];
  }

  lemma AmbiguousLookups(g: Graph)
    requires g.hosts == AMBIGUOUS
    ensures ById(g.hosts)("b") == Some(HOST_B)
    ensures "c" in g.hosts && g.hosts["c"].name == "b" && PreferName(g.hosts, "b", "c")("b") == Some(HOST_C)
  {
    hide Named;
  }

  /** The import check does not look at names: it accepts a graph in which a host can be
      reached through a different jump host, whose name is the id referred to. */
  lemma {:induction false} AcceptedNameCanDivertARoute(g: Graph)
    requires g.hosts == AMBIGUOUS
    ensures Keyed(g) && Accepted(g, Imported(g.hosts.Keys, {}))
    ensures StoreLookup(g.hosts, PreferName(g.hosts, "b", "c"))
    ensures Resolve(g, ById(g.hosts), HOST_A) == Ok([HOST_B])
    ensures Resolve(g, PreferName(g.hosts, "b", "c"), HOST_A) == Ok([HOST_C])
  {
    AmbiguousLookups(g);
    hide *;
    AmbiguousIsAccepted(g);
    PreferNameIsPossible(g, "b", "c");
    OneJump(g, ById(g.hosts), HOST_A, HOST_B);
    OneJump(g, PreferName(g.hosts, "b", "c"), HOST_A, HOST_C);
  }
}
