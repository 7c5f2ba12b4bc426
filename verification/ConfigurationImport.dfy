/** How an imported package finds the entries it replaces, and what the merged
    configuration can rely on. Ids and names are those left by TrimSpace. */
module ConfigurationImport {
  import opened Wrappers
  import opened HostGraph

  datatype Identity = Identity(id: string, name: string)

  datatype Refusal =
    | Invalid | DuplicateId | DuplicateName | NameConflict | DuplicateTarget
    | MissingReference | SelfJump | Unusable(problem: Problem)

  // ---------- images of a list of entries ----------

  function IdOf(item: Identity): string { item.id }

  function NameOf(item: Identity): string { item.name }

  function Front<T>(s: seq<T>): seq<T>
    requires s != []
  {
    s[..|s| - 1]
  }

  function Last<T>(s: seq<T>): T
    requires s != []
  {
    s[|s| - 1]
  }

  function Image<T>(f: T -> string, s: seq<T>): set<string> {
    if s == [] then {} else Image(f, Front(s)) + {f(Last(s))}
  }

  lemma {:induction false} ImageHas<T>(f: T -> string, s: seq<T>, k: nat)
    requires k < |s|
    ensures f(s[k]) in Image(f, s)
  {
    if k < |s| - 1 { ImageHas(f, Front(s), k); }
  }

  lemma {:induction false} ImageIndex<T>(f: T -> string, s: seq<T>, key: string) returns (k: nat)
    requires key in Image(f, s)
    ensures k < |s| && f(s[k]) == key
  {
    if f(Last(s)) == key { k := |s| - 1; } else { k := ImageIndex(f, Front(s), key); }
  }

  ghost predicate Distinct<T>(f: T -> string, s: seq<T>) {
    forall j, k :: 0 <= j < k < |s| ==> f(s[j]) != f(s[k])
  }

  lemma {:induction false} DistinctUnfolds<T>(f: T -> string, s: seq<T>)
    requires s != []
    ensures Distinct(f, s) <==> Distinct(f, Front(s)) && f(Last(s)) !in Image(f, Front(s))
  {
    hide Image;
    var front := Front(s);
    if f(Last(s)) in Image(f, front) {
      var k := ImageIndex(f, front, f(Last(s)));
      assert s[k] == front[k];
    } else if Distinct(f, front) {
      forall j, k | 0 <= j < k < |s| ensures f(s[j]) != f(s[k]) {
        assert s[j] == front[j];
        if k < |s| - 1 { assert s[k] == front[k]; } else { ImageHas(f, front, j); }
      }
    }
    if Distinct(f, s) {
      forall j, k | 0 <= j < k < |front| ensures f(front[j]) != f(front[k]) { assert f(s[j]) != f(s[k]); }
    }
  }

  // ---------- which entry an imported one replaces ----------

  /** The id of the existing entry with a name. */
  function ByName(existing: seq<Identity>, name: string): Option<string> {
    if existing == [] then None
    else if Last(existing).name == name then Some(Last(existing).id)
    else ByName(Front(existing), name)
  }

  /** The entry with the same id is replaced, else the one with the same name, else a new one is made. */
  function Target(existing: seq<Identity>, item: Identity): string {
    if item.id !in Image(IdOf, existing) && ByName(existing, item.name).Some? then ByName(existing, item.name).value
    else item.id
  }

  function TargetOf(existing: seq<Identity>): Identity -> string { item => Target(existing, item) }

  predicate Conflicts(existing: seq<Identity>, item: Identity) {
    ByName(existing, item.name).Some? && ByName(existing, item.name).value != Target(existing, item)
  }

  /** valid stands for the id pattern and the rules for names. */
  predicate Passes(valid: Identity -> bool, existing: seq<Identity>, earlier: seq<Identity>, item: Identity) {
    && valid(item)
    && item.id !in Image(IdOf, earlier)
    && item.name !in Image(NameOf, earlier)
    && !Conflicts(existing, item)
    && Target(existing, item) !in Image(TargetOf(existing), earlier)
  }

  predicate Acceptable(valid: Identity -> bool, existing: seq<Identity>, source: seq<Identity>) {
    source == [] || (Acceptable(valid, existing, Front(source)) && Passes(valid, existing, Front(source), Last(source)))
  }

  function TargetMap(existing: seq<Identity>, source: seq<Identity>): map<string, string> {
    if source == [] then map[]
    else TargetMap(existing, Front(source))[Last(source).id := Target(existing, Last(source))]
  }

  lemma {:induction false} TargetMapKeys(existing: seq<Identity>, source: seq<Identity>)
    ensures TargetMap(existing, source).Keys == Image(IdOf, source)
  {
    if source != [] { TargetMapKeys(existing, Front(source)); }
  }

  lemma {:induction false} PrefixIsAcceptable(valid: Identity -> bool, existing: seq<Identity>, source: seq<Identity>, k: nat)
    requires k <= |source| && Acceptable(valid, existing, source)
    ensures Acceptable(valid, existing, source[..k])
  {
    if k < |source| {
      assert Front(source)[..k] == source[..k];
      PrefixIsAcceptable(valid, existing, Front(source), k);
    } else {
      assert source[..k] == source;
    }
  }

  lemma PrefixStep<T>(s: seq<T>, k: nat)
    requires k < |s|
    ensures s[..k + 1] != [] && Front(s[..k + 1]) == s[..k] && Last(s[..k + 1]) == s[k]
  {
  }

  method IndexExisting(existing: seq<Identity>) returns (ids: set<string>, names: map<string, string>)
    ensures ids == Image(IdOf, existing)
    ensures forall name :: ByName(existing, name) == if name in names then Some(names[name]) else None
  {
    ids, names := {}, map[];
    for k := 0 to |existing|
      invariant ids == Image(IdOf, existing[..k])
      invariant forall name :: ByName(existing[..k], name) == if name in names then Some(names[name]) else None
    {
      PrefixStep(existing, k);
      ids, names := ids + {existing[k].id}, names[existing[k].name := existing[k].id];
    }
    assert existing[..|existing|] == existing;
  }

  /** One more entry is acceptable exactly when it passes; one that does not spoils the list. */
  lemma {:induction false} NextEntry(valid: Identity -> bool, existing: seq<Identity>, source: seq<Identity>, k: nat)
    requires k < |source| && Acceptable(valid, existing, source[..k])
    ensures Acceptable(valid, existing, source[..k + 1]) <==> Passes(valid, existing, source[..k], source[k])
    ensures !Passes(valid, existing, source[..k], source[k]) ==> !Acceptable(valid, existing, source)
    ensures TargetMap(existing, source[..k + 1]) == TargetMap(existing, source[..k])[source[k].id := Target(existing, source[k])]
    ensures Image(NameOf, source[..k + 1]) == Image(NameOf, source[..k]) + {source[k].name}
    ensures Image(TargetOf(existing), source[..k + 1]) == Image(TargetOf(existing), source[..k]) + {Target(existing, source[k])}
  {
    PrefixStep(source, k);
    hide Passes, Target;
    if Acceptable(valid, existing, source) { PrefixIsAcceptable(valid, existing, source, k + 1); }
  }

  method ResolveConfigurationIDs(valid: Identity -> bool, source: seq<Identity>, existing: seq<Identity>)
    returns (result: Result<map<string, string>, Refusal>)
    ensures result.Ok? <==> Acceptable(valid, existing, source)
    ensures result.Ok? ==> result.value == TargetMap(existing, source)
  {
    var existingIds, existingNames := IndexExisting(existing);
    var targets: map<string, string> := map[];
    var seenNames: set<string>, seenTargets: set<string> := {}, {};
    for k := 0 to |source|
      invariant Acceptable(valid, existing, source[..k])
      invariant targets == TargetMap(existing, source[..k])
      invariant seenNames == Image(NameOf, source[..k])
      invariant seenTargets == Image(TargetOf(existing), source[..k])
    {
      hide ByName, Acceptable, TargetMap, Image;
      var item := source[k];
      NextEntry(valid, existing, source, k);
      TargetMapKeys(existing, source[..k]);
      if !valid(item) { return Err(Invalid); }
      if item.id in targets { return Err(DuplicateId); }
      if item.name in seenNames { return Err(DuplicateName); }
      seenNames := seenNames + {item.name};
      var target := item.id;
      if item.id !in existingIds {
        if item.name in existingNames { target := existingNames[item.name]; }
      }
      assert target == Target(existing, item);
      if item.name in existingNames && existingNames[item.name] != target { return Err(NameConflict); }
      if target in seenTargets { return Err(DuplicateTarget); }
      seenTargets := seenTargets + {target};
      targets := targets[item.id := target];
    }
    assert source[..|source|] == source;
    result := Ok(targets);
  }

  /** Accepted exactly when every entry is valid and does not take the name of an entry it
      does not replace, and the ids, the names and the entries replaced are all different. */
  lemma {:induction false} AcceptableExactly(valid: Identity -> bool, existing: seq<Identity>, source: seq<Identity>)
    ensures Acceptable(valid, existing, source) <==>
      && (forall k :: 0 <= k < |source| ==> valid(source[k]) && !Conflicts(existing, source[k]))
      && Distinct(IdOf, source) && Distinct(NameOf, source) && Distinct(TargetOf(existing), source)
  {
    hide Conflicts, Target, Distinct, Image;
    if source == [] {
      DistinctEmpty(IdOf);
      DistinctEmpty(NameOf);
      DistinctEmpty(TargetOf(existing));
    } else {
      AcceptableExactly(valid, existing, Front(source));
      DistinctUnfolds(IdOf, source);
      DistinctUnfolds(NameOf, source);
      DistinctUnfolds(TargetOf(existing), source);
      assert forall k :: 0 <= k < |source| - 1 ==> source[k] == Front(source)[k];
    }
  }

  lemma DistinctEmpty<T>(f: T -> string)
    ensures Distinct(f, [])
  {
  }

  // ---------- names stay unique, upsert by upsert ----------

  function Table(existing: seq<Identity>): map<string, string> {
    if existing == [] then map[] else Table(Front(existing))[Last(existing).id := Last(existing).name]
  }

  /** The table of ids and names after upserting the source entries in order. */
  function Upserted(existing: seq<Identity>, source: seq<Identity>): map<string, string> {
    if source == [] then Table(existing)
    else Upserted(existing, Front(source))[Target(existing, Last(source)) := Last(source).name]
  }

  ghost predicate NamesUnique(table: map<string, string>) {
    forall a, b :: a in table && b in table && table[a] == table[b] ==> a == b
  }

  lemma {:induction false} TableHolds(existing: seq<Identity>, id: string) returns (k: nat)
    requires id in Table(existing)
    ensures k < |existing| && existing[k] == Identity(id, Table(existing)[id])
  {
    if Last(existing).id == id { k := |existing| - 1; } else { k := TableHolds(Front(existing), id); }
  }

  lemma {:induction false} ByNameFinds(existing: seq<Identity>, k: nat)
    requires Distinct(NameOf, existing) && k < |existing|
    ensures ByName(existing, existing[k].name) == Some(existing[k].id)
  {
    if k < |existing| - 1 {
      assert NameOf(existing[k]) != NameOf(existing[|existing| - 1]);
      DistinctUnfolds(NameOf, existing);
      ByNameFinds(Front(existing), k);
    }
  }

  lemma {:induction false} TableNamesUnique(existing: seq<Identity>)
    requires Distinct(NameOf, existing)
    ensures NamesUnique(Table(existing))
  {
    var table := Table(existing);
    forall a, b | a in table && b in table && table[a] == table[b] ensures a == b {
      var j := TableHolds(existing, a);
      var k := TableHolds(existing, b);
      ByNameFinds(existing, j);
      ByNameFinds(existing, k);
    }
  }

  /** Every row is an earlier upsert's or an existing one. */
  lemma {:induction false} UpsertedHolds(existing: seq<Identity>, source: seq<Identity>, id: string)
    requires id in Upserted(existing, source)
    ensures Upserted(existing, source)[id] in Image(NameOf, source)
      || (id in Table(existing) && Table(existing)[id] == Upserted(existing, source)[id])
  {
    hide Target, Table;
    if source != [] && id != Target(existing, Last(source)) { UpsertedHolds(existing, Front(source), id); }
  }

  /** No upsert can violate the uniqueness of names: it holds after every one of them. */
  lemma {:induction false} NamesStayUnique(valid: Identity -> bool, existing: seq<Identity>, source: seq<Identity>, k: nat)
    requires Distinct(NameOf, existing) && Acceptable(valid, existing, source) && k <= |source|
    ensures NamesUnique(Upserted(existing, source[..k]))
    decreases k
  {
    if k == 0 {
      TableNamesUnique(existing);
    } else {
      NamesStayUnique(valid, existing, source, k - 1);
      PrefixIsAcceptable(valid, existing, source, k);
      PrefixStep(source, k - 1);
      UpsertKeepsNames(valid, existing, source[..k]);
    }
  }

  lemma {:induction false} UpsertKeepsNames(valid: Identity -> bool, existing: seq<Identity>, source: seq<Identity>)
    requires Distinct(NameOf, existing) && source != [] && Acceptable(valid, existing, source)
    requires NamesUnique(Upserted(existing, Front(source)))
    ensures NamesUnique(Upserted(existing, source))
  {
    var item, before := Last(source), Upserted(existing, Front(source));
    assert Passes(valid, existing, Front(source), item);
    hide Acceptable, Image, Table, Target;
    forall id | id in before && before[id] == item.name ensures id == Target(existing, item) {
      UpsertedHolds(existing, Front(source), id);
      var k := TableHolds(existing, id);
      ByNameFinds(existing, k);
    }
  }

  /** Different entries replace different ones, as the map says. */
  lemma {:induction false} TargetMapAt(existing: seq<Identity>, source: seq<Identity>, k: nat)
    requires Distinct(IdOf, source) && k < |source|
    ensures source[k].id in TargetMap(existing, source)
    ensures TargetMap(existing, source)[source[k].id] == Target(existing, source[k])
  {
    if k < |source| - 1 {
      assert IdOf(source[k]) != IdOf(source[|source| - 1]);
      DistinctUnfolds(IdOf, source);
      TargetMapAt(existing, Front(source), k);
    }
  }

  lemma {:induction false} TargetMapInjective(valid: Identity -> bool, existing: seq<Identity>, source: seq<Identity>, a: string, b: string)
    requires Acceptable(valid, existing, source)
    requires var targets := TargetMap(existing, source); a in targets && b in targets && targets[a] == targets[b]
    ensures a == b
  {
    AcceptableExactly(valid, existing, source);
    TargetMapKeys(existing, source);
    var j := ImageIndex(IdOf, source, a);
    var k := ImageIndex(IdOf, source, b);
    TargetMapAt(existing, source, j);
    TargetMapAt(existing, source, k);
    hide Target, Acceptable;
    assert TargetOf(existing)(source[j]) == TargetOf(existing)(source[k]);
  }

  predicate HasId(existing: seq<Identity>, id: string) { exists k :: 0 <= k < |existing| && existing[k].id == id }

  lemma {:induction false} ImageIsHasId(existing: seq<Identity>, id: string)
    ensures id in Image(IdOf, existing) <==> HasId(existing, id)
  {
    if id in Image(IdOf, existing) {
      var k := ImageIndex(IdOf, existing, id);
      assert existing[k].id == id;
    }
    if HasId(existing, id) {
      var k :| 0 <= k < |existing| && existing[k].id == id;
      ImageHas(IdOf, existing, k);
    }
  }

  lemma {:induction false} ByNameMisses(existing: seq<Identity>, name: string)
    ensures ByName(existing, name).None? <==> forall k :: 0 <= k < |existing| ==> existing[k].name != name
  {
    if existing != [] {
      ByNameMisses(Front(existing), name);
      assert forall k :: 0 <= k < |existing| - 1 ==> existing[k] == Front(existing)[k];
      assert Last(existing) == existing[|existing| - 1];
    }
  }

  /** An imported entry replaces the entry with its id, else the one with its name, else none;
      and it is in conflict exactly if an entry has its id and another one its name. */
  lemma {:induction false} TargetExactly(existing: seq<Identity>, item: Identity, k: nat)
    requires Distinct(NameOf, existing)
    ensures HasId(existing, item.id) ==> Target(existing, item) == item.id
    ensures k < |existing| && existing[k].name == item.name && !HasId(existing, item.id) ==> Target(existing, item) == existing[k].id
    ensures (forall j :: 0 <= j < |existing| ==> existing[j].name != item.name) ==> Target(existing, item) == item.id
    ensures k < |existing| && existing[k].name == item.name ==>
      (Conflicts(existing, item) <==> HasId(existing, item.id) && existing[k].id != item.id)
    ensures (forall j :: 0 <= j < |existing| ==> existing[j].name != item.name) ==> !Conflicts(existing, item)
  {
    hide Distinct, HasId, ByName, Image;
    ImageIsHasId(existing, item.id);
    ByNameMisses(existing, item.name);
    if k < |existing| && existing[k].name == item.name { ByNameFinds(existing, k); }
  }

  // ---------- references ----------

  function Remap(id: string, imported: map<string, string>, existing: set<string>): Result<string, Refusal> {
    if id == "" then Ok("")
    else if id in imported then Ok(imported[id])
    else if id in existing then Ok(id)
    else Err(MissingReference)
  }

  function HostIdentity(h: Host): Identity { Identity(h.id, h.name) }

  function ProxyIdentity(p: Proxy): Identity { Identity(p.id, p.name) }

  function HostIdentities(hosts: seq<Host>): seq<Identity> {
    if hosts == [] then [] else HostIdentities(Front(hosts)) + [HostIdentity(Last(hosts))]
  }

  function ProxyIdentities(proxies: seq<Proxy>): seq<Identity> {
    if proxies == [] then [] else ProxyIdentities(Front(proxies)) + [ProxyIdentity(Last(proxies))]
  }

  /** The id maps and existing ids that references are read against. */
  datatype Context = Context(hostTargets: map<string, string>, proxyTargets: map<string, string>,
                             hostIds: set<string>, proxyIds: set<string>)

  function PrepareHost(c: Context, h: Host): Result<Host, Refusal>
    requires h.id in c.hostTargets
  {
    var proxy := Remap(h.proxy, c.proxyTargets, c.proxyIds);
    var jump := Remap(h.jump, c.hostTargets, c.hostIds);
    if proxy.Err? then Err(proxy.error)
    else if jump.Err? then Err(jump.error)
    else if jump.value == c.hostTargets[h.id] && jump.value != "" then Err(SelfJump)
    else Ok(Host(c.hostTargets[h.id], h.name, jump.value, proxy.value))
  }

  /** A reference names nothing or an entry. */
  predicate Known(id: string, entries: set<string>) { id == "" || id in entries }

  predicate RefersWithin(h: Host, hosts: set<string>, proxies: set<string>) { Known(h.jump, hosts) && Known(h.proxy, proxies) }

  /** Where the host's jump leads after the import. */
  predicate JumpsToItself(c: Context, h: Host)
    requires h.id in c.hostTargets
  {
    h.jump != "" && c.hostTargets[h.id] != "" && c.hostTargets[h.id] == if h.jump in c.hostTargets then c.hostTargets[h.jump] else h.jump
  }

  lemma PreparedExactly(c: Context, h: Host)
    requires h.id in c.hostTargets
    ensures PrepareHost(c, h).Ok? <==>
      && RefersWithin(h, c.hostTargets.Keys + c.hostIds, c.proxyTargets.Keys + c.proxyIds)
      && !JumpsToItself(c, h)
    ensures PrepareHost(c, h).Ok? ==>
      RefersWithin(PrepareHost(c, h).value, c.hostIds + c.hostTargets.Values, c.proxyIds + c.proxyTargets.Values)
  {
  }

  // ---------- the whole import ----------

  function HostId(h: Host): string { h.id }

  function ProxyId(p: Proxy): string { p.id }

  function MergeHosts(hosts: map<string, Host>, more: seq<Host>): map<string, Host> {
    if more == [] then hosts else MergeHosts(hosts, Front(more))[Last(more).id := Last(more)]
  }

  function MergeProxies(proxies: map<string, Proxy>, more: seq<Proxy>): map<string, Proxy> {
    if more == [] then proxies else MergeProxies(proxies, Front(more))[Last(more).id := Last(more)]
  }

  function PrepareHosts(c: Context, hosts: seq<Host>): Result<seq<Host>, Refusal>
    requires Image(HostId, hosts) <= c.hostTargets.Keys
  {
    if hosts == [] then Ok([])
    else
      var earlier := PrepareHosts(c, Front(hosts));
      if earlier.Err? then earlier
      else
        var h := PrepareHost(c, Last(hosts));
        if h.Err? then Err(h.error) else Ok(earlier.value + [h.value])
  }

  function PrepareProxies(targets: map<string, string>, proxies: seq<Proxy>): seq<Proxy>
    requires Image(ProxyId, proxies) <= targets.Keys
  {
    if proxies == [] then []
    else PrepareProxies(targets, Front(proxies)) + [Last(proxies).(id := targets[Last(proxies).id])]
  }

  lemma {:induction false} IdentitiesKeepIds(hosts: seq<Host>, proxies: seq<Proxy>)
    ensures Image(IdOf, HostIdentities(hosts)) == Image(HostId, hosts)
    ensures Image(IdOf, ProxyIdentities(proxies)) == Image(ProxyId, proxies)
    decreases |hosts| + |proxies|
  {
    if hosts != [] {
      IdentitiesKeepIds(Front(hosts), []);
      assert Front(HostIdentities(hosts)) == HostIdentities(Front(hosts));
    }
    if proxies != [] {
      IdentitiesKeepIds([], Front(proxies));
      assert Front(ProxyIdentities(proxies)) == ProxyIdentities(Front(proxies));
    }
  }

  /** What was there before, as lists in the order the store returns them. */
  datatype Existing = Existing(hosts: seq<Host>, proxies: seq<Proxy>)

  datatype Package = Package(hosts: seq<Host>, proxies: seq<Proxy>)

  function Before(existing: Existing, compatible: string -> bool): Graph {
    Graph(MergeHosts(map[], existing.hosts), MergeProxies(map[], existing.proxies), compatible)
  }

  function Targets(existing: Existing, package: Package): (map<string, string>, map<string, string>) {
    (TargetMap(HostIdentities(existing.hosts), HostIdentities(package.hosts)),
     TargetMap(ProxyIdentities(existing.proxies), ProxyIdentities(package.proxies)))
  }

  function ImportContext(existing: Existing, package: Package): (c: Context) {
    var (hostTargets, proxyTargets) := Targets(existing, package);
    Context(hostTargets, proxyTargets, Image(HostId, existing.hosts), Image(ProxyId, existing.proxies))
  }

  lemma {:induction false} ContextCovers(existing: Existing, package: Package)
    ensures Image(HostId, package.hosts) <= ImportContext(existing, package).hostTargets.Keys
    ensures Image(ProxyId, package.proxies) <= ImportContext(existing, package).proxyTargets.Keys
  {
    IdentitiesKeepIds(package.hosts, package.proxies);
    TargetMapKeys(HostIdentities(existing.hosts), HostIdentities(package.hosts));
    TargetMapKeys(ProxyIdentities(existing.proxies), ProxyIdentities(package.proxies));
  }

  /** Everything the import checks before it looks at the graph. */
  predicate Readable(valid: Identity -> bool, existing: Existing, package: Package) {
    ContextCovers(existing, package);
    && Acceptable(valid, ProxyIdentities(existing.proxies), ProxyIdentities(package.proxies))
    && Acceptable(valid, HostIdentities(existing.hosts), HostIdentities(package.hosts))
    && PrepareHosts(ImportContext(existing, package), package.hosts).Ok?
  }

  lemma {:induction false} ImageExactly<T>(f: T -> string, s: seq<T>, key: string)
    ensures key in Image(f, s) <==> exists j :: 0 <= j < |s| && f(s[j]) == key
  {
    if key in Image(f, s) { var j := ImageIndex(f, s, key); }
    forall j | 0 <= j < |s| && f(s[j]) == key ensures key in Image(f, s) { ImageHas(f, s, j); }
  }

  /** Every reference is empty, to an entry of the package or to one that is there, and the jump
      is not the entry the host replaces. */
  ghost predicate LeadsSomewhere(existing: Existing, hostTargets: map<string, string>, proxyTargets: map<string, string>, h: Host) {
    && h.id in hostTargets
    && (h.jump == "" || h.jump in hostTargets || exists j :: 0 <= j < |existing.hosts| && HostId(existing.hosts[j]) == h.jump)
    && (h.proxy == "" || h.proxy in proxyTargets || exists j :: 0 <= j < |existing.proxies| && ProxyId(existing.proxies[j]) == h.proxy)
    && (h.jump == "" || hostTargets[h.id] == "" || hostTargets[h.id] != if h.jump in hostTargets then hostTargets[h.jump] else h.jump)
  }

  lemma {:induction false} LeadsExactly(existing: Existing, package: Package, h: Host)
    requires h.id in ImportContext(existing, package).hostTargets
    ensures var c := ImportContext(existing, package);
      LeadsSomewhere(existing, c.hostTargets, c.proxyTargets, h) <==>
        (RefersWithin(h, c.hostTargets.Keys + c.hostIds, c.proxyTargets.Keys + c.proxyIds) && !JumpsToItself(c, h))
  {
    ImageExactly(HostId, existing.hosts, h.jump);
    ImageExactly(ProxyId, existing.proxies, h.proxy);
    hide Image, Targets;
  }

  /** A package is readable exactly when both lists are acceptable and every host's references
      lead somewhere. */
  lemma {:induction false} ReadableExactly(valid: Identity -> bool, existing: Existing, package: Package)
    ensures Readable(valid, existing, package) <==>
      && Acceptable(valid, ProxyIdentities(existing.proxies), ProxyIdentities(package.proxies))
      && Acceptable(valid, HostIdentities(existing.hosts), HostIdentities(package.hosts))
      && var (hostTargets, proxyTargets) := Targets(existing, package);
         forall k :: 0 <= k < |package.hosts| ==> LeadsSomewhere(existing, hostTargets, proxyTargets, package.hosts[k])
  {
    ContextCovers(existing, package);
    var c := ImportContext(existing, package);
    ReferencesRefusedExactly(c, package.hosts);
    hide Acceptable, PrepareHosts, Targets, HostIdentities, ProxyIdentities, Image, LeadsSomewhere, JumpsToItself, RefersWithin;
    forall k | 0 <= k < |package.hosts|
      ensures LeadsSomewhere(existing, c.hostTargets, c.proxyTargets, package.hosts[k]) <==>
        (RefersWithin(package.hosts[k], c.hostTargets.Keys + c.hostIds, c.proxyTargets.Keys + c.proxyIds) && !JumpsToItself(c, package.hosts[k]))
    {
      LeadsExactly(existing, package, package.hosts[k]);
    }
  }

  /** The entries to be written. */
  function Prepared(valid: Identity -> bool, existing: Existing, package: Package): Package
    requires Readable(valid, existing, package)
  {
    ContextCovers(existing, package);
    var c := ImportContext(existing, package);
    Package(PrepareHosts(c, package.hosts).value, PrepareProxies(c.proxyTargets, package.proxies))
  }

  function Merged(before: Graph, prepared: Package): Graph {
    before.(hosts := MergeHosts(before.hosts, prepared.hosts), proxies := MergeProxies(before.proxies, prepared.proxies))
  }

  function Touched(prepared: Package): Imported {
    Imported(Image(HostId, prepared.hosts), Image(ProxyId, prepared.proxies))
  }

  method PrepareAll(c: Context, hosts: seq<Host>) returns (result: Result<seq<Host>, Refusal>)
    requires Image(HostId, hosts) <= c.hostTargets.Keys
    ensures result.Ok? <==> PrepareHosts(c, hosts).Ok?
    ensures result.Ok? ==> result == PrepareHosts(c, hosts)
  {
    var prepared: seq<Host> := [];
    for k := 0 to |hosts|
      invariant Image(HostId, hosts[..k]) <= c.hostTargets.Keys
      invariant PrepareHosts(c, hosts[..k]) == Ok(prepared)
    {
      ImageHas(HostId, hosts, k);
      PrefixStep(hosts, k);
      var h := PrepareHost(c, hosts[k]);
      if h.Err? {
        PreparePrefix(c, hosts, k + 1);
        return Err(h.error);
      }
      prepared := prepared + [h.value];
    }
    assert hosts[..|hosts|] == hosts;
    result := Ok(prepared);
  }

  lemma {:induction false} PreparePrefix(c: Context, hosts: seq<Host>, k: nat)
    requires k <= |hosts| && Image(HostId, hosts) <= c.hostTargets.Keys
    ensures Image(HostId, hosts[..k]) <= c.hostTargets.Keys
    ensures PrepareHosts(c, hosts).Ok? ==> PrepareHosts(c, hosts[..k]).Ok?
  {
    if k < |hosts| {
      assert Front(hosts)[..k] == hosts[..k];
      PreparePrefix(c, Front(hosts), k);
    } else {
      assert hosts[..k] == hosts;
    }
  }

  /** ImportConfiguration up to the writes: it returns the graph they will leave. */
  method ImportConfiguration(valid: Identity -> bool, compatible: string -> bool, existing: Existing, package: Package)
    returns (result: Result<Graph, Refusal>)
    ensures result.Ok? <==>
      && Readable(valid, existing, package)
      && var prepared := Prepared(valid, existing, package);
         Accepted(Merged(Before(existing, compatible), prepared), Touched(prepared))
    ensures result.Ok? ==> result.value == Merged(Before(existing, compatible), Prepared(valid, existing, package))
  {
    hide Acceptable, TargetMap, Accepted, CheckHost, MergeHosts, MergeProxies;
    var proxyTargets := ResolveConfigurationIDs(valid, ProxyIdentities(package.proxies), ProxyIdentities(existing.proxies));
    if proxyTargets.Err? { return Err(proxyTargets.error); }
    var hostTargets := ResolveConfigurationIDs(valid, HostIdentities(package.hosts), HostIdentities(existing.hosts));
    if hostTargets.Err? { return Err(hostTargets.error); }
    ContextCovers(existing, package);
    var c := Context(hostTargets.value, proxyTargets.value, Image(HostId, existing.hosts), Image(ProxyId, existing.proxies));
    assert c == ImportContext(existing, package);
    hide ImportContext, Image;
    var hosts := PrepareAll(c, package.hosts);
    if hosts.Err? { return Err(hosts.error); }
    var prepared := Package(hosts.value, PrepareProxies(c.proxyTargets, package.proxies));
    assert prepared == Prepared(valid, existing, package);
    var after := Merged(Before(existing, compatible), prepared);
    var problem := ValidateConfigurationHostGraph(after, Touched(prepared));
    assert Accepted(after, Touched(prepared)) <==> problem.None? by { AcceptedMeans(after, Touched(prepared)); }
    if problem.Some? { return Err(Unusable(problem.value.1)); }
    result := Ok(after);
  }

  lemma {:induction false} AcceptedMeans(g: Graph, imported: Imported)
    ensures Accepted(g, imported) <==> forall id :: id in g.hosts ==> CheckHost(g, imported, g.hosts[id]).None?
  {
    hide CheckHost;
  }

  lemma {:induction false} MergeHostsExtends(hosts: map<string, Host>, more: seq<Host>)
    ensures hosts.Keys <= MergeHosts(hosts, more).Keys
    ensures MergeHosts(hosts, more).Keys == hosts.Keys + Image(HostId, more)
    ensures forall id :: id in MergeHosts(hosts, more) && id !in Image(HostId, more) ==>
      id in hosts && MergeHosts(hosts, more)[id] == hosts[id]
    ensures (forall id :: id in hosts ==> hosts[id].id == id) ==>
      forall id :: id in MergeHosts(hosts, more) ==> MergeHosts(hosts, more)[id].id == id
  {
    if more != [] { MergeHostsExtends(hosts, Front(more)); }
  }

  lemma {:induction false} MergeProxiesExtends(proxies: map<string, Proxy>, more: seq<Proxy>)
    ensures proxies.Keys <= MergeProxies(proxies, more).Keys
    ensures MergeProxies(proxies, more).Keys == proxies.Keys + Image(ProxyId, more)
    ensures forall id :: id in MergeProxies(proxies, more) && id !in Image(ProxyId, more) ==>
      id in proxies && MergeProxies(proxies, more)[id] == proxies[id]
  {
    if more != [] { MergeProxiesExtends(proxies, Front(more)); }
  }

  lemma {:induction false} MergedExtends(existing: Existing, compatible: string -> bool, prepared: Package)
    ensures var before := Before(existing, compatible); var after := Merged(before, prepared);
      Extends(before, after, Touched(prepared)) && Keyed(before) && Keyed(after)
  {
    var before := Before(existing, compatible);
    MergeHostsExtends(map[], existing.hosts);
    MergeHostsExtends(before.hosts, prepared.hosts);
    MergeProxiesExtends(before.proxies, prepared.proxies);
    hide MergeHosts, MergeProxies, Image;
  }

  /** A successful import leaves every imported host resolvable and every host that was. */
  lemma {:induction false} ImportKeepsHostsReachable(valid: Identity -> bool, compatible: string -> bool, existing: Existing, package: Package, id: string)
    requires Readable(valid, existing, package)
    requires var prepared := Prepared(valid, existing, package);
      var after := Merged(Before(existing, compatible), prepared);
      && Accepted(after, Touched(prepared)) && id in after.hosts
      && (id in Touched(prepared).hosts
          || (id in Before(existing, compatible).hosts
              && Resolves(Before(existing, compatible), Before(existing, compatible).hosts[id])))
    ensures var after := Merged(Before(existing, compatible), Prepared(valid, existing, package));
      Resolves(after, after.hosts[id])
  {
    hide Readable, Prepared, Accepted, Resolves, Merged, Touched, Extends, Before;
    var prepared := Prepared(valid, existing, package);
    MergedExtends(existing, compatible, prepared);
    AcceptedHostsResolve(Before(existing, compatible), Merged(Before(existing, compatible), prepared), Touched(prepared), id);
  }

  // ---------- references after the whole import ----------

  lemma {:induction false} PreparedAt(c: Context, hosts: seq<Host>, k: nat)
    requires Image(HostId, hosts) <= c.hostTargets.Keys && PrepareHosts(c, hosts).Ok? && k < |hosts|
    ensures hosts[k].id in c.hostTargets && |PrepareHosts(c, hosts).value| == |hosts|
    ensures PrepareHost(c, hosts[k]) == Ok(PrepareHosts(c, hosts).value[k])
  {
    hide Image, PrepareHost;
    PrepareUnfolds(c, hosts);
    if k < |hosts| - 1 { PreparedAt(c, Front(hosts), k); }
    else if |hosts| > 1 { PreparedAt(c, Front(hosts), 0); }
  }

  lemma {:induction false} PreparedLength(c: Context, hosts: seq<Host>)
    requires Image(HostId, hosts) <= c.hostTargets.Keys && PrepareHosts(c, hosts).Ok?
    ensures |PrepareHosts(c, hosts).value| == |hosts|
  {
    if hosts != [] { PreparedAt(c, hosts, 0); }
  }

  lemma {:induction false} PreparedProxyAt(targets: map<string, string>, proxies: seq<Proxy>, k: nat)
    requires Image(ProxyId, proxies) <= targets.Keys && k < |proxies|
    ensures |PrepareProxies(targets, proxies)| == |proxies| && proxies[k].id in targets
    ensures PrepareProxies(targets, proxies)[k] == proxies[k].(id := targets[proxies[k].id])
  {
    if k < |proxies| - 1 { PreparedProxyAt(targets, Front(proxies), k); }
    else if |proxies| > 1 { PreparedProxyAt(targets, Front(proxies), 0); }
  }

  /** A package's references are refused exactly when one names nothing that is there or
      imported, or leads from a host to itself. */
  lemma {:induction false} ReferencesRefusedExactly(c: Context, hosts: seq<Host>)
    requires Image(HostId, hosts) <= c.hostTargets.Keys
    ensures forall k :: 0 <= k < |hosts| ==> hosts[k].id in c.hostTargets
    ensures PrepareHosts(c, hosts).Ok? <==>
      forall k :: 0 <= k < |hosts| ==>
        && RefersWithin(hosts[k], c.hostTargets.Keys + c.hostIds, c.proxyTargets.Keys + c.proxyIds)
        && !JumpsToItself(c, hosts[k])
  {
    if hosts != [] {
      var front, last := Front(hosts), Last(hosts);
      ReferencesRefusedExactly(c, front);
      PreparedExactly(c, last);
      assert PrepareHosts(c, hosts).Ok? <==> PrepareHosts(c, front).Ok? && PrepareHost(c, last).Ok?;
      hide PrepareHosts, PrepareHost, RefersWithin, JumpsToItself, Image;
      assert forall k :: 0 <= k < |hosts| - 1 ==> hosts[k] == front[k];
      assert hosts[|hosts| - 1] == last;
    }
  }

  lemma {:induction false} HostTargetsAreWritten(c: Context, hosts: seq<Host>)
    requires Image(HostId, hosts) == c.hostTargets.Keys && PrepareHosts(c, hosts).Ok?
    ensures c.hostTargets.Values <= Image(HostId, PrepareHosts(c, hosts).value)
  {
    hide Image, PrepareHosts;
    forall target | target in c.hostTargets.Values ensures target in Image(HostId, PrepareHosts(c, hosts).value) {
      var id :| id in c.hostTargets && c.hostTargets[id] == target;
      var k := ImageIndex(HostId, hosts, id);
      PreparedAt(c, hosts, k);
      ImageHas(HostId, PrepareHosts(c, hosts).value, k);
    }
  }

  lemma {:induction false} ProxyTargetsAreWritten(targets: map<string, string>, proxies: seq<Proxy>)
    requires Image(ProxyId, proxies) == targets.Keys
    ensures targets.Values <= Image(ProxyId, PrepareProxies(targets, proxies))
  {
    hide Image, PrepareProxies;
    forall target | target in targets.Values ensures target in Image(ProxyId, PrepareProxies(targets, proxies)) {
      var id :| id in targets && targets[id] == target;
      var k := ImageIndex(ProxyId, proxies, id);
      PreparedProxyAt(targets, proxies, k);
      ImageHas(ProxyId, PrepareProxies(targets, proxies), k);
    }
  }

  lemma {:induction false} ContextKeys(existing: Existing, package: Package)
    ensures ImportContext(existing, package).hostTargets.Keys == Image(HostId, package.hosts)
    ensures ImportContext(existing, package).proxyTargets.Keys == Image(ProxyId, package.proxies)
  {
    IdentitiesKeepIds(package.hosts, package.proxies);
    TargetMapKeys(HostIdentities(existing.hosts), HostIdentities(package.hosts));
    TargetMapKeys(ProxyIdentities(existing.proxies), ProxyIdentities(package.proxies));
  }

  lemma Widened(h: Host, hosts: set<string>, proxies: set<string>, hosts': set<string>, proxies': set<string>)
    requires RefersWithin(h, hosts, proxies) && hosts <= hosts' && proxies <= proxies'
    ensures RefersWithin(h, hosts', proxies')
  {
  }

  /** The ids a prepared host may refer to: those there before and those written. */
  lemma {:induction false} PreparedRefersWithin(valid: Identity -> bool, existing: Existing, package: Package, k: nat)
    requires Readable(valid, existing, package) && k < |Prepared(valid, existing, package).hosts|
    ensures var prepared := Prepared(valid, existing, package);
      RefersWithin(prepared.hosts[k], Image(HostId, existing.hosts) + Touched(prepared).hosts,
                   Image(ProxyId, existing.proxies) + Touched(prepared).proxies)
  {
    ContextKeys(existing, package);
    var c := ImportContext(existing, package);
    var prepared := Prepared(valid, existing, package);
    assert prepared.hosts == PrepareHosts(c, package.hosts).value && prepared.proxies == PrepareProxies(c.proxyTargets, package.proxies);
    assert c.hostIds == Image(HostId, existing.hosts) && c.proxyIds == Image(ProxyId, existing.proxies);
    assert Touched(prepared) == Imported(Image(HostId, prepared.hosts), Image(ProxyId, prepared.proxies));
    hide *;
    PreparedLength(c, package.hosts);
    PreparedAt(c, package.hosts, k);
    PreparedExactly(c, package.hosts[k]);
    HostTargetsAreWritten(c, package.hosts);
    ProxyTargetsAreWritten(c.proxyTargets, package.proxies);
    Widened(prepared.hosts[k], c.hostIds + c.hostTargets.Values, c.proxyIds + c.proxyTargets.Values,
            c.hostIds + Image(HostId, prepared.hosts), c.proxyIds + Image(ProxyId, prepared.proxies));
  }

  lemma {:induction false} MergedHostAt(hosts: map<string, Host>, more: seq<Host>, id: string) returns (k: nat)
    requires id in Image(HostId, more)
    ensures k < |more| && id in MergeHosts(hosts, more) && MergeHosts(hosts, more)[id] == more[k]
  {
    if Last(more).id == id { k := |more| - 1; } else { k := MergedHostAt(hosts, Front(more), id); }
  }

  lemma {:induction false} MergedKeys(existing: Existing, compatible: string -> bool, prepared: Package)
    ensures var before := Before(existing, compatible); var after := Merged(before, prepared);
      && before.hosts.Keys == Image(HostId, existing.hosts) && before.proxies.Keys == Image(ProxyId, existing.proxies)
      && after.hosts.Keys == before.hosts.Keys + Touched(prepared).hosts
      && after.proxies.Keys == before.proxies.Keys + Touched(prepared).proxies
  {
    var before := Before(existing, compatible);
    MergeHostsExtends(map[], existing.hosts);
    MergeProxiesExtends(map[], existing.proxies);
    MergeHostsExtends(before.hosts, prepared.hosts);
    MergeProxiesExtends(before.proxies, prepared.proxies);
    hide MergeHosts, MergeProxies, Image;
  }

  ghost predicate NothingDangles(g: Graph) {
    forall id :: id in g.hosts ==> RefersWithin(g.hosts[id], g.hosts.Keys, g.proxies.Keys)
  }

  lemma {:induction false} ImportedReferenceExists(valid: Identity -> bool, compatible: string -> bool, existing: Existing, package: Package, id: string)
    requires Readable(valid, existing, package) && id in Touched(Prepared(valid, existing, package)).hosts
    ensures var after := Merged(Before(existing, compatible), Prepared(valid, existing, package));
      id in after.hosts && RefersWithin(after.hosts[id], after.hosts.Keys, after.proxies.Keys)
  {
    hide Readable, Prepared, RefersWithin, MergeHosts, MergeProxies, Image;
    var prepared := Prepared(valid, existing, package);
    var before := Before(existing, compatible);
    MergedKeys(existing, compatible, prepared);
    var k := MergedHostAt(before.hosts, prepared.hosts, id);
    PreparedRefersWithin(valid, existing, package, k);
  }

  lemma {:induction false} UntouchedHostStays(existing: Existing, compatible: string -> bool, prepared: Package, id: string)
    requires id in Merged(Before(existing, compatible), prepared).hosts && id !in Touched(prepared).hosts
    ensures var before := Before(existing, compatible);
      id in before.hosts && Merged(before, prepared).hosts[id] == before.hosts[id]
  {
    MergeHostsExtends(Before(existing, compatible).hosts, prepared.hosts);
    hide MergeHosts, MergeProxies, Image;
  }

  /** In the merged graph every imported host refers to entries that are there, and every
      other host is as before and refers to entries that are there exactly when they were
      there before or are imported; so nothing dangles that did not dangle before. */
  lemma {:induction false} ReferencesAfterImport(valid: Identity -> bool, compatible: string -> bool, existing: Existing, package: Package)
    requires Readable(valid, existing, package)
    ensures var before, prepared := Before(existing, compatible), Prepared(valid, existing, package);
      var after, touched := Merged(before, prepared), Touched(prepared);
      && (forall id :: id in touched.hosts ==>
            id in after.hosts && RefersWithin(after.hosts[id], after.hosts.Keys, after.proxies.Keys))
      && (forall id :: id in after.hosts && id !in touched.hosts ==>
            && id in before.hosts && after.hosts[id] == before.hosts[id]
            && (RefersWithin(after.hosts[id], after.hosts.Keys, after.proxies.Keys) <==>
                  RefersWithin(before.hosts[id], before.hosts.Keys + touched.hosts, before.proxies.Keys + touched.proxies)))
      && (NothingDangles(before) ==> NothingDangles(after))
  {
    hide Readable, Prepared, RefersWithin, Merged, Before, Touched;
    var before, prepared := Before(existing, compatible), Prepared(valid, existing, package);
    var after, touched := Merged(before, prepared), Touched(prepared);
    MergedKeys(existing, compatible, prepared);
    forall id | id in touched.hosts
      ensures id in after.hosts && RefersWithin(after.hosts[id], after.hosts.Keys, after.proxies.Keys)
    {
      ImportedReferenceExists(valid, compatible, existing, package, id);
    }
    forall id | id in after.hosts && id !in touched.hosts
      ensures id in before.hosts && after.hosts[id] == before.hosts[id]
      ensures RefersWithin(before.hosts[id], before.hosts.Keys, before.proxies.Keys) ==>
        RefersWithin(after.hosts[id], after.hosts.Keys, after.proxies.Keys)
    {
      UntouchedHostStays(existing, compatible, prepared, id);
      if RefersWithin(before.hosts[id], before.hosts.Keys, before.proxies.Keys) {
        Widened(before.hosts[id], before.hosts.Keys, before.proxies.Keys, after.hosts.Keys, after.proxies.Keys);
      }
    }
  }

  // ---------- names after the whole import ----------

  /** The ids and names of the rows that are written for the source entries. */
  function Written(existing: seq<Identity>, source: seq<Identity>): seq<Identity> {
    if source == [] then []
    else Written(existing, Front(source)) + [Identity(Target(existing, Last(source)), Last(source).name)]
  }

  function Put(names: map<string, string>, rows: seq<Identity>): map<string, string> {
    if rows == [] then names else Put(names, Front(rows))[Last(rows).id := Last(rows).name]
  }

  lemma SnocParts<T>(s: seq<T>, x: T)
    ensures s + [x] != [] && Front(s + [x]) == s && Last(s + [x]) == x
  {
  }

  lemma {:induction false} WrittenAt(existing: seq<Identity>, source: seq<Identity>, k: nat)
    requires k < |source|
    ensures |Written(existing, source)| == |source|
    ensures Written(existing, source)[k] == Identity(Target(existing, source[k]), source[k].name)
  {
    hide Target;
    if k < |source| - 1 { WrittenAt(existing, Front(source), k); }
    else if |source| > 1 { WrittenAt(existing, Front(source), 0); }
  }

  lemma {:induction false} PutWritten(existing: seq<Identity>, source: seq<Identity>)
    ensures Put(Table(existing), Written(existing, source)) == Upserted(existing, source)
  {
    if source != [] {
      hide Target, Table;
      PutWritten(existing, Front(source));
      SnocParts(Written(existing, Front(source)), Identity(Target(existing, Last(source)), Last(source).name));
    }
  }

  function HostNames(hosts: map<string, Host>): map<string, string> { map id | id in hosts :: hosts[id].name }

  function ProxyNames(proxies: map<string, Proxy>): map<string, string> { map id | id in proxies :: proxies[id].name }

  lemma {:induction false} HostNamesPut(hosts: map<string, Host>, more: seq<Host>)
    ensures HostNames(MergeHosts(hosts, more)) == Put(HostNames(hosts), HostIdentities(more))
  {
    if more != [] {
      HostNamesPut(hosts, Front(more));
      SnocParts(HostIdentities(Front(more)), HostIdentity(Last(more)));
    }
  }

  lemma {:induction false} ProxyNamesPut(proxies: map<string, Proxy>, more: seq<Proxy>)
    ensures ProxyNames(MergeProxies(proxies, more)) == Put(ProxyNames(proxies), ProxyIdentities(more))
  {
    if more != [] {
      ProxyNamesPut(proxies, Front(more));
      SnocParts(ProxyIdentities(Front(more)), ProxyIdentity(Last(more)));
    }
  }

  lemma {:induction false} TableIsPut(existing: seq<Identity>)
    ensures Put(map[], existing) == Table(existing)
  {
    if existing != [] { TableIsPut(Front(existing)); }
  }

  lemma PrepareUnfolds(c: Context, hosts: seq<Host>)
    requires hosts != [] && Image(HostId, hosts) <= c.hostTargets.Keys && PrepareHosts(c, hosts).Ok?
    ensures Image(HostId, Front(hosts)) <= c.hostTargets.Keys && PrepareHosts(c, Front(hosts)).Ok?
    ensures Last(hosts).id in c.hostTargets && PrepareHost(c, Last(hosts)).Ok?
    ensures var prepared := PrepareHosts(c, hosts).value;
      && prepared != []
      && Front(prepared) == PrepareHosts(c, Front(hosts)).value
      && Last(prepared) == PrepareHost(c, Last(hosts)).value
      && Last(prepared).id == c.hostTargets[Last(hosts).id] && Last(prepared).name == Last(hosts).name
  {
  }

  /** The target map sends each of these entries to the one it replaces. */
  ghost predicate Agrees(targets: map<string, string>, existing: seq<Identity>, source: seq<Identity>) {
    forall k :: 0 <= k < |source| ==> source[k].id in targets && targets[source[k].id] == Target(existing, source[k])
  }

  lemma {:induction false} AgreesFront(targets: map<string, string>, existing: seq<Identity>, source: seq<Identity>, last: Identity)
    requires Agrees(targets, existing, source + [last])
    ensures Agrees(targets, existing, source)
    ensures last.id in targets && targets[last.id] == Target(existing, last)
  {
    hide Target;
    var longer := source + [last];
    assert longer[|source|] == last;
    forall k | 0 <= k < |source|
      ensures source[k].id in targets && targets[source[k].id] == Target(existing, source[k])
    {
      assert longer[k] == source[k];
    }
  }

  lemma {:induction false} TargetsAgree(valid: Identity -> bool, existing: seq<Identity>, source: seq<Identity>)
    requires Acceptable(valid, existing, source)
    ensures Agrees(TargetMap(existing, source), existing, source)
  {
    AcceptableExactly(valid, existing, source);
    hide Target, Acceptable, Distinct, TargetMap;
    forall k | 0 <= k < |source|
      ensures source[k].id in TargetMap(existing, source)
      ensures TargetMap(existing, source)[source[k].id] == Target(existing, source[k])
    {
      TargetMapAt(existing, source, k);
    }
  }

  lemma {:induction false} PreparedHostsAreWritten(c: Context, existing: seq<Identity>, hosts: seq<Host>)
    requires Image(HostId, hosts) <= c.hostTargets.Keys && PrepareHosts(c, hosts).Ok?
    requires Agrees(c.hostTargets, existing, HostIdentities(hosts))
    ensures HostIdentities(PrepareHosts(c, hosts).value) == Written(existing, HostIdentities(hosts))
  {
    if hosts != [] {
      hide Target, Agrees, Image, PrepareHost, PrepareHosts;
      var front, last := Front(hosts), Last(hosts);
      SnocParts(HostIdentities(front), HostIdentity(last));
      AgreesFront(c.hostTargets, existing, HostIdentities(front), HostIdentity(last));
      PrepareUnfolds(c, hosts);
      PreparedHostsAreWritten(c, existing, front);
    } else {
      assert PrepareHosts(c, hosts).value == [];
    }
  }

  lemma {:induction false} PreparedProxiesAreWritten(targets: map<string, string>, existing: seq<Identity>, proxies: seq<Proxy>)
    requires Image(ProxyId, proxies) <= targets.Keys
    requires Agrees(targets, existing, ProxyIdentities(proxies))
    ensures ProxyIdentities(PrepareProxies(targets, proxies)) == Written(existing, ProxyIdentities(proxies))
  {
    if proxies != [] {
      var front, last := Front(proxies), Last(proxies);
      assert last.id in targets;
      SnocParts(ProxyIdentities(front), ProxyIdentity(last));
      SnocParts(PrepareProxies(targets, front), last.(id := targets[last.id]));
      hide Target, Agrees;
      AgreesFront(targets, existing, ProxyIdentities(front), ProxyIdentity(last));
      PreparedProxiesAreWritten(targets, existing, front);
    }
  }

  /** The rows written have the ids of the entries they replace and the names of the package. */
  lemma {:induction false} PreparedAreWritten(valid: Identity -> bool, existing: Existing, package: Package)
    requires Readable(valid, existing, package)
    ensures var prepared := Prepared(valid, existing, package);
      && HostIdentities(prepared.hosts) == Written(HostIdentities(existing.hosts), HostIdentities(package.hosts))
      && ProxyIdentities(prepared.proxies) == Written(ProxyIdentities(existing.proxies), ProxyIdentities(package.proxies))
  {
    ContextKeys(existing, package);
    var c := ImportContext(existing, package);
    TargetsAgree(valid, HostIdentities(existing.hosts), HostIdentities(package.hosts));
    TargetsAgree(valid, ProxyIdentities(existing.proxies), ProxyIdentities(package.proxies));
    hide Acceptable, Target, Image, Agrees, PrepareHosts, PrepareProxies, HostIdentities, ProxyIdentities, TargetMap, Written;
    PreparedHostsAreWritten(c, HostIdentities(existing.hosts), package.hosts);
    PreparedProxiesAreWritten(c.proxyTargets, ProxyIdentities(existing.proxies), package.proxies);
  }

  /** No two hosts of the merged graph share a name, as none did before. */
  lemma {:induction false} HostNamesStayUnique(valid: Identity -> bool, compatible: string -> bool, existing: Existing, package: Package)
    requires Distinct(NameOf, HostIdentities(existing.hosts)) && Readable(valid, existing, package)
    ensures var after := Merged(Before(existing, compatible), Prepared(valid, existing, package));
      NamesUnique(HostNames(after.hosts))
  {
    var present, more := HostIdentities(existing.hosts), HostIdentities(package.hosts);
    var prepared := Prepared(valid, existing, package);
    assert Acceptable(valid, present, more) && HostNames(map[]) == map[];
    hide *;
    PreparedAreWritten(valid, existing, package);
    MergedHosts(Before(existing, compatible), prepared);
    BeforeHosts(existing, compatible);
    HostNamesPut(map[], existing.hosts);
    HostNamesPut(MergeHosts(map[], existing.hosts), prepared.hosts);
    TableIsPut(present);
    PutWritten(present, more);
    NamesStayUnique(valid, present, more, |more|);
    assert more[..|more|] == more;
  }

  /** Nor do two proxies. */
  lemma {:induction false} ProxyNamesStayUnique(valid: Identity -> bool, compatible: string -> bool, existing: Existing, package: Package)
    requires Distinct(NameOf, ProxyIdentities(existing.proxies)) && Readable(valid, existing, package)
    ensures var after := Merged(Before(existing, compatible), Prepared(valid, existing, package));
      NamesUnique(ProxyNames(after.proxies))
  {
    var present, more := ProxyIdentities(existing.proxies), ProxyIdentities(package.proxies);
    var prepared := Prepared(valid, existing, package);
    assert Acceptable(valid, present, more) && ProxyNames(map[]) == map[];
    hide *;
    PreparedAreWritten(valid, existing, package);
    MergedHosts(Before(existing, compatible), prepared);
    BeforeHosts(existing, compatible);
    ProxyNamesPut(map[], existing.proxies);
    ProxyNamesPut(MergeProxies(map[], existing.proxies), prepared.proxies);
    TableIsPut(present);
    PutWritten(present, more);
    NamesStayUnique(valid, present, more, |more|);
    assert more[..|more|] == more;
  }

  lemma MergedHosts(before: Graph, prepared: Package)
    ensures Merged(before, prepared).hosts == MergeHosts(before.hosts, prepared.hosts)
    ensures Merged(before, prepared).proxies == MergeProxies(before.proxies, prepared.proxies)
  {
  }

  lemma BeforeHosts(existing: Existing, compatible: string -> bool)
    ensures Before(existing, compatible).hosts == MergeHosts(map[], existing.hosts)
    ensures Before(existing, compatible).proxies == MergeProxies(map[], existing.proxies)
  {
  }

  // ---------- what becomes of each entry of the package ----------

  lemma {:induction false} LastOfItsId(hosts: map<string, Host>, more: seq<Host>, k: nat)
    requires Distinct(HostId, more) && k < |more|
    ensures more[k].id in MergeHosts(hosts, more) && MergeHosts(hosts, more)[more[k].id] == more[k]
  {
    if k < |more| - 1 {
      assert HostId(more[k]) != HostId(more[|more| - 1]);
      DistinctUnfolds(HostId, more);
      LastOfItsId(hosts, Front(more), k);
    }
  }

  lemma {:induction false} LastProxyOfItsId(proxies: map<string, Proxy>, more: seq<Proxy>, k: nat)
    requires Distinct(ProxyId, more) && k < |more|
    ensures more[k].id in MergeProxies(proxies, more) && MergeProxies(proxies, more)[more[k].id] == more[k]
  {
    if k < |more| - 1 {
      assert ProxyId(more[k]) != ProxyId(more[|more| - 1]);
      DistinctUnfolds(ProxyId, more);
      LastProxyOfItsId(proxies, Front(more), k);
    }
  }

  lemma {:induction false} IdentityOfHost(hosts: seq<Host>, k: nat)
    requires k < |hosts|
    ensures |HostIdentities(hosts)| == |hosts| && HostIdentities(hosts)[k] == HostIdentity(hosts[k])
  {
    if k < |hosts| - 1 { IdentityOfHost(Front(hosts), k); } else if |hosts| > 1 { IdentityOfHost(Front(hosts), 0); }
  }

  lemma {:induction false} IdentityOfProxy(proxies: seq<Proxy>, k: nat)
    requires k < |proxies|
    ensures |ProxyIdentities(proxies)| == |proxies| && ProxyIdentities(proxies)[k] == ProxyIdentity(proxies[k])
  {
    if k < |proxies| - 1 { IdentityOfProxy(Front(proxies), k); } else if |proxies| > 1 { IdentityOfProxy(Front(proxies), 0); }
  }

  lemma {:induction false} DifferentTargets(valid: Identity -> bool, existing: seq<Identity>, source: seq<Identity>, j: nat, k: nat)
    requires Acceptable(valid, existing, source) && j < k < |source|
    ensures source[j].id in TargetMap(existing, source) && source[k].id in TargetMap(existing, source)
    ensures TargetMap(existing, source)[source[j].id] != TargetMap(existing, source)[source[k].id]
  {
    AcceptableExactly(valid, existing, source);
    hide Acceptable, TargetMap, Target;
    TargetMapAt(existing, source, j);
    TargetMapAt(existing, source, k);
    assert TargetOf(existing)(source[j]) != TargetOf(existing)(source[k]);
  }

  lemma {:induction false} WrittenIdsDiffer(valid: Identity -> bool, existing: Existing, package: Package)
    requires Readable(valid, existing, package)
    ensures Distinct(HostId, Prepared(valid, existing, package).hosts)
    ensures Distinct(ProxyId, Prepared(valid, existing, package).proxies)
  {
    ContextKeys(existing, package);
    var c := ImportContext(existing, package);
    var prepared := Prepared(valid, existing, package);
    hide Acceptable, TargetMap, HostIdentities, ProxyIdentities, PrepareHosts, PrepareHost, PrepareProxies, Image;
    PreparedLength(c, package.hosts);
    forall j, k | 0 <= j < k < |prepared.hosts| ensures HostId(prepared.hosts[j]) != HostId(prepared.hosts[k]) {
      PreparedIs(c, package.hosts, j);
      PreparedIs(c, package.hosts, k);
      IdentityOfHost(package.hosts, j);
      IdentityOfHost(package.hosts, k);
      DifferentTargets(valid, HostIdentities(existing.hosts), HostIdentities(package.hosts), j, k);
    }
    if package.proxies != [] { PreparedProxyAt(c.proxyTargets, package.proxies, 0); } else { NoProxies(c.proxyTargets); }
    forall j, k | 0 <= j < k < |prepared.proxies| ensures ProxyId(prepared.proxies[j]) != ProxyId(prepared.proxies[k]) {
      PreparedProxyAt(c.proxyTargets, package.proxies, j);
      PreparedProxyAt(c.proxyTargets, package.proxies, k);
      IdentityOfProxy(package.proxies, j);
      IdentityOfProxy(package.proxies, k);
      DifferentTargets(valid, ProxyIdentities(existing.proxies), ProxyIdentities(package.proxies), j, k);
    }
  }

  lemma NoProxies(targets: map<string, string>)
    ensures PrepareProxies(targets, []) == []
  {
  }

  /** Where a reference of the package leads: nowhere, to the target of the imported entry it
      names, or to the entry that was there. */
  function LeadsTo(id: string, targets: map<string, string>): string {
    if id == "" then "" else if id in targets then targets[id] else id
  }

  lemma {:induction false} PreparedIs(c: Context, hosts: seq<Host>, k: nat)
    requires Image(HostId, hosts) <= c.hostTargets.Keys && PrepareHosts(c, hosts).Ok? && k < |hosts|
    ensures hosts[k].id in c.hostTargets && |PrepareHosts(c, hosts).value| == |hosts|
    ensures PrepareHosts(c, hosts).value[k] == Host(c.hostTargets[hosts[k].id], hosts[k].name,
      LeadsTo(hosts[k].jump, c.hostTargets), LeadsTo(hosts[k].proxy, c.proxyTargets))
    ensures hosts[k].jump != "" && hosts[k].jump !in c.hostTargets ==> hosts[k].jump in c.hostIds
    ensures hosts[k].proxy != "" && hosts[k].proxy !in c.proxyTargets ==> hosts[k].proxy in c.proxyIds
  {
    PreparedAt(c, hosts, k);
    hide PrepareHosts, Image;
  }

  /** In the merged graph the entry at an imported host's target is that host: its name, and
      for jump and proxy nothing if it had none, else the target of the package's entry with
      that id if there is one, else the entry with that id that was there. */
  lemma {:induction false} ImportedHostLeads(valid: Identity -> bool, compatible: string -> bool, existing: Existing, package: Package, k: nat)
    requires Readable(valid, existing, package) && k < |package.hosts|
    ensures var (hostTargets, proxyTargets) := Targets(existing, package);
      var before := Before(existing, compatible);
      var after := Merged(before, Prepared(valid, existing, package));
      var h := package.hosts[k];
      && h.id in hostTargets && hostTargets[h.id] in after.hosts
      && var e := after.hosts[hostTargets[h.id]];
         && e.id == hostTargets[h.id] && e.name == h.name
         && e.jump == (if h.jump == "" then "" else if h.jump in hostTargets then hostTargets[h.jump] else h.jump)
         && e.proxy == (if h.proxy == "" then "" else if h.proxy in proxyTargets then proxyTargets[h.proxy] else h.proxy)
         && (h.jump != "" && h.jump !in hostTargets ==> h.jump in before.hosts)
         && (h.proxy != "" && h.proxy !in proxyTargets ==> h.proxy in before.proxies)
         && (forall j :: 0 <= j < |package.hosts| && package.hosts[j].id == h.jump != "" ==>
               h.jump in hostTargets && e.jump == hostTargets[package.hosts[j].id])
  {
    ContextKeys(existing, package);
    var c := ImportContext(existing, package);
    var prepared := Prepared(valid, existing, package);
    assert prepared.hosts == PrepareHosts(c, package.hosts).value;
    assert c.hostIds == Image(HostId, existing.hosts) && c.proxyIds == Image(ProxyId, existing.proxies);
    var h := package.hosts[k];
    hide Readable, Prepared, TargetMap, HostIdentities, ProxyIdentities, PrepareHosts, MergeHosts, MergeProxies, Image, Distinct;
    WrittenIdsDiffer(valid, existing, package);
    PreparedIs(c, package.hosts, k);
    MergedKeys(existing, compatible, prepared);
    LastOfItsId(Before(existing, compatible).hosts, prepared.hosts, k);
    forall j | 0 <= j < |package.hosts| && package.hosts[j].id == h.jump != "" ensures h.jump in c.hostTargets {
      ImageHas(HostId, package.hosts, j);
    }
  }

  /** And a reference is given up only if an entry it may lead to has an empty id. */
  lemma {:induction false} NoReferenceIsGivenUp(valid: Identity -> bool, compatible: string -> bool, existing: Existing, package: Package, k: nat)
    requires Readable(valid, existing, package) && k < |package.hosts|
    requires forall item: Identity :: valid(item) ==> item.id != ""
    requires "" !in Before(existing, compatible).hosts && "" !in Before(existing, compatible).proxies
    ensures var (hostTargets, _) := Targets(existing, package);
      var after := Merged(Before(existing, compatible), Prepared(valid, existing, package));
      && package.hosts[k].id in hostTargets && hostTargets[package.hosts[k].id] in after.hosts
      && (after.hosts[hostTargets[package.hosts[k].id]].jump == "" <==> package.hosts[k].jump == "")
      && (after.hosts[hostTargets[package.hosts[k].id]].proxy == "" <==> package.hosts[k].proxy == "")
  {
    assert Acceptable(valid, HostIdentities(existing.hosts), HostIdentities(package.hosts));
    assert Acceptable(valid, ProxyIdentities(existing.proxies), ProxyIdentities(package.proxies));
    hide *;
    IdentitiesKeepIds(existing.hosts, existing.proxies);
    MergedKeys(existing, compatible, Package([], []));
    ImportedHostLeads(valid, compatible, existing, package, k);
    var h := package.hosts[k];
    TargetsAreNamed(valid, HostIdentities(existing.hosts), HostIdentities(package.hosts), h.jump);
    TargetsAreNamed(valid, ProxyIdentities(existing.proxies), ProxyIdentities(package.proxies), h.proxy);
    TargetsOf(existing, package);
  }

  lemma TargetsOf(existing: Existing, package: Package)
    ensures Targets(existing, package).0 == TargetMap(HostIdentities(existing.hosts), HostIdentities(package.hosts))
    ensures Targets(existing, package).1 == TargetMap(ProxyIdentities(existing.proxies), ProxyIdentities(package.proxies))
  {
  }

  lemma {:induction false} ByNameIsThere(existing: seq<Identity>, name: string)
    ensures ByName(existing, name).Some? ==> ByName(existing, name).value in Image(IdOf, existing)
  {
    if existing != [] { ByNameIsThere(Front(existing), name); }
  }

  lemma {:induction false} TargetsAreNamed(valid: Identity -> bool, existing: seq<Identity>, source: seq<Identity>, id: string)
    requires Acceptable(valid, existing, source)
    requires (forall item: Identity :: valid(item) ==> item.id != "") && "" !in Image(IdOf, existing)
    ensures id in TargetMap(existing, source) ==> TargetMap(existing, source)[id] != ""
  {
    if id in TargetMap(existing, source) {
      AcceptableExactly(valid, existing, source);
      TargetMapKeys(existing, source);
      var k := ImageIndex(IdOf, source, id);
      TargetMapAt(existing, source, k);
      hide TargetMap, Acceptable, Image, ByName;
      ByNameIsThere(existing, source[k].name);
      assert valid(source[k]);
    }
  }

  /** Likewise for an imported proxy. */
  lemma {:induction false} ImportedProxyIsThere(valid: Identity -> bool, compatible: string -> bool, existing: Existing, package: Package, k: nat)
    requires Readable(valid, existing, package) && k < |package.proxies|
    ensures var (_, proxyTargets) := Targets(existing, package);
      var after := Merged(Before(existing, compatible), Prepared(valid, existing, package));
      var p := package.proxies[k];
      && p.id in proxyTargets && proxyTargets[p.id] in after.proxies
      && after.proxies[proxyTargets[p.id]] == Proxy(proxyTargets[p.id], p.name, p.url)
  {
    ContextKeys(existing, package);
    var c := ImportContext(existing, package);
    var prepared := Prepared(valid, existing, package);
    assert prepared.proxies == PrepareProxies(c.proxyTargets, package.proxies);
    hide Readable, Prepared, TargetMap, HostIdentities, ProxyIdentities, PrepareProxies, MergeHosts, MergeProxies, Image, Distinct;
    WrittenIdsDiffer(valid, existing, package);
    PreparedProxyAt(c.proxyTargets, package.proxies, k);
    LastProxyOfItsId(Before(existing, compatible).proxies, prepared.proxies, k);
  }
}
