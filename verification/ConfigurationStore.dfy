/** The transaction that writes an imported package. The tables hold more than the snapshot an
    import is checked against: hosts made for workspaces are hidden from it, but share the ids
    and the unique names of the hosts table. */
module ConfigurationStore {
  import opened Wrappers
  import opened HostGraph
  import opened ConfigurationImport

  datatype WriteError = BelongsToWorkspace | NameTaken | DanglingReference

  // ---------- upserts against a table with unique names ----------

  /** The constraint on names fires: another row has the name. */
  ghost predicate Taken(names: map<string, string>, row: Identity) {
    exists other :: other in names && names[other] == row.name && other != row.id
  }

  ghost function Upsert(names: map<string, string>, hidden: set<string>, row: Identity): Result<map<string, string>, WriteError> {
    if row.id in names && row.id in hidden then Err(BelongsToWorkspace)
    else if Taken(names, row) then Err(NameTaken)
    else Ok(names[row.id := row.name])
  }

  ghost function UpsertAll(names: map<string, string>, hidden: set<string>, rows: seq<Identity>): Result<map<string, string>, WriteError> {
    if rows == [] then Ok(names)
    else
      var earlier := UpsertAll(names, hidden, Front(rows));
      if earlier.Err? then earlier else Upsert(earlier.value, hidden, Last(rows))
  }

  lemma {:induction false} UpsertedArePut(names: map<string, string>, hidden: set<string>, rows: seq<Identity>)
    requires UpsertAll(names, hidden, rows).Ok?
    ensures UpsertAll(names, hidden, rows).value == Put(names, rows)
  {
    if rows != [] {
      UpsertedArePut(names, hidden, Front(rows));
      hide Taken;
    }
  }

  lemma {:induction false} FirstErrorStays(names: map<string, string>, hidden: set<string>, rows: seq<Identity>, k: nat)
    requires k <= |rows| && UpsertAll(names, hidden, rows[..k]).Err?
    ensures UpsertAll(names, hidden, rows) == UpsertAll(names, hidden, rows[..k])
  {
    hide Taken;
    if k < |rows| {
      assert Front(rows)[..k] == rows[..k];
      FirstErrorStays(names, hidden, Front(rows), k);
    } else {
      assert rows[..k] == rows;
    }
  }

  // ---------- when the upserts of an acceptable list go through ----------

  /** The rows that are not hidden are those of the snapshot, each with an id of its own. */
  ghost predicate Shows(names: map<string, string>, hidden: set<string>, existing: seq<Identity>) {
    && hidden <= names.Keys
    && Distinct(IdOf, existing)
    && Table(existing) == names - hidden
  }

  ghost predicate Clear(names: map<string, string>, hidden: set<string>, row: Identity)
    requires hidden <= names.Keys
  {
    row.id !in hidden && forall h :: h in hidden ==> names[h] != row.name
  }

  lemma {:induction false} TableAt(existing: seq<Identity>, k: nat)
    requires Distinct(IdOf, existing) && k < |existing|
    ensures existing[k].id in Table(existing) && Table(existing)[existing[k].id] == existing[k].name
  {
    if k < |existing| - 1 {
      assert IdOf(existing[k]) != IdOf(existing[|existing| - 1]);
      DistinctUnfolds(IdOf, existing);
      TableAt(Front(existing), k);
    }
  }

  lemma {:induction false} ShownNamesAreDistinct(names: map<string, string>, hidden: set<string>, existing: seq<Identity>)
    requires Shows(names, hidden, existing) && NamesUnique(names)
    ensures Distinct(NameOf, existing)
  {
    hide Table;
    forall j, k | 0 <= j < k < |existing| ensures NameOf(existing[j]) != NameOf(existing[k]) {
      TableAt(existing, j);
      TableAt(existing, k);
      assert IdOf(existing[j]) != IdOf(existing[k]);
    }
  }

  /** A row of the snapshot as left so far that has the name belongs to the entry that is replaced. */
  lemma {:induction false} NameIsItsOwn(valid: Identity -> bool, existing: seq<Identity>, source: seq<Identity>, id: string)
    requires Distinct(NameOf, existing) && source != [] && Acceptable(valid, existing, source)
    requires id in Upserted(existing, Front(source)) && Upserted(existing, Front(source))[id] == Last(source).name
    ensures id == Target(existing, Last(source))
  {
    assert Passes(valid, existing, Front(source), Last(source));
    hide Acceptable, Image, Table, Target;
    UpsertedHolds(existing, Front(source), id);
    var k := TableHolds(existing, id);
    ByNameFinds(existing, k);
  }

  /** The table after some upserts: the snapshot's rows as left by them, the hidden rows as before. */
  ghost predicate Holds(names: map<string, string>, hidden: set<string>, shown: map<string, string>, now: map<string, string>)
    requires hidden <= names.Keys
  {
    && now - hidden == shown && NamesUnique(now)
    && forall h :: h in hidden ==> h in now && now[h] == names[h]
  }

  lemma {:induction false} UpsertGoesThroughExactly(names: map<string, string>, hidden: set<string>, shown: map<string, string>,
                                                    now: map<string, string>, row: Identity)
    requires hidden <= names.Keys && Holds(names, hidden, shown, now)
    requires forall id :: id in shown && shown[id] == row.name ==> id == row.id
    ensures Upsert(now, hidden, row).Ok? <==> Clear(names, hidden, row)
    ensures Upsert(now, hidden, row).Ok? ==> Holds(names, hidden, shown[row.id := row.name], Upsert(now, hidden, row).value)
  {
    forall id | id in now && id !in hidden ensures id in shown && shown[id] == now[id] {
      assert id in now - hidden;
    }
    if !Clear(names, hidden, row) {
      if row.id !in hidden {
        var h :| h in hidden && names[h] == row.name;
        assert h in now && now[h] == row.name && h != row.id;
      }
    } else {
      forall other | other in now && now[other] == row.name ensures other == row.id {
      }
    }
  }

  /** All upserts of an acceptable list go through if and only if none of its targets is a
      hidden row and none of its names is a hidden row's; then names are unique again, the
      hidden rows are as before and the others are what the import reckoned with. */
  lemma {:induction false} UpsertsGoThroughExactly(valid: Identity -> bool, names: map<string, string>, hidden: set<string>,
                                                   existing: seq<Identity>, source: seq<Identity>)
    requires Shows(names, hidden, existing) && NamesUnique(names) && Acceptable(valid, existing, source)
    ensures var result := UpsertAll(names, hidden, Written(existing, source));
      && (result.Ok? <==> forall k :: 0 <= k < |source| ==>
            Clear(names, hidden, Identity(Target(existing, source[k]), source[k].name)))
      && (result.Ok? ==> Holds(names, hidden, Upserted(existing, source), result.value))
    decreases |source|
  {
    hide Clear, Holds, Target, Table, NamesUnique, Upsert, Acceptable, Distinct;
    if source == [] {
      HoldsAtFirst(names, hidden, existing);
    } else {
      var front, last := Front(source), Last(source);
      var row := Identity(Target(existing, last), last.name);
      PrefixIsAcceptable(valid, existing, source, |source| - 1);
      UpsertsGoThroughExactly(valid, names, hidden, existing, front);
      SnocParts(Written(existing, front), row);
      assert forall k :: 0 <= k < |source| - 1 ==> source[k] == front[k];
      var earlier := UpsertAll(names, hidden, Written(existing, front));
      if earlier.Ok? {
        ShownNamesAreDistinct(names, hidden, existing);
        forall id | id in Upserted(existing, front) && Upserted(existing, front)[id] == row.name ensures id == row.id {
          NameIsItsOwn(valid, existing, source, id);
        }
        UpsertGoesThroughExactly(names, hidden, Upserted(existing, front), earlier.value, row);
      }
    }
  }

  lemma HoldsAtFirst(names: map<string, string>, hidden: set<string>, existing: seq<Identity>)
    requires Shows(names, hidden, existing) && NamesUnique(names)
    ensures Holds(names, hidden, Upserted(existing, []), names)
  {
  }

  // ---------- the transaction ----------

  predicate Refers(h: Host, hosts: map<string, Host>, proxies: map<string, Proxy>) { RefersWithin(h, hosts.Keys, proxies.Keys) }

  /** Why a package is not written, if it is not. */
  ghost function Failure(proxies: map<string, Proxy>, hosts: map<string, Host>, workspaces: set<string>, package: Package): Option<WriteError> {
    var writtenProxies := UpsertAll(ProxyNames(proxies), {}, ProxyIdentities(package.proxies));
    var writtenHosts := UpsertAll(HostNames(hosts), workspaces, HostIdentities(package.hosts));
    if writtenProxies.Err? then Some(writtenProxies.error)
    else if writtenHosts.Err? then Some(writtenHosts.error)
    else if forall k :: 0 <= k < |package.hosts| ==>
      Refers(package.hosts[k], MergeHosts(hosts, package.hosts), MergeProxies(proxies, package.proxies)) then None
    else Some(DanglingReference)
  }

  /** The proxies are upserted first, then the hosts, then the references are looked up in what
      both make of the tables; the first error is the one reported. */
  lemma {:induction false} FailureExactly(proxies: map<string, Proxy>, hosts: map<string, Host>, workspaces: set<string>, package: Package)
    ensures var newProxies := UpsertAll(ProxyNames(proxies), {}, ProxyIdentities(package.proxies));
      var newHosts := UpsertAll(HostNames(hosts), workspaces, HostIdentities(package.hosts));
      var failure := Failure(proxies, hosts, workspaces, package);
      && (newProxies.Err? ==> failure == Some(newProxies.error))
      && (newProxies.Ok? && newHosts.Err? ==> failure == Some(newHosts.error))
      && (newProxies.Ok? && newHosts.Ok? && failure.Some? ==> failure.value == DanglingReference)
      && (failure.None? <==>
            && newProxies.Ok? && newHosts.Ok?
            && forall h :: h in package.hosts ==>
                 && (h.jump == "" || h.jump in MergeHosts(hosts, package.hosts))
                 && (h.proxy == "" || h.proxy in MergeProxies(proxies, package.proxies)))
  {
    hide UpsertAll, MergeHosts, MergeProxies, HostNames, ProxyNames, HostIdentities, ProxyIdentities;
  }

  class Store {
    var proxies: map<string, Proxy>
    var hosts: map<string, Host>
    /** Ids of the hosts made for workspaces. */
    var workspaces: set<string>

    /** Everything is written or, after an error, nothing. */
    method ApplyConfiguration(package: Package) returns (error: Option<WriteError>)
      modifies this
      ensures error == Failure(old(proxies), old(hosts), old(workspaces), package)
      ensures workspaces == old(workspaces)
      ensures proxies == if error.None? then MergeProxies(old(proxies), package.proxies) else old(proxies)
      ensures hosts == if error.None? then MergeHosts(old(hosts), package.hosts) else old(hosts)
    {
      hide UpsertAll, MergeHosts, MergeProxies, HostNames, ProxyNames, HostIdentities, ProxyIdentities, RefersWithin;
      var newProxies, proxyError := UpsertProxies(proxies, package.proxies);
      if proxyError.Some? { return proxyError; }
      var newHosts, hostError := UpsertHosts(hosts, workspaces, package.hosts);
      if hostError.Some? { return hostError; }
      for k := 0 to |package.hosts|
        invariant forall j :: 0 <= j < k ==> Refers(package.hosts[j], newHosts, newProxies)
      {
        if !Refers(package.hosts[k], newHosts, newProxies) { return Some(DanglingReference); }
      }
      proxies, hosts := newProxies, newHosts;
      error := None;
    }
  }

  function ErrorOf<T>(result: Result<T, WriteError>): Option<WriteError> { if result.Err? then Some(result.error) else None }

  lemma {:induction false} HostIdentitiesOfPrefix(hosts: seq<Host>, k: nat)
    requires k <= |hosts|
    ensures |HostIdentities(hosts)| == |hosts| && HostIdentities(hosts[..k]) == HostIdentities(hosts)[..k]
  {
    if k < |hosts| {
      HostIdentitiesOfPrefix(Front(hosts), k);
      assert Front(hosts)[..k] == hosts[..k];
    } else {
      assert hosts[..k] == hosts;
      if hosts != [] { HostIdentitiesOfPrefix(Front(hosts), 0); }
    }
  }

  lemma {:induction false} ProxyIdentitiesOfPrefix(proxies: seq<Proxy>, k: nat)
    requires k <= |proxies|
    ensures |ProxyIdentities(proxies)| == |proxies| && ProxyIdentities(proxies[..k]) == ProxyIdentities(proxies)[..k]
  {
    if k < |proxies| {
      ProxyIdentitiesOfPrefix(Front(proxies), k);
      assert Front(proxies)[..k] == proxies[..k];
    } else {
      assert proxies[..k] == proxies;
      if proxies != [] { ProxyIdentitiesOfPrefix(Front(proxies), 0); }
    }
  }

  lemma {:induction false} NextUpsert(names: map<string, string>, hidden: set<string>, rows: seq<Identity>, k: nat, row: Identity, now: map<string, string>)
    requires k < |rows| && UpsertAll(names, hidden, rows[..k]) == Ok(now) && rows[..k + 1] == rows[..k] + [row]
    ensures UpsertAll(names, hidden, rows[..k + 1]) == Upsert(now, hidden, row)
    ensures Upsert(now, hidden, row).Err? ==> UpsertAll(names, hidden, rows) == Upsert(now, hidden, row)
  {
    SnocParts(rows[..k], row);
    hide Upsert;
    if Upsert(now, hidden, row).Err? { FirstErrorStays(names, hidden, rows, k + 1); }
  }

  lemma {:induction false} HostUpsert(names: map<string, string>, workspaces: set<string>, before: map<string, Host>, more: seq<Host>, k: nat)
    requires k < |more|
    requires UpsertAll(names, workspaces, HostIdentities(more[..k])) == Ok(HostNames(MergeHosts(before, more[..k])))
    ensures var now := HostNames(MergeHosts(before, more[..k])); var row := HostIdentity(more[k]);
      && UpsertAll(names, workspaces, HostIdentities(more[..k + 1])) == Upsert(now, workspaces, row)
      && (Upsert(now, workspaces, row).Err? ==> UpsertAll(names, workspaces, HostIdentities(more)) == Upsert(now, workspaces, row))
    ensures MergeHosts(before, more[..k + 1]) == MergeHosts(before, more[..k])[more[k].id := more[k]]
  {
    PrefixStep(more, k);
    SnocParts(HostIdentities(more[..k]), HostIdentity(more[k]));
    assert HostIdentities(more[..k + 1]) == HostIdentities(more[..k]) + [HostIdentity(more[k])];
    hide Upsert, UpsertAll, HostNames;
    HostIdentitiesOfPrefix(more, k);
    HostIdentitiesOfPrefix(more, k + 1);
    NextUpsert(names, workspaces, HostIdentities(more), k, HostIdentity(more[k]), HostNames(MergeHosts(before, more[..k])));
  }

  lemma {:induction false} ProxyUpsert(names: map<string, string>, before: map<string, Proxy>, more: seq<Proxy>, k: nat)
    requires k < |more|
    requires UpsertAll(names, {}, ProxyIdentities(more[..k])) == Ok(ProxyNames(MergeProxies(before, more[..k])))
    ensures var now := ProxyNames(MergeProxies(before, more[..k])); var row := ProxyIdentity(more[k]);
      && UpsertAll(names, {}, ProxyIdentities(more[..k + 1])) == Upsert(now, {}, row)
      && (Upsert(now, {}, row).Err? ==> UpsertAll(names, {}, ProxyIdentities(more)) == Upsert(now, {}, row))
    ensures MergeProxies(before, more[..k + 1]) == MergeProxies(before, more[..k])[more[k].id := more[k]]
  {
    PrefixStep(more, k);
    SnocParts(ProxyIdentities(more[..k]), ProxyIdentity(more[k]));
    assert ProxyIdentities(more[..k + 1]) == ProxyIdentities(more[..k]) + [ProxyIdentity(more[k])];
    hide Upsert, UpsertAll, ProxyNames;
    ProxyIdentitiesOfPrefix(more, k);
    ProxyIdentitiesOfPrefix(more, k + 1);
    NextUpsert(names, {}, ProxyIdentities(more), k, ProxyIdentity(more[k]), ProxyNames(MergeProxies(before, more[..k])));
  }

  method UpsertProxies(before: map<string, Proxy>, more: seq<Proxy>) returns (after: map<string, Proxy>, error: Option<WriteError>)
    ensures error == ErrorOf(UpsertAll(ProxyNames(before), {}, ProxyIdentities(more)))
    ensures error.None? ==> after == MergeProxies(before, more)
  {
    after := before;
    ghost var names := ProxyNames(before);
    for k := 0 to |more|
      invariant after == MergeProxies(before, more[..k])
      invariant UpsertAll(names, {}, ProxyIdentities(more[..k])) == Ok(ProxyNames(after))
    {
      var proxy := more[k];
      ProxyUpsert(names, before, more, k);
      TakenAmongProxies(after, proxy);
      hide UpsertAll, Taken, ProxyNames, MergeProxies, ProxyIdentities;
      if exists other :: other in after && after[other].name == proxy.name && other != proxy.id {
        return after, Some(NameTaken);
      }
      after := after[proxy.id := proxy];
    }
    assert more[..|more|] == more;
    error := None;
  }

  method UpsertHosts(before: map<string, Host>, workspaces: set<string>, more: seq<Host>)
    returns (after: map<string, Host>, error: Option<WriteError>)
    ensures error == ErrorOf(UpsertAll(HostNames(before), workspaces, HostIdentities(more)))
    ensures error.None? ==> after == MergeHosts(before, more)
  {
    after := before;
    ghost var names := HostNames(before);
    for k := 0 to |more|
      invariant after == MergeHosts(before, more[..k])
      invariant UpsertAll(names, workspaces, HostIdentities(more[..k])) == Ok(HostNames(after))
    {
      var host := more[k];
      HostUpsert(names, workspaces, before, more, k);
      TakenAmongHosts(after, host);
      hide UpsertAll, Taken, HostNames, MergeHosts, HostIdentities;
      if host.id in after && host.id in workspaces { return after, Some(BelongsToWorkspace); }
      if exists other :: other in after && after[other].name == host.name && other != host.id {
        return after, Some(NameTaken);
      }
      after := after[host.id := host];
    }
    assert more[..|more|] == more;
    error := None;
  }

  lemma {:induction false} TakenAmongHosts(hosts: map<string, Host>, h: Host)
    ensures Taken(HostNames(hosts), HostIdentity(h)) <==>
      exists other :: other in hosts && hosts[other].name == h.name && other != h.id
    ensures HostNames(hosts[h.id := h]) == HostNames(hosts)[h.id := h.name]
    ensures h.id in HostNames(hosts) <==> h.id in hosts
  {
    if other :| other in hosts && hosts[other].name == h.name && other != h.id {
      assert other in HostNames(hosts) && HostNames(hosts)[other] == h.name;
    }
  }

  lemma {:induction false} TakenAmongProxies(proxies: map<string, Proxy>, p: Proxy)
    ensures Taken(ProxyNames(proxies), ProxyIdentity(p)) <==>
      exists other :: other in proxies && proxies[other].name == p.name && other != p.id
    ensures ProxyNames(proxies[p.id := p]) == ProxyNames(proxies)[p.id := p.name]
  {
    if other :| other in proxies && proxies[other].name == p.name && other != p.id {
      assert other in ProxyNames(proxies) && ProxyNames(proxies)[other] == p.name;
    }
  }

  // ---------- when an import that passed its checks is written ----------

  /** What an import is checked against: all proxies and the hosts that are not workspaces'. */
  ghost predicate Snapshot(proxies: map<string, Proxy>, hosts: map<string, Host>, workspaces: set<string>, existing: Existing) {
    && workspaces <= hosts.Keys
    && Distinct(HostId, existing.hosts) && MergeHosts(map[], existing.hosts) == hosts - workspaces
    && Distinct(ProxyId, existing.proxies) && MergeProxies(map[], existing.proxies) == proxies
  }

  lemma {:induction false} HostIdsDistinct(hosts: seq<Host>)
    requires Distinct(HostId, hosts)
    ensures Distinct(IdOf, HostIdentities(hosts))
  {
    HostIdentitiesOfPrefix(hosts, 0);
    hide HostIdentities;
    forall j, k | 0 <= j < k < |hosts| ensures IdOf(HostIdentities(hosts)[j]) != IdOf(HostIdentities(hosts)[k]) {
      IdentityOfHost(hosts, j);
      IdentityOfHost(hosts, k);
      assert HostId(hosts[j]) != HostId(hosts[k]);
    }
  }

  lemma {:induction false} ProxyIdsDistinct(proxies: seq<Proxy>)
    requires Distinct(ProxyId, proxies)
    ensures Distinct(IdOf, ProxyIdentities(proxies))
  {
    ProxyIdentitiesOfPrefix(proxies, 0);
    hide ProxyIdentities;
    forall j, k | 0 <= j < k < |proxies| ensures IdOf(ProxyIdentities(proxies)[j]) != IdOf(ProxyIdentities(proxies)[k]) {
      IdentityOfProxy(proxies, j);
      IdentityOfProxy(proxies, k);
      assert ProxyId(proxies[j]) != ProxyId(proxies[k]);
    }
  }

  lemma NamesWithout(hosts: map<string, Host>, workspaces: set<string>)
    ensures HostNames(hosts - workspaces) == HostNames(hosts) - workspaces
    ensures HostNames(map[]) == map[] && ProxyNames(map[]) == map[]
    ensures HostNames(hosts).Keys == hosts.Keys
  {
  }

  lemma {:induction false} HostsAreShown(proxies: map<string, Proxy>, hosts: map<string, Host>, workspaces: set<string>, existing: Existing)
    requires Snapshot(proxies, hosts, workspaces, existing)
    ensures Shows(HostNames(hosts), workspaces, HostIdentities(existing.hosts))
  {
    hide Table, HostNames, Put, Distinct, MergeHosts, MergeProxies, HostIdentities;
    NamesWithout(hosts, workspaces);
    HostIdsDistinct(existing.hosts);
    HostNamesPut(map[], existing.hosts);
    TableIsPut(HostIdentities(existing.hosts));
  }

  lemma {:induction false} ProxiesAreShown(proxies: map<string, Proxy>, hosts: map<string, Host>, workspaces: set<string>, existing: Existing)
    requires Snapshot(proxies, hosts, workspaces, existing)
    ensures Shows(ProxyNames(proxies), {}, ProxyIdentities(existing.proxies))
  {
    hide Table, ProxyNames, Put, Distinct, MergeHosts, MergeProxies, ProxyIdentities;
    NamesWithout(map[], {});
    ProxyIdsDistinct(existing.proxies);
    ProxyNamesPut(map[], existing.proxies);
    TableIsPut(ProxyIdentities(existing.proxies));
    assert ProxyNames(proxies) - {} == ProxyNames(proxies);
  }

  lemma {:induction false} MergeBesideHidden(hosts: map<string, Host>, hidden: set<string>, more: seq<Host>)
    requires Image(HostId, more) !! hidden
    ensures MergeHosts(hosts, more) - hidden == MergeHosts(hosts - hidden, more)
  {
    if more != [] { MergeBesideHidden(hosts, hidden, Front(more)); }
  }

  /** The checks of the transaction on references never fail after an import's own. */
  lemma {:induction false} PreparedRefers(valid: Identity -> bool, proxies: map<string, Proxy>, hosts: map<string, Host>, workspaces: set<string>,
                                          existing: Existing, package: Package, k: nat)
    requires Snapshot(proxies, hosts, workspaces, existing) && Readable(valid, existing, package)
    requires k < |Prepared(valid, existing, package).hosts|
    ensures var prepared := Prepared(valid, existing, package);
      Refers(prepared.hosts[k], MergeHosts(hosts, prepared.hosts), MergeProxies(proxies, prepared.proxies))
  {
    hide Readable, Prepared, RefersWithin, Image, MergeHosts, MergeProxies, Distinct;
    var prepared := Prepared(valid, existing, package);
    PreparedRefersWithin(valid, existing, package, k);
    MergeHostsExtends(map[], existing.hosts);
    MergeProxiesExtends(map[], existing.proxies);
    MergeHostsExtends(hosts, prepared.hosts);
    MergeProxiesExtends(proxies, prepared.proxies);
    assert (hosts - workspaces).Keys <= hosts.Keys;
    Widened(prepared.hosts[k], Image(HostId, existing.hosts) + Touched(prepared).hosts,
            Image(ProxyId, existing.proxies) + Touched(prepared).proxies,
            MergeHosts(hosts, prepared.hosts).Keys, MergeProxies(proxies, prepared.proxies).Keys);
  }

  ghost predicate AllClear(hosts: map<string, Host>, workspaces: set<string>, more: seq<Host>)
    requires workspaces <= HostNames(hosts).Keys
  {
    forall k :: 0 <= k < |more| ==> Clear(HostNames(hosts), workspaces, HostIdentity(more[k]))
  }

  lemma {:induction false} ClearIsDisjoint(hosts: map<string, Host>, workspaces: set<string>, more: seq<Host>)
    requires workspaces <= HostNames(hosts).Keys && AllClear(hosts, workspaces, more)
    ensures Image(HostId, more) !! workspaces
  {
    hide Image;
    forall id | id in Image(HostId, more) ensures id !in workspaces {
      var k := ImageIndex(HostId, more, id);
      assert Clear(HostNames(hosts), workspaces, HostIdentity(more[k]));
    }
  }

  lemma {:induction false} HostUpsertsGoThroughExactly(valid: Identity -> bool, hosts: map<string, Host>, workspaces: set<string>,
                                                       existing: seq<Identity>, source: seq<Identity>, more: seq<Host>)
    requires Shows(HostNames(hosts), workspaces, existing) && NamesUnique(HostNames(hosts)) && Acceptable(valid, existing, source)
    requires HostIdentities(more) == Written(existing, source)
    ensures workspaces <= HostNames(hosts).Keys
    ensures UpsertAll(HostNames(hosts), workspaces, HostIdentities(more)).Ok? <==> AllClear(hosts, workspaces, more)
    ensures UpsertAll(HostNames(hosts), workspaces, HostIdentities(more)).Ok? ==> NamesUnique(HostNames(MergeHosts(hosts, more)))
  {
    hide Clear, Written, HostNames, UpsertAll, NamesUnique, HostIdentities, Target, Acceptable, Table, Distinct;
    UpsertsGoThroughExactly(valid, HostNames(hosts), workspaces, existing, source);
    HostNamesPut(hosts, more);
    HostIdentitiesOfPrefix(more, 0);
    forall k | 0 <= k < |source| ensures |more| == |source|
      ensures HostIdentity(more[k]) == Identity(Target(existing, source[k]), source[k].name)
    {
      WrittenAt(existing, source, k);
      IdentityOfHost(more, k);
    }
    WrittenLength(existing, source);
    var result := UpsertAll(HostNames(hosts), workspaces, HostIdentities(more));
    if result.Ok? { UpsertedArePut(HostNames(hosts), workspaces, HostIdentities(more)); }
  }

  lemma {:induction false} WrittenLength(existing: seq<Identity>, source: seq<Identity>)
    ensures |Written(existing, source)| == |source|
  {
    if source != [] { WrittenAt(existing, source, 0); }
  }

  /** Without hidden rows the upserts always go through. */
  lemma {:induction false} ProxyUpsertsGoThrough(valid: Identity -> bool, proxies: map<string, Proxy>,
                                                 existing: seq<Identity>, source: seq<Identity>, more: seq<Proxy>)
    requires Shows(ProxyNames(proxies), {}, existing) && NamesUnique(ProxyNames(proxies)) && Acceptable(valid, existing, source)
    requires ProxyIdentities(more) == Written(existing, source)
    ensures UpsertAll(ProxyNames(proxies), {}, ProxyIdentities(more)).Ok?
    ensures NamesUnique(ProxyNames(MergeProxies(proxies, more)))
  {
    hide Written, ProxyNames, UpsertAll, NamesUnique, ProxyIdentities, Target, Acceptable, Table, Distinct;
    UpsertsGoThroughExactly(valid, ProxyNames(proxies), {}, existing, source);
    ProxyNamesPut(proxies, more);
    UpsertedArePut(ProxyNames(proxies), {}, ProxyIdentities(more));
  }

  /** A readable package is written if and only if no imported host replaces a workspace's host
      or takes the name of one. Then the tables hold the graph that was checked beside the
      workspaces' hosts as they were, and names are unique again; otherwise the transaction
      fails at one of those hosts, never at a proxy and never at a reference. */
  lemma {:induction false} ImportIsWrittenExactly(valid: Identity -> bool, compatible: string -> bool, proxies: map<string, Proxy>,
                                                  hosts: map<string, Host>, workspaces: set<string>, existing: Existing, package: Package)
    requires Snapshot(proxies, hosts, workspaces, existing) && Readable(valid, existing, package)
    requires NamesUnique(HostNames(hosts)) && NamesUnique(ProxyNames(proxies))
    ensures var prepared := Prepared(valid, existing, package);
      var after := Merged(Before(existing, compatible), prepared);
      var failure := Failure(proxies, hosts, workspaces, prepared);
      && (failure.None? <==> AllClear(hosts, workspaces, prepared.hosts))
      && failure != Some(DanglingReference)
      && (failure.None? ==>
            && MergeHosts(hosts, prepared.hosts) - workspaces == after.hosts
            && (forall id :: id in workspaces ==> id in MergeHosts(hosts, prepared.hosts) && MergeHosts(hosts, prepared.hosts)[id] == hosts[id])
            && MergeProxies(proxies, prepared.proxies) == after.proxies
            && NamesUnique(HostNames(MergeHosts(hosts, prepared.hosts)))
            && NamesUnique(ProxyNames(MergeProxies(proxies, prepared.proxies))))
  {
    hide *;
    TransactionFailsExactly(valid, proxies, hosts, workspaces, existing, package);
    if AllClear(hosts, workspaces, Prepared(valid, existing, package).hosts) {
      TablesAfterImport(valid, compatible, proxies, hosts, workspaces, existing, package);
    }
  }

  lemma ReadableLists(valid: Identity -> bool, existing: Existing, package: Package)
    requires Readable(valid, existing, package)
    ensures Acceptable(valid, HostIdentities(existing.hosts), HostIdentities(package.hosts))
    ensures Acceptable(valid, ProxyIdentities(existing.proxies), ProxyIdentities(package.proxies))
  {
  }

  lemma {:induction false} TransactionFailsExactly(valid: Identity -> bool, proxies: map<string, Proxy>, hosts: map<string, Host>,
                                                   workspaces: set<string>, existing: Existing, package: Package)
    requires Snapshot(proxies, hosts, workspaces, existing) && Readable(valid, existing, package)
    requires NamesUnique(HostNames(hosts)) && NamesUnique(ProxyNames(proxies))
    ensures workspaces <= HostNames(hosts).Keys
    ensures var prepared := Prepared(valid, existing, package);
      var failure := Failure(proxies, hosts, workspaces, prepared);
      && (failure.None? <==> AllClear(hosts, workspaces, prepared.hosts))
      && failure != Some(DanglingReference)
      && (failure.None? ==> NamesUnique(HostNames(MergeHosts(hosts, prepared.hosts))))
      && NamesUnique(ProxyNames(MergeProxies(proxies, prepared.proxies)))
  {
    hide *;
    var prepared := Prepared(valid, existing, package);
    ReadableLists(valid, existing, package);
    PreparedAreWritten(valid, existing, package);
    HostsAreShown(proxies, hosts, workspaces, existing);
    ProxiesAreShown(proxies, hosts, workspaces, existing);
    HostUpsertsGoThroughExactly(valid, hosts, workspaces, HostIdentities(existing.hosts), HostIdentities(package.hosts), prepared.hosts);
    ProxyUpsertsGoThrough(valid, proxies, ProxyIdentities(existing.proxies), ProxyIdentities(package.proxies), prepared.proxies);
    forall k | 0 <= k < |prepared.hosts|
      ensures Refers(prepared.hosts[k], MergeHosts(hosts, prepared.hosts), MergeProxies(proxies, prepared.proxies))
    {
      PreparedRefers(valid, proxies, hosts, workspaces, existing, package, k);
    }
    FailsAtAHost(proxies, hosts, workspaces, prepared);
    UpsertsIgnoreReferences(HostNames(hosts), workspaces, HostIdentities(prepared.hosts));
  }

  lemma {:induction false} UpsertsIgnoreReferences(names: map<string, string>, hidden: set<string>, rows: seq<Identity>)
    ensures ErrorOf(UpsertAll(names, hidden, rows)) != Some(DanglingReference)
    ensures ErrorOf(UpsertAll(names, hidden, rows)).None? <==> UpsertAll(names, hidden, rows).Ok?
  {
    hide Taken;
    if rows != [] { UpsertsIgnoreReferences(names, hidden, Front(rows)); }
  }

  lemma {:induction false} TablesAfterImport(valid: Identity -> bool, compatible: string -> bool, proxies: map<string, Proxy>,
                                             hosts: map<string, Host>, workspaces: set<string>, existing: Existing, package: Package)
    requires Snapshot(proxies, hosts, workspaces, existing) && Readable(valid, existing, package)
    requires workspaces <= HostNames(hosts).Keys && AllClear(hosts, workspaces, Prepared(valid, existing, package).hosts)
    ensures var prepared := Prepared(valid, existing, package);
      var after := Merged(Before(existing, compatible), prepared);
      && MergeHosts(hosts, prepared.hosts) - workspaces == after.hosts
      && (forall id :: id in workspaces ==> id in MergeHosts(hosts, prepared.hosts) && MergeHosts(hosts, prepared.hosts)[id] == hosts[id])
      && MergeProxies(proxies, prepared.proxies) == after.proxies
  {
    assert MergeHosts(map[], existing.hosts) == hosts - workspaces && MergeProxies(map[], existing.proxies) == proxies;
    hide *;
    var prepared := Prepared(valid, existing, package);
    MergedHosts(Before(existing, compatible), prepared);
    BeforeHosts(existing, compatible);
    ClearIsDisjoint(hosts, workspaces, prepared.hosts);
    MergeBesideHidden(hosts, workspaces, prepared.hosts);
    HiddenStay(hosts, workspaces, prepared.hosts);
  }

  lemma FailsAtAHost(proxies: map<string, Proxy>, hosts: map<string, Host>, workspaces: set<string>, package: Package)
    requires UpsertAll(ProxyNames(proxies), {}, ProxyIdentities(package.proxies)).Ok?
    requires forall k :: 0 <= k < |package.hosts| ==>
      Refers(package.hosts[k], MergeHosts(hosts, package.hosts), MergeProxies(proxies, package.proxies))
    ensures Failure(proxies, hosts, workspaces, package)
         == ErrorOf(UpsertAll(HostNames(hosts), workspaces, HostIdentities(package.hosts)))
  {
  }

  lemma {:induction false} HiddenStay(hosts: map<string, Host>, workspaces: set<string>, more: seq<Host>)
    requires workspaces <= HostNames(hosts).Keys && Image(HostId, more) !! workspaces
    ensures forall id :: id in workspaces ==> id in MergeHosts(hosts, more) && MergeHosts(hosts, more)[id] == hosts[id]
  {
    MergeHostsExtends(hosts, more);
    hide MergeHosts, Image;
    assert HostNames(hosts).Keys == hosts.Keys;
  }

  const WORKSPACE := Host("workspace_25cf", "Workspace / src", "", "")
  const LIKE_IT := Host("h", "Workspace / src", "", "")

  lemma One<T>(x: T)
    ensures [x] != [] && Front([x]) == [] && Last([x]) == x
  {
  }

  lemma {:induction false} OneIdentity(h: Host)
    ensures HostIdentities([h]) == [HostIdentity(h)] && HostIdentities([]) == [] && ProxyIdentities([]) == []
  {
    One(h);
    assert [] + [HostIdentity(h)] == [HostIdentity(h)];
  }

  lemma {:induction false} OneIsAcceptable(valid: Identity -> bool, row: Identity)
    requires valid(row)
    ensures Acceptable(valid, [], [row]) && Acceptable(valid, [], [])
    ensures TargetMap([], [row]) == map[row.id := row.id] && TargetMap([], []) == map[]
  {
    One(row);
    assert ByName([], row.name) == None;
    assert Passes(valid, [], [], row);
  }

  lemma {:induction false} OneIsPrepared(c: Context, h: Host)
    requires h.jump == "" && h.proxy == "" && c.hostTargets == map[h.id := h.id]
    ensures Image(HostId, [h]) <= c.hostTargets.Keys && PrepareHosts(c, [h]) == Ok([h])
  {
    One(h);
    assert Image(HostId, []) == {} && PrepareHosts(c, []) == Ok([]);
    assert PrepareHost(c, h) == Ok(h);
    assert [] + [h] == [h];
  }

  lemma {:induction false} LikeItIsReadable(valid: Identity -> bool)
    requires valid(HostIdentity(LIKE_IT))
    ensures var existing, package := Existing([], []), Package([LIKE_IT], []);
      Readable(valid, existing, package) && Prepared(valid, existing, package) == package
  {
    var existing, package := Existing([], []), Package([LIKE_IT], []);
    OneIdentity(LIKE_IT);
    OneIsAcceptable(valid, HostIdentity(LIKE_IT));
    var c := ImportContext(existing, package);
    OneIsPrepared(c, LIKE_IT);
    assert PrepareProxies(c.proxyTargets, []) == [];
    hide Acceptable, HostIdentities, ProxyIdentities, TargetMap, PrepareHosts, PrepareProxies, Image, ImportContext;
    ContextCovers(existing, package);
  }

  lemma {:induction false} LikeItIsAccepted(compatible: string -> bool)
    ensures Accepted(Merged(Before(Existing([], []), compatible), Package([LIKE_IT], [])), Touched(Package([LIKE_IT], [])))
  {
    PrefixStep([LIKE_IT], 0);
    var g := Merged(Before(Existing([], []), compatible), Package([LIKE_IT], []));
    assert Front([LIKE_IT]) == [] && g.hosts == map["h" := LIKE_IT];
  }

  lemma {:induction false} LikeItIsTaken()
    ensures Failure(map[], map[WORKSPACE.id := WORKSPACE], {WORKSPACE.id}, Package([LIKE_IT], [])) == Some(NameTaken)
  {
    var names := HostNames(map[WORKSPACE.id := WORKSPACE]);
    var row := HostIdentity(LIKE_IT);
    assert WORKSPACE.id in names && names[WORKSPACE.id] == row.name && WORKSPACE.id != row.id && row.id !in names;
    OneIdentity(LIKE_IT);
    OneIsTaken(names, {WORKSPACE.id}, row, WORKSPACE.id);
    assert UpsertAll(ProxyNames(map[]), {}, []).Ok?;
    hide HostNames, HostIdentities, UpsertAll;
  }

  lemma {:induction false} OneIsTaken(names: map<string, string>, hidden: set<string>, row: Identity, other: string)
    requires row.id !in names && other in names && names[other] == row.name
    ensures UpsertAll(names, hidden, [row]) == Err(NameTaken)
  {
    One(row);
    assert UpsertAll(names, hidden, []) == Ok(names);
    assert Taken(names, row);
    hide Taken;
  }

  lemma {:induction false} WorkspaceIsHidden()
    ensures Snapshot(map[], map[WORKSPACE.id := WORKSPACE], {WORKSPACE.id}, Existing([], []))
    ensures NamesUnique(HostNames(map[WORKSPACE.id := WORKSPACE])) && NamesUnique(ProxyNames(map[]))
  {
    hide HostIdentities;
    assert map[WORKSPACE.id := WORKSPACE] - {WORKSPACE.id} == map[];
  }

  /** The snapshot hides the host of a workspace, so an import that names a new host like it
      passes every check of the import and is then refused by the database. */
  lemma {:induction false} WorkspaceNameIsRefused(valid: Identity -> bool, compatible: string -> bool)
    requires valid(Identity("h", "Workspace / src"))
    ensures var hosts, workspaces := map[WORKSPACE.id := WORKSPACE], {WORKSPACE.id};
      var existing, package := Existing([], []), Package([LIKE_IT], []);
      && Snapshot(map[], hosts, workspaces, existing) && NamesUnique(HostNames(hosts)) && NamesUnique(ProxyNames(map[]))
      && Readable(valid, existing, package)
      && Accepted(Merged(Before(existing, compatible), Prepared(valid, existing, package)), Touched(Prepared(valid, existing, package)))
      && Failure(map[], hosts, workspaces, Prepared(valid, existing, package)) == Some(NameTaken)
  {
    assert HostIdentity(LIKE_IT) == Identity("h", "Workspace / src");
    hide *;
    LikeItIsReadable(valid);
    LikeItIsAccepted(compatible);
    LikeItIsTaken();
    WorkspaceIsHidden();
  }
}
