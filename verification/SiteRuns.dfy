/** Reconcile, and runs of lifecycle operations (internal/site/provisioner.go). */
module SiteRuns {
  import opened Wrappers
  import D = Durable
  import R = SiteResources
  import Strings
  import opened SiteState
  import opened SiteHost
  import P = Provisioner

  // ---------- Reconcile ----------

  datatype Resource = DocumentRoot | CaddyConfig | PHPConfig | PHPRuntime

  datatype Drift =
    | Missing(siteID: string, resource: Resource)
    | Changed(siteID: string, resource: Resource, expected: Content, actual: Content)

  /** Paths whose status, or whose contents, cannot be read, for another reason than that they are missing. */
  datatype Unreadable = Unreadable(stat: set<Path>, contents: set<Path>)

  const NOTHING := Unreadable({}, {})

  function Absent(files: Files, path: Path, id: string, resource: Resource): seq<Drift> {
    if path in files then [] else [Missing(id, resource)]
  }

  /** Contents that cannot be read are passed over. */
  function Compared(files: Files, u: Unreadable, path: Path, id: string, resource: Resource,
                    expected: Content): seq<Drift> {
    if path in files && path !in u.contents && files[path] != expected
    then [Changed(id, resource, expected, files[path])] else []
  }

  function DriftsOf(s: Setup, files: Files, u: Unreadable, st: State): seq<Drift> {
    (if HasDocumentRoot(files, st.domain) then [] else [Missing(st.siteID, DocumentRoot)])
    + Absent(files, VhostPath(st), st.siteID, CaddyConfig)
    + Absent(files, PoolPath(s, st.version, st.user), st.siteID, PHPConfig)
    + Absent(files, Binary(st.version), st.siteID, PHPRuntime)
    + Compared(files, u, VhostPath(st), st.siteID, CaddyConfig, VhostOf(s, st))
    + Compared(files, u, PoolPath(s, st.version, st.user), st.siteID, PHPConfig, PoolOf(s, st))
  }

  /** One of the four resources has a status that cannot be read, which ends the whole reconciliation. */
  predicate Stuck(s: Setup, u: Unreadable, st: State) {
    Root(st.domain) in u.stat || VhostPath(st) in u.stat || PoolPath(s, st.version, st.user) in u.stat
        || Binary(st.version) in u.stat
  }

  function DriftsAlong(s: Setup, w: World, u: Unreadable, ids: seq<string>): seq<Drift>
    requires forall id <- ids :: id in w.states
  {
    if ids == [] then []
    else DriftsAlong(s, w, u, ids[..|ids| - 1]) + DriftsOf(s, w.files, u, w.states[ids[|ids| - 1]])
  }

  method ReconcileSite(s: Setup, files: Files, u: Unreadable, st: State) returns (drifts: Option<seq<Drift>>)
    ensures drifts == if Stuck(s, u, st) then None else Some(DriftsOf(s, files, u, st))
  {
    var caddyPath, phpPath := VhostPath(st), PoolPath(s, st.version, st.user);
    if Root(st.domain) in u.stat {
      return None;
    }
    var found := if HasDocumentRoot(files, st.domain) then [] else [Missing(st.siteID, DocumentRoot)];
    if caddyPath in u.stat {
      return None;
    }
    found := found + Absent(files, caddyPath, st.siteID, CaddyConfig);
    if phpPath in u.stat {
      return None;
    }
    found := found + Absent(files, phpPath, st.siteID, PHPConfig);
    if Binary(st.version) in u.stat {
      return None;
    }
    found := found + Absent(files, Binary(st.version), st.siteID, PHPRuntime);
    found := found + Compared(files, u, caddyPath, st.siteID, CaddyConfig, VhostOf(s, st));
    found := found + Compared(files, u, phpPath, st.siteID, PHPConfig, PoolOf(s, st));
    return Some(found);
  }

  /** What a report speaks of: the path of each resource of a site. */
  function PathOf(s: Setup, st: State, resource: Resource): Path {
    match resource
    case DocumentRoot => Root(st.domain)
    case CaddyConfig => if st.status.Suspended? then Disabled(st.domain) else Enabled(st.domain)
    case PHPConfig => PoolPath(s, st.version, st.user)
    case PHPRuntime => Binary(st.version)
  }

  /** The text that a configuration should have. */
  function ExpectedText(s: Setup, st: State, resource: Resource): Content
    requires resource.CaddyConfig? || resource.PHPConfig?
  {
    if resource.CaddyConfig? then Text(s.vhost(st.app, DomainsFor(st), st.domain, st.user))
    else Text(s.pool(st.user, st.domain, st.resources))
  }

  predicate IsAbsent(s: Setup, files: Files, st: State, resource: Resource) {
    if resource.DocumentRoot? then !HasDocumentRoot(files, st.domain) else PathOf(s, st, resource) !in files
  }

  lemma AbsentTells(files: Files, path: Path, id: string, resource: Resource, d: Drift)
    ensures d in Absent(files, path, id, resource) <==> d == Missing(id, resource) && path !in files
  {
  }

  lemma ComparedTells(files: Files, u: Unreadable, path: Path, id: string, resource: Resource, expected: Content,
      d: Drift)
    ensures d in Compared(files, u, path, id, resource, expected)
            <==> && path in files && path !in u.contents && files[path] != expected
                 && d == Changed(id, resource, expected, files[path])
  {
  }

  lemma InOneOfSix<T>(x: T, a: seq<T>, b: seq<T>, c: seq<T>, d: seq<T>, e: seq<T>, f: seq<T>)
    ensures x in a + b + c + d + e + f <==> x in a || x in b || x in c || x in d || x in e || x in f
  {
  }

  /** A report is made of what is said about the six things looked at. */
  lemma DriftIff(s: Setup, files: Files, u: Unreadable, st: State, d: Drift)
    ensures var vhost, pool := VhostPath(st), PoolPath(s, st.version, st.user);
            d in DriftsOf(s, files, u, st)
            <==> || (d == Missing(st.siteID, DocumentRoot) && !HasDocumentRoot(files, st.domain))
                 || (d == Missing(st.siteID, CaddyConfig) && vhost !in files)
                 || (d == Missing(st.siteID, PHPConfig) && pool !in files)
                 || (d == Missing(st.siteID, PHPRuntime) && Binary(st.version) !in files)
                 || d in Compared(files, u, vhost, st.siteID, CaddyConfig, VhostOf(s, st))
                 || d in Compared(files, u, pool, st.siteID, PHPConfig, PoolOf(s, st))
  {
    hide Absent, Compared, VhostOf, PoolOf, HasDocumentRoot, VhostPath, PoolPath;
    var id, vhost, pool := st.siteID, VhostPath(st), PoolPath(s, st.version, st.user);
    AbsentTells(files, vhost, id, CaddyConfig, d);
    AbsentTells(files, pool, id, PHPConfig, d);
    AbsentTells(files, Binary(st.version), id, PHPRuntime, d);
    InOneOfSix(d, if HasDocumentRoot(files, st.domain) then [] else [Missing(id, DocumentRoot)],
               Absent(files, vhost, id, CaddyConfig), Absent(files, pool, id, PHPConfig),
               Absent(files, Binary(st.version), id, PHPRuntime),
               Compared(files, u, vhost, id, CaddyConfig, VhostOf(s, st)),
               Compared(files, u, pool, id, PHPConfig, PoolOf(s, st)));
  }

  /** A resource is reported as missing exactly if it is absent. */
  lemma MissingIsTold(s: Setup, files: Files, u: Unreadable, st: State, resource: Resource)
    ensures Missing(st.siteID, resource) in DriftsOf(s, files, u, st) <==> IsAbsent(s, files, st, resource)
  {
    hide DriftsOf, VhostOf, PoolOf, HasDocumentRoot;
    DriftIff(s, files, u, st, Missing(st.siteID, resource));
  }

  /** The order of a report: what is missing, by resource, and then what has changed. */
  function RankOf(d: Drift): nat {
    if d.Changed? then if d.resource.CaddyConfig? then 4 else 5
    else if d.resource.DocumentRoot? then 0
    else if d.resource.CaddyConfig? then 1
    else if d.resource.PHPConfig? then 2
    else 3
  }

  ghost predicate Ranked(drifts: seq<Drift>, id: string, below: nat) {
    && (forall d <- drifts :: d.siteID == id && RankOf(d) < below)
    && (forall i, j | 0 <= i < j < |drifts| :: RankOf(drifts[i]) < RankOf(drifts[j]))
  }

  predicate AtMostOne(drifts: seq<Drift>, id: string, rank: nat) {
    drifts == [] || (|drifts| == 1 && drifts[0].siteID == id && RankOf(drifts[0]) == rank)
  }

  lemma RankedOneMore(drifts: seq<Drift>, id: string, below: nat, more: seq<Drift>)
    requires Ranked(drifts, id, below) && AtMostOne(more, id, below)
    ensures Ranked(drifts + more, id, below + 1)
  {
  }

  lemma SixAreRanked(id: string, a: seq<Drift>, b: seq<Drift>, c: seq<Drift>, d: seq<Drift>, e: seq<Drift>,
      f: seq<Drift>)
    requires AtMostOne(a, id, 0) && AtMostOne(b, id, 1) && AtMostOne(c, id, 2)
    requires AtMostOne(d, id, 3) && AtMostOne(e, id, 4) && AtMostOne(f, id, 5)
    ensures Ranked(a + b + c + d + e + f, id, 6)
  {
    NothingIsRanked(a, id);
    hide Ranked, AtMostOne;
    RankedOneMore([], id, 0, a);
    RankedOneMore(a, id, 1, b);
    RankedOneMore(a + b, id, 2, c);
    RankedOneMore(a + b + c, id, 3, d);
    RankedOneMore(a + b + c + d, id, 4, e);
    RankedOneMore(a + b + c + d + e, id, 5, f);
  }

  lemma NothingIsRanked(a: seq<Drift>, id: string)
    ensures Ranked([], id, 0) && [] + a == a
  {
  }

  /** A site's report speaks of that site alone, in a fixed order and of nothing twice. */
  lemma ReportIsOrdered(s: Setup, files: Files, u: Unreadable, st: State)
    ensures Ranked(DriftsOf(s, files, u, st), st.siteID, 6)
  {
    hide HasDocumentRoot, VhostPath, PoolPath, VhostOf, PoolOf, Ranked;
    SixAreRanked(st.siteID, if HasDocumentRoot(files, st.domain) then [] else [Missing(st.siteID, DocumentRoot)],
                 Absent(files, VhostPath(st), st.siteID, CaddyConfig),
                 Absent(files, PoolPath(s, st.version, st.user), st.siteID, PHPConfig),
                 Absent(files, Binary(st.version), st.siteID, PHPRuntime),
                 Compared(files, u, VhostPath(st), st.siteID, CaddyConfig, VhostOf(s, st)),
                 Compared(files, u, PoolPath(s, st.version, st.user), st.siteID, PHPConfig, PoolOf(s, st)));
  }

  /** A configuration is reported as changed, with both texts, exactly if it can be read and is not what the record
      says. */
  lemma ChangeIsTold(s: Setup, files: Files, u: Unreadable, st: State, resource: Resource, expected: Content,
      actual: Content)
    ensures Changed(st.siteID, resource, expected, actual) in DriftsOf(s, files, u, st)
            <==> && (resource.CaddyConfig? || resource.PHPConfig?)
                 && expected == ExpectedText(s, st, resource) != actual
                 && Lookup(files, PathOf(s, st, resource)) == Some(actual)
                 && PathOf(s, st, resource) !in u.contents
  {
    hide DriftsOf, HasDocumentRoot;
    DriftIff(s, files, u, st, Changed(st.siteID, resource, expected, actual));
  }

  /** Any of the four resources may end the reconciliation. */
  lemma StuckIff(s: Setup, u: Unreadable, st: State)
    ensures Stuck(s, u, st) <==> exists resource :: PathOf(s, st, resource) in u.stat
  {
    assert PathOf(s, st, DocumentRoot) == Root(st.domain) && PathOf(s, st, CaddyConfig) == VhostPath(st);
    assert PathOf(s, st, PHPConfig) == PoolPath(s, st.version, st.user);
    assert PathOf(s, st, PHPRuntime) == Binary(st.version);
  }

  /** The report of several sites is what is wrong with each of them. */
  lemma {:induction false} DriftsOfAll(s: Setup, w: World, u: Unreadable, ids: seq<string>, d: Drift)
    requires forall id <- ids :: id in w.states
    ensures d in DriftsAlong(s, w, u, ids) <==> exists id :: id in ids && d in DriftsOf(s, w.files, u, w.states[id])
  {
    hide DriftsOf;
    if ids != [] {
      var front, last := ids[..|ids| - 1], ids[|ids| - 1];
      DriftsOfAll(s, w, u, front, d);
      assert ids == front + [last];
      assert last in ids && forall id <- front :: id in ids;
    }
  }

  lemma SiteSilentIff(s: Setup, files: Files, st: State)
    ensures DriftsOf(s, files, NOTHING, st) == [] <==> Undrifted(s, files, st)
  {
  }

  /** Every site once, in order of its id; None if a status cannot be read. */
  method Reconcile(s: Setup, w: World, u: Unreadable) returns (drifts: Option<seq<Drift>>, ghost ids: seq<string>)
    ensures drifts == None <==> exists id :: id in w.states && Stuck(s, u, w.states[id])
    ensures Strings.Enumerates(ids, w.states.Keys)
    ensures drifts.Some? ==> drifts.value == DriftsAlong(s, w, u, ids)
    ensures u == NOTHING ==>
              drifts.Some? && (drifts.value == [] <==> forall id <- w.states :: Undrifted(s, w.files, w.states[id]))
  {
    hide DriftsOf, Undrifted, Stuck, NoneStuck;
    var sorted := Strings.SortedKeys(w.states.Keys);
    ids := sorted;
    var all: seq<Drift> := [];
    var i := 0;
    NothingSticks(s, w);
    assert sorted[..0] == [];
    while i < |sorted|
      invariant 0 <= i <= |sorted|
      invariant all == DriftsAlong(s, w, u, sorted[..i])
      invariant NoneStuck(s, w, u, sorted[..i])
    {
      assert sorted[i] in sorted;
      assert sorted[..i + 1][..i] == sorted[..i];
      var found := ReconcileSite(s, w.files, u, w.states[sorted[i]]);
      NoneStuckGrows(s, w, u, sorted[..i], sorted[i]);
      assert sorted[..i] + [sorted[i]] == sorted[..i + 1];
      if found == None {
        return None, ids;
      }
      all := all + found.value;
      i := i + 1;
    }
    drifts := Some(all);
    assert sorted[..|sorted|] == sorted;
    AllListed(s, w, u, sorted);
    if u == NOTHING {
      SilentIff(s, w, sorted);
    }
  }

  ghost predicate NoneStuck(s: Setup, w: World, u: Unreadable, ids: seq<string>) {
    forall id <- ids :: id in w.states && !Stuck(s, u, w.states[id])
  }

  lemma NothingSticks(s: Setup, w: World)
    ensures forall st: State :: !Stuck(s, NOTHING, st)
    ensures forall u: Unreadable :: NoneStuck(s, w, u, [])
  {
  }

  lemma NoneStuckGrows(s: Setup, w: World, u: Unreadable, ids: seq<string>, id: string)
    requires id in w.states
    ensures NoneStuck(s, w, u, ids + [id]) <==> NoneStuck(s, w, u, ids) && !Stuck(s, u, w.states[id])
  {
    assert id in ids + [id] && forall other <- ids :: other in ids + [id];
  }

  lemma AllListed(s: Setup, w: World, u: Unreadable, sorted: seq<string>)
    requires Strings.Enumerates(sorted, w.states.Keys) && NoneStuck(s, w, u, sorted)
    ensures forall id <- w.states :: id in sorted && !Stuck(s, u, w.states[id])
  {
    forall id | id in w.states ensures id in sorted && !Stuck(s, u, w.states[id]) {
      assert id in w.states.Keys;
    }
  }

  /** Reconcile has nothing to report exactly when every listed site has its four resources, as recorded. */
  lemma {:induction false} SilentIff(s: Setup, w: World, ids: seq<string>)
    requires forall id <- ids :: id in w.states
    ensures DriftsAlong(s, w, NOTHING, ids) == [] <==> forall id <- ids :: Undrifted(s, w.files, w.states[id])
  {
    hide DriftsOf, Undrifted;
    if ids != [] {
      var front, last := ids[..|ids| - 1], ids[|ids| - 1];
      SilentIff(s, w, front);
      SiteSilentIff(s, w.files, w.states[last]);
      assert ids == front + [last];
      assert last in ids && forall id <- front :: id in ids;
    }
  }

  // ---------- Runs ----------

  datatype Op =
    | Create(n: NewSite)
    | AddDomain(id: string, domain: string)
    | RemoveDomain(id: string, domain: string)
    | SetStatus(id: string, suspend: bool)
    | SetVersion(id: string, version: string, accepted: bool)
    | SetResources(id: string, resources: R.Resources)
    | Delete(id: string, confirmed: bool)

  /** An operation leaves the node alone, or has its effect. */
  ghost predicate Next(s: Setup, w: World, op: Op, w': World) {
    w' == w ||
    match op
    case Create(n) => GuardCreate(s, w, n) && w' == EffectCreate(s, w, n)
    case AddDomain(id, domain) => GuardDomains(w, id) && Free(w.states, domain) && w' == EffectAdd(s, w, id, domain)
    case RemoveDomain(id, domain) =>
      GuardDomains(w, id) && domain != w.states[id].domain && w' == EffectRemove(s, w, id, domain)
    case SetStatus(id, suspend) => GuardStatus(w, id, suspend) && w' == EffectStatus(w, id, suspend)
    case SetVersion(id, version, _) => GuardVersion(s, w, id, version) && w' == EffectVersion(s, w, id, version)
    case SetResources(id, r) => GuardResources(s, w, id, r) && w' == EffectResources(s, w, id, r)
    case Delete(id, _) => GuardDelete(s, w, id) && w' == EffectDelete(s, w, id)
  }

  lemma NextKeepsHealthy(s: Setup, w: World, op: Op, w': World)
    requires Healthy(s, w) && Next(s, w, op, w')
    ensures Healthy(s, w')
  {
    hide Healthy;
    if w' != w {
      match op
      case Create(n) => CreateKeepsHealthy(s, w, n);
      case AddDomain(id, domain) => DomainsKeepHealthy(s, w, id, Strings.Sort(DomainsFor(w.states[id]) + [domain]));
      case RemoveDomain(id, domain) => DomainsKeepHealthy(s, w, id, Dropping(DomainsFor(w.states[id]), domain));
      case SetStatus(id, suspend) => StatusKeepsHealthy(s, w, id, suspend);
      case SetVersion(id, version, _) => VersionKeepsHealthy(s, w, id, version);
      case SetResources(id, r) => ResourcesKeepHealthy(s, w, id, r);
      case Delete(id, _) => DeleteKeepsHealthy(s, w, id);
    }
  }

  lemma HealthyNodeHasNoDrift(s: Setup, w: World)
    requires Healthy(s, w)
    ensures Keyed(w.states) && OneVhostEach(w)
    ensures forall id <- w.states :: Undrifted(s, w.files, w.states[id])
  {
    forall id | id in w.states ensures Undrifted(s, w.files, w.states[id]) && OneVhost(w.files, w.states, id) {
      assert InPlace(s, w, w.states[id]);
      OneVhostPerSite(s, w, id);
    }
  }

  ghost predicate OneVhostEach(w: World) {
    forall id <- w.states :: OneVhost(w.files, w.states, id)
  }

  /** A node with PHP runtimes and no sites is healthy. */
  lemma FreshNodeIsHealthy(s: Setup, w: World)
    requires w.states == map[] && forall p <- w.files :: p.Binary? || p.Root?
    ensures Healthy(s, w)
  {
  }

  /** The node before and after each operation of a run. */
  ghost predicate Run(s: Setup, worlds: seq<World>, ops: seq<Op>) {
    |worlds| == |ops| + 1 && forall i | 0 <= i < |ops| :: Next(s, worlds[i], ops[i], worlds[i + 1])
  }

  /** Over every run, whatever fails and is rolled back, Reconcile finds no drift between operations. */
  lemma {:induction false} NoDriftInAnyRun(s: Setup, worlds: seq<World>, ops: seq<Op>, i: nat)
    requires Run(s, worlds, ops) && Healthy(s, worlds[0]) && i < |worlds|
    ensures Healthy(s, worlds[i])
    ensures forall id <- worlds[i].states :: Undrifted(s, worlds[i].files, worlds[i].states[id])
  {
    if i > 0 {
      NoDriftInAnyRun(s, worlds, ops, i - 1);
      NextKeepsHealthy(s, worlds[i - 1], ops[i - 1], worlds[i]);
    }
    HealthyNodeHasNoDrift(s, worlds[i]);
  }

  /** On a healthy node every operation of the provisioner is such a step, unless a save fails after its rename. */
  method Apply(p: P.Provisioner, op: Op) returns (ok: bool, ghost saved: Option<D.Outcome>)
    requires Healthy(p.s, p.Now())
    modifies p
    ensures saved != Some(D.Committed) ==> Next(p.s, old(p.Now()), op, p.Now())
    ensures p.NoHalfSave() ==> saved != Some(D.Committed)
    ensures !ok ==> p.files == old(p.files) && p.users == old(p.users)
    ensures !ok && saved != Some(D.Committed) ==> p.Now() == old(p.Now())
  {
    HealthyNodeHasNoDrift(p.s, p.Now());
    hide Healthy, Undrifted, GuardCreate, EffectCreate, EffectDomains, EffectAdd, EffectRemove, EffectStatus,
         EffectVersion, EffectResources, EffectDelete, SafeName;
    saved := None;
    match op
    case Create(n) => ok, saved := p.Create(n);
    case AddDomain(id, domain) => ok, saved := p.AddDomain(id, domain);
    case RemoveDomain(id, domain) => ok, saved := p.RemoveDomain(id, domain);
    case SetStatus(id, suspend) => ok, saved := p.SetSiteStatus(id, suspend);
    case SetVersion(id, version, accepted) =>
      NewPoolIsFree(p.s, p.Now(), id, version);
      ok, saved := p.SetPHPVersion(id, version, accepted);
    case SetResources(id, r) => ok, saved := p.SetResources(id, r);
    case Delete(id, confirmed) => ok := p.Delete(id, confirmed);
  }

  lemma NewPoolIsFree(s: Setup, w: World, id: string, version: string)
    requires Healthy(s, w)
    ensures id in w.states && w.states[id].version != version && s.separate ==>
              PoolPath(s, version, w.states[id].user) !in w.files
  {
    if id in w.states && PoolPath(s, version, w.states[id].user) in w.files {
      OnePoolPerUser(s, w, id, PoolPath(s, version, w.states[id].user));
    }
  }

  /** Any number of operations, each of which may fail anywhere, and then Reconcile: it reports nothing. */
  method ApplyAllThenReconcile(p: P.Provisioner, ops: seq<Op>) returns (drifts: Option<seq<Drift>>)
    requires Healthy(p.s, p.Now()) && p.NoHalfSave()
    modifies p
    ensures Healthy(p.s, p.Now()) && drifts == Some([])
  {
    var i := 0;
    while i < |ops|
      invariant Healthy(p.s, p.Now())
    {
      ghost var before := p.Now();
      var _, _ := Apply(p, ops[i]);
      NextKeepsHealthy(p.s, before, ops[i], p.Now());
      i := i + 1;
    }
    HealthyNodeHasNoDrift(p.s, p.Now());
    ghost var ids;
    drifts, ids := Reconcile(p.s, World(p.files, p.users, p.states), NOTHING);
  }

  // ---------- A save that fails after its rename ----------

  /** The operation rolls its files back but the record stays: Create, a status change and a version
      change always leave drift, the others exactly when the configuration text would have changed. */
  lemma HalfSaveDriftsIff(s: Setup, w: World, id: string)
    requires Healthy(s, w)
    ensures forall n | GuardCreate(s, w, n) :: !Undrifted(s, w.files, NewState(n))
    ensures forall suspend | GuardStatus(w, id, suspend) ::
              !Undrifted(s, w.files, EffectStatus(w, id, suspend).states[id])
    ensures forall version | GuardVersion(s, w, id, version) ::
              !Undrifted(s, w.files, EffectVersion(s, w, id, version).states[id])
    ensures forall domains | id in w.states ::
              var st := EffectDomains(s, w, id, domains).states[id];
              Undrifted(s, w.files, st) <==> VhostOf(s, st) == VhostOf(s, w.states[id])
    ensures forall r | id in w.states ::
              var st := EffectResources(s, w, id, r).states[id];
              Undrifted(s, w.files, st) <==> PoolOf(s, st) == PoolOf(s, w.states[id])
  {
    if id in w.states {
      assert InPlace(s, w, w.states[id]);
      OneVhostPerSite(s, w, id);
      forall version | GuardVersion(s, w, id, version)
        ensures !Undrifted(s, w.files, EffectVersion(s, w, id, version).states[id])
      {
        NewPoolIsFree(s, w, id, version);
      }
    }
  }
}
