/**
 The host as the site provisioner sees it, and what each of its operations is meant to
 do to it (internal/site/provisioner.go).

 `Guard…` says when an operation can go through, `Effect…` what it then leaves behind.
 The methods of Provisioner are proved against these; the lemmas here prove that they
 keep every site in place, which is what Reconcile looks for.
 */
module SiteHost {
  import opened Wrappers
  import Strings
  import R = SiteResources
  import opened SiteState

  // ---------- The host ----------

  /** Files by role. Staging files and `.trash` are not part of the map. */
  datatype Path =
    | Root(domain: string)                  // the site directory, with everything below it
    | Enabled(domain: string)               // <CaddyConfigDir>/<domain>.caddy
    | Disabled(domain: string)              // <CaddyDisabledDir>/<domain>.caddy
    | Pool(dir: string, user: string)       // <PHPConfigDir>/<user>.conf
    | Binary(version: string)               // <PHPBinaryDir>/php-fpm<version>

  datatype Content = Text(text: string) | Tree(entries: map<string, string>)

  type Files = map<Path, Content>

  datatype World = World(files: Files, users: set<string>, states: States)

  /** The templates, and whether the layout keeps one pool directory per PHP version. */
  datatype Setup = Setup(
    vhost: (string, seq<string>, string, string) -> string,
    pool: (string, string, R.Resources) -> string,
    index: string -> string,
    separate: bool)

  function DomainsFor(st: State): seq<string> {
    if st.domains == [] then [st.domain] else st.domains
  }

  /** `caddyConfigFor`: application profile, domains, document root and socket. */
  function VhostOf(s: Setup, st: State): Content {
    Text(s.vhost(st.app, DomainsFor(st), st.domain, st.user))
  }

  function PoolOf(s: Setup, st: State): Content {
    Text(s.pool(st.user, st.domain, st.resources))
  }

  function VhostPath(st: State): Path {
    if st.status.Suspended? then Disabled(st.domain) else Enabled(st.domain)
  }

  function PoolPath(s: Setup, version: string, user: string): Path {
    Pool(if s.separate then version else "", user)
  }

  const PUBLIC := "public"

  function NewTree(s: Setup, domain: string): Content {
    Tree(map[PUBLIC := "", "tmp" := "", "public/index.html" := s.index(domain)])
  }

  predicate HasDocumentRoot(files: Files, domain: string) {
    Root(domain) in files && files[Root(domain)].Tree? && PUBLIC in files[Root(domain)].entries
  }

  /** `^[a-zA-Z0-9][a-zA-Z0-9._-]{0,62}$` */
  predicate SafeName(name: string) {
    && 1 <= |name| <= 63 && Alphanumeric(name[0])
    && forall c <- name :: Alphanumeric(c) || c in ['.', '_', '-']
  }

  predicate Alphanumeric(c: char) {
    'a' <= c <= 'z' || 'A' <= c <= 'Z' || '0' <= c <= '9'
  }

  // ---------- What Reconcile looks for ----------

  /** The four resources of a site are there and its two configurations are what its record says. */
  predicate Undrifted(s: Setup, files: Files, st: State) {
    && HasDocumentRoot(files, st.domain)
    && Lookup(files, VhostPath(st)) == Some(VhostOf(s, st))
    && Lookup(files, PoolPath(s, st.version, st.user)) == Some(PoolOf(s, st))
    && Binary(st.version) in files
  }

  // ---------- The invariant ----------

  predicate InPlace(s: Setup, w: World, st: State) {
    Undrifted(s, w.files, st) && st.user in w.users && (st.status.Active? || st.status.Suspended?)
  }

  /** A configuration file belongs to a site on record, in the directory its status or version names. */
  ghost predicate Owned(s: Setup, states: States, p: Path) {
    match p
    case Enabled(d) => d in states && VhostPath(states[d]) == p
    case Disabled(d) => d in states && VhostPath(states[d]) == p
    case Pool(_, user) =>
      exists id :: id in states && states[id].user == user && PoolPath(s, states[id].version, user) == p
    case Root(_) => true
    case Binary(_) => true
  }

  ghost predicate Keyed(states: States) {
    forall id <- states :: states[id].siteID == id && states[id].domain == id
  }

  ghost predicate DistinctUsers(states: States) {
    forall a, b | a in states && b in states && a != b :: states[a].user != states[b].user
  }

  /** One vhost per site, in the directory of its status; one pool per user; nothing left over. */
  ghost predicate Healthy(s: Setup, w: World) {
    && Keyed(w.states) && DistinctUsers(w.states)
    && (forall id <- w.states :: InPlace(s, w, w.states[id]))
    && (forall p <- w.files :: Owned(s, w.states, p))
  }

  /** Outside staging and `.trash`, the paths an operation on one site may touch. */
  predicate About(p: Path, domain: string, user: string) {
    match p
    case Root(d) => d == domain
    case Enabled(d) => d == domain
    case Disabled(d) => d == domain
    case Pool(_, u) => u == user
    case Binary(_) => false
  }

  ghost predicate OnlyAbout(w: World, w': World, id: string, user: string) {
    && (forall p | !About(p, id, user) :: Lookup(w'.files, p) == Lookup(w.files, p))
    && (forall u | u != user :: u in w'.users <==> u in w.users)
    && (forall other | other != id :: Lookup(w'.states, other) == Lookup(w.states, other))
  }

  lemma NothingLeftOver(s: Setup, w: World)
    requires Healthy(s, w)
    ensures forall id <- w.states :: Root(id) in w.files && w.states[id].user in w.users
    ensures forall p <- w.files | p.Enabled? || p.Disabled? :: p.domain in w.states
    ensures forall p <- w.files | p.Pool? :: p.user in w.users
  {
    forall id | id in w.states ensures Root(id) in w.files && w.states[id].user in w.users {
      assert InPlace(s, w, w.states[id]);
    }
    forall p | p in w.files && (p.Enabled? || p.Disabled?) ensures p.domain in w.states {
      assert Owned(s, w.states, p);
    }
    forall p | p in w.files && p.Pool? ensures p.user in w.users {
      assert Owned(s, w.states, p);
    }
  }

  /** An operation on one site leaves every other site in place. */
  lemma OthersStayInPlace(s: Setup, w: World, w': World, id: string, user: string, other: string)
    requires OnlyAbout(w, w', id, user)
    requires other in w.states && w.states[other].domain == other != id && w.states[other].user != user
    requires InPlace(s, w, w.states[other])
    ensures other in w'.states && InPlace(s, w', w'.states[other])
  {
    var st := w.states[other];
    assert Lookup(w'.states, other) == Lookup(w.states, other);
    assert Lookup(w'.files, Root(other)) == Lookup(w.files, Root(other));
    assert Lookup(w'.files, VhostPath(st)) == Lookup(w.files, VhostPath(st));
    assert Lookup(w'.files, PoolPath(s, st.version, st.user)) == Lookup(w.files, PoolPath(s, st.version, st.user));
    assert Lookup(w'.files, Binary(st.version)) == Lookup(w.files, Binary(st.version));
  }

  /** A file of another site stays owned. */
  lemma OthersStayOwned(s: Setup, w: World, w': World, id: string, user: string, p: Path)
    requires OnlyAbout(w, w', id, user) && !About(p, id, user)
    requires Owned(s, w.states, p) && (id in w.states ==> w.states[id].user == user)
    ensures Owned(s, w'.states, p)
  {
    match p
    case Pool(_, u) =>
      var owner :| owner in w.states && w.states[owner].user == u && PoolPath(s, w.states[owner].version, u) == p;
      assert Lookup(w'.states, owner) == Lookup(w.states, owner);
    case Enabled(d) => assert Lookup(w'.states, d) == Lookup(w.states, d);
    case Disabled(d) => assert Lookup(w'.states, d) == Lookup(w.states, d);
    case _ =>
  }

  /** Enough for one operation to keep the node healthy: its own site is in place and owns its files. */
  lemma OneSiteChanges(s: Setup, w: World, w': World, id: string, user: string)
    requires Healthy(s, w) && OnlyAbout(w, w', id, user)
    requires id in w.states ==> w.states[id].user == user
    requires forall other <- w.states | other != id :: w.states[other].user != user
    requires id in w'.states ==> w'.states[id].siteID == id == w'.states[id].domain && w'.states[id].user == user
                                 && InPlace(s, w', w'.states[id])
    requires forall p <- w'.files | About(p, id, user) :: Owned(s, w'.states, p)
    ensures Healthy(s, w')
  {
    forall other | other in w'.states
      ensures w'.states[other].siteID == other == w'.states[other].domain && InPlace(s, w', w'.states[other])
      ensures other != id ==> w'.states[other].user != user
    {
      if other != id {
        assert Lookup(w'.states, other) == Lookup(w.states, other);
        OthersStayInPlace(s, w, w', id, user, other);
      }
    }
    StayDistinct(w, w', id, user);
    forall p | p in w'.files ensures Owned(s, w'.states, p) {
      if !About(p, id, user) {
        assert Lookup(w'.files, p) == Lookup(w.files, p);
        OthersStayOwned(s, w, w', id, user, p);
      }
    }
  }

  lemma StayDistinct(w: World, w': World, id: string, user: string)
    requires DistinctUsers(w.states) && OnlyAbout(w, w', id, user)
    requires id in w'.states ==> w'.states[id].user == user
    requires forall other <- w'.states | other != id :: w'.states[other].user != user
    ensures DistinctUsers(w'.states)
  {
    forall a, b | a in w'.states && b in w'.states && a != b ensures w'.states[a].user != w'.states[b].user {
      if a != id && b != id {
        assert Lookup(w'.states, a) == Lookup(w.states, a) && Lookup(w'.states, b) == Lookup(w.states, b);
      }
    }
  }

  // ---------- Create ----------

  /** `accepted` is the PHP catalogue's verdict at the time of the call. */
  datatype NewSite = NewSite(domain: string, user: string, version: string, resources: R.Resources, accepted: bool)

  function NewState(n: NewSite): State {
    State(n.domain, n.domain, n.user, n.version, Active, [n.domain], [], false, R.WithDefaults(n.resources), "")
  }

  predicate GuardCreate(s: Setup, w: World, n: NewSite) {
    && SafeName(n.domain) && SafeName(n.user) && n.accepted && R.Valid(R.WithDefaults(n.resources))
    && Root(n.domain) !in w.files && Enabled(n.domain) !in w.files && PoolPath(s, n.version, n.user) !in w.files
    && n.user !in w.users && Binary(n.version) in w.files
  }

  function EffectCreate(s: Setup, w: World, n: NewSite): World {
    World(SiteFiles(s, w.files, n), w.users + {n.user}, w.states[n.domain := NewState(n)])
  }

  function SiteFiles(s: Setup, files: Files, n: NewSite): Files {
    files[Root(n.domain) := NewTree(s, n.domain)][Enabled(n.domain) := VhostOf(s, NewState(n))]
         [PoolPath(s, n.version, n.user) := PoolOf(s, NewState(n))]
  }

  lemma CreateKeepsHealthy(s: Setup, w: World, n: NewSite)
    requires Healthy(s, w) && GuardCreate(s, w, n)
    ensures Healthy(s, EffectCreate(s, w, n))
  {
    var w' := EffectCreate(s, w, n);
    NothingLeftOver(s, w);
    assert w'.states[n.domain].user == n.user;
    assert InPlace(s, w', NewState(n));
    forall p | p in w'.files && About(p, n.domain, n.user) ensures Owned(s, w'.states, p) {
      assert p in {Root(n.domain), Enabled(n.domain), PoolPath(s, n.version, n.user)};
    }
    OneSiteChanges(s, w, w', n.domain, n.user);
  }

  // ---------- Domains ----------

  /** `applyDomains` with the site's new list. */
  predicate GuardDomains(w: World, id: string) {
    id in w.states && VhostPath(w.states[id]) in w.files
  }

  function EffectDomains(s: Setup, w: World, id: string, domains: seq<string>): World
    requires id in w.states
  {
    var st := w.states[id].(domains := domains);
    World(w.files[VhostPath(st) := VhostOf(s, st)], w.users, w.states[st.siteID := st])
  }

  /** No site lists the domain. */
  ghost predicate Free(states: States, domain: string) {
    forall id <- states :: domain !in DomainsFor(states[id])
  }

  function Dropping(domains: seq<string>, domain: string): seq<string> {
    if domains == [] then []
    else
      Dropping(domains[..|domains| - 1], domain)
      + if domains[|domains| - 1] == domain then [] else [domains[|domains| - 1]]
  }

  function EffectAdd(s: Setup, w: World, id: string, domain: string): World
    requires id in w.states
  {
    EffectDomains(s, w, id, Strings.Sort(DomainsFor(w.states[id]) + [domain]))
  }

  function EffectRemove(s: Setup, w: World, id: string, domain: string): World
    requires id in w.states
  {
    EffectDomains(s, w, id, Dropping(DomainsFor(w.states[id]), domain))
  }

  lemma DomainsKeepHealthy(s: Setup, w: World, id: string, domains: seq<string>)
    requires Healthy(s, w) && GuardDomains(w, id)
    ensures Healthy(s, EffectDomains(s, w, id, domains))
  {
    var w' := EffectDomains(s, w, id, domains);
    assert InPlace(s, w, w.states[id]);
    hide Healthy, DistinctUsers;
    EditKeepsHealthy(s, w, w', id);
  }

  /** Rewriting files the site already has, under a record that keeps its user, version and status. */
  lemma EditKeepsHealthy(s: Setup, w: World, w': World, id: string)
    requires Healthy(s, w) && id in w.states && id in w'.states && w'.states == w.states[id := w'.states[id]]
    requires w'.files.Keys == w.files.Keys && w'.users == w.users
    requires forall p | !About(p, id, w.states[id].user) :: Lookup(w'.files, p) == Lookup(w.files, p)
    requires w'.states[id].siteID == id == w'.states[id].domain && w'.states[id].user == w.states[id].user
    requires w'.states[id].version == w.states[id].version && VhostPath(w'.states[id]) == VhostPath(w.states[id])
    requires InPlace(s, w', w'.states[id])
    ensures Healthy(s, w')
  {
    var user := w.states[id].user;
    forall p | p in w'.files && About(p, id, user) ensures Owned(s, w'.states, p) {
      assert Owned(s, w.states, p);
      OwnerStays(s, w, w', id, p);
    }
    hide InPlace, Owned;
    OneSiteChanges(s, w, w', id, user);
  }

  /** A record that keeps its user, version and status owns what it owned. */
  lemma OwnerStays(s: Setup, w: World, w': World, id: string, p: Path)
    requires Owned(s, w.states, p) && id in w.states && id in w'.states && w'.states == w.states[id := w'.states[id]]
    requires w'.states[id].user == w.states[id].user && VhostPath(w'.states[id]) == VhostPath(w.states[id])
    requires p.Pool? ==> w'.states[id].version == w.states[id].version
    ensures Owned(s, w'.states, p)
  {
    if p.Pool? {
      var owner :| owner in w.states && w.states[owner].user == p.user
          && PoolPath(s, w.states[owner].version, p.user) == p;
      assert owner in w'.states && w'.states[owner].user == p.user;
    }
  }

  // ---------- Suspend and resume ----------

  function Target(suspend: bool): Status {
    if suspend then Suspended else Active
  }

  function From(domain: string, suspend: bool): Path {
    if suspend then Enabled(domain) else Disabled(domain)
  }

  function Current(st: State): Status {
    if st.status.Blank? then Active else st.status
  }

  /** The site does not have a vhost in both directories. */
  predicate OneVhost(files: Files, states: States, id: string) {
    id in states ==> Enabled(states[id].domain) !in files || Disabled(states[id].domain) !in files
  }

  predicate GuardStatus(w: World, id: string, suspend: bool) {
    && id in w.states && Current(w.states[id]) == Target(!suspend)
    && From(w.states[id].domain, suspend) in w.files
  }

  function Moved(files: Files, from: Path, to: Path): Files
    requires from in files
  {
    Without(files, from)[to := files[from]]
  }

  function EffectStatus(w: World, id: string, suspend: bool): World
    requires GuardStatus(w, id, suspend)
  {
    var st := w.states[id];
    World(Moved(w.files, From(st.domain, suspend), From(st.domain, !suspend)), w.users,
          w.states[st.siteID := st.(status := Target(suspend))])
  }

  lemma StatusKeepsHealthy(s: Setup, w: World, id: string, suspend: bool)
    requires Healthy(s, w) && GuardStatus(w, id, suspend)
    ensures Healthy(s, EffectStatus(w, id, suspend))
  {
    var w' := EffectStatus(w, id, suspend);
    var st := w.states[id];
    assert InPlace(s, w, st);
    assert VhostPath(w'.states[id]) == From(id, !suspend) && VhostPath(st) == From(id, suspend);
    assert InPlace(s, w', w'.states[id]);
    forall p | p in w'.files && About(p, id, st.user) ensures Owned(s, w'.states, p) {
      if p.Pool? {
        OnePoolPerUser(s, w, id, p);
        assert w'.states[id].user == p.user;
      }
    }
    OneSiteChanges(s, w, w', id, st.user);
  }

  // ---------- PHP version ----------

  predicate GuardVersion(s: Setup, w: World, id: string, version: string) {
    && id in w.states && w.states[id].version != version && s.separate
    && PoolPath(s, w.states[id].version, w.states[id].user) in w.files && Binary(version) in w.files
  }

  function EffectVersion(s: Setup, w: World, id: string, version: string): World
    requires GuardVersion(s, w, id, version)
  {
    var st := w.states[id];
    World(Without(w.files[PoolPath(s, version, st.user) := PoolOf(s, st)], PoolPath(s, st.version, st.user)), w.users,
          w.states[st.siteID := st.(version := version)])
  }

  lemma VersionKeepsHealthy(s: Setup, w: World, id: string, version: string)
    requires Healthy(s, w) && GuardVersion(s, w, id, version)
    ensures Healthy(s, EffectVersion(s, w, id, version))
  {
    var w' := EffectVersion(s, w, id, version);
    var st := w.states[id];
    assert InPlace(s, w, st);
    assert InPlace(s, w', w'.states[id]);
    forall p | p in w'.files && About(p, id, st.user) ensures Owned(s, w'.states, p) {
      if p.Pool? && p != PoolPath(s, version, st.user) {
        OnePoolPerUser(s, w, id, p);
      } else if p.Pool? {
        assert w'.states[id].user == p.user;
      }
    }
    OneSiteChanges(s, w, w', id, st.user);
  }

  /** A healthy node has one pool per site user. */
  lemma OnePoolPerUser(s: Setup, w: World, id: string, p: Path)
    requires Healthy(s, w) && id in w.states && p in w.files && p.Pool? && p.user == w.states[id].user
    ensures p == PoolPath(s, w.states[id].version, w.states[id].user)
  {
    assert Owned(s, w.states, p);
    var owner :| owner in w.states && w.states[owner].user == p.user
        && PoolPath(s, w.states[owner].version, p.user) == p;
    assert owner == id;
  }

  /** And one vhost per site, in the directory its status names. */
  lemma OneVhostPerSite(s: Setup, w: World, id: string)
    requires Healthy(s, w) && id in w.states
    ensures Enabled(id) in w.files <==> !w.states[id].status.Suspended?
    ensures Disabled(id) in w.files <==> w.states[id].status.Suspended?
  {
    assert InPlace(s, w, w.states[id]);
    assert Enabled(id) in w.files ==> Owned(s, w.states, Enabled(id));
    assert Disabled(id) in w.files ==> Owned(s, w.states, Disabled(id));
  }

  // ---------- Resources ----------

  predicate GuardResources(s: Setup, w: World, id: string, r: R.Resources) {
    && R.Valid(R.WithDefaults(r)) && id in w.states
    && R.WithDefaults(w.states[id].resources) != R.WithDefaults(r)
    && PoolPath(s, w.states[id].version, w.states[id].user) in w.files && Binary(w.states[id].version) in w.files
  }

  function EffectResources(s: Setup, w: World, id: string, r: R.Resources): World
    requires id in w.states
  {
    var st := w.states[id].(resources := R.WithDefaults(r));
    World(w.files[PoolPath(s, st.version, st.user) := PoolOf(s, st)], w.users, w.states[st.siteID := st])
  }

  lemma ResourcesKeepHealthy(s: Setup, w: World, id: string, r: R.Resources)
    requires Healthy(s, w) && GuardResources(s, w, id, r)
    ensures Healthy(s, EffectResources(s, w, id, r))
  {
    var w' := EffectResources(s, w, id, r);
    assert InPlace(s, w, w.states[id]);
    hide Healthy, DistinctUsers;
    EditKeepsHealthy(s, w, w', id);
  }

  // ---------- Delete ----------

  predicate GuardDelete(s: Setup, w: World, id: string) {
    && id in w.states && w.states[id].status.Suspended? && !w.states[id].sftpEnabled && w.states[id].databases == []
    && Root(w.states[id].domain) in w.files && Disabled(w.states[id].domain) in w.files
    && PoolPath(s, w.states[id].version, w.states[id].user) in w.files && w.states[id].user in w.users
  }

  function EffectDelete(s: Setup, w: World, id: string): World
    requires id in w.states
  {
    var st := w.states[id];
    World(w.files - {Root(st.domain), Disabled(st.domain), PoolPath(s, st.version, st.user)}, w.users - {st.user},
          Without(w.states, id))
  }

  lemma DeleteKeepsHealthy(s: Setup, w: World, id: string)
    requires Healthy(s, w) && GuardDelete(s, w, id)
    ensures Healthy(s, EffectDelete(s, w, id))
  {
    var w' := EffectDelete(s, w, id);
    var st := w.states[id];
    forall p | p in w'.files && About(p, id, st.user) ensures Owned(s, w'.states, p) {
      assert Owned(s, w.states, p);
      if p.Pool? {
        OnePoolPerUser(s, w, id, p);
      }
    }
    OneSiteChanges(s, w, w', id, st.user);
  }

  lemma CreatedSuspends(s: Setup, w: World, n: NewSite)
    requires GuardCreate(s, w, n)
    ensures GuardStatus(EffectCreate(s, w, n), n.domain, true)
    ensures EffectStatus(EffectCreate(s, w, n), n.domain, true)
            == World(Moved(EffectCreate(s, w, n).files, Enabled(n.domain), Disabled(n.domain)), w.users + {n.user},
                     w.states[n.domain := NewState(n).(status := Suspended)])
  {
    var again := w.states[n.domain := NewState(n)][n.domain := NewState(n).(status := Suspended)];
    assert again == w.states[n.domain := NewState(n).(status := Suspended)];
  }

  /** Deleting a site that was just created and suspended gives back the files, the users and the records. */
  lemma DeleteUndoesCreate(s: Setup, w: World, n: NewSite)
    requires Healthy(s, w) && GuardCreate(s, w, n)
    ensures GuardStatus(EffectCreate(s, w, n), n.domain, true)
    ensures var suspended := EffectStatus(EffectCreate(s, w, n), n.domain, true);
            GuardDelete(s, suspended, n.domain) && EffectDelete(s, suspended, n.domain) == w
  {
    NothingLeftOver(s, w);
    CreatedSuspends(s, w, n);
    DeletesTo(s, w, EffectStatus(EffectCreate(s, w, n), n.domain, true), n);
  }

  lemma DeletesTo(s: Setup, w: World, suspended: World, n: NewSite)
    requires GuardCreate(s, w, n) && Disabled(n.domain) !in w.files && n.domain !in w.states
    requires suspended.files == Moved(EffectCreate(s, w, n).files, Enabled(n.domain), Disabled(n.domain))
    requires suspended.users == w.users + {n.user}
    requires suspended.states == w.states[n.domain := NewState(n).(status := Suspended)]
    ensures GuardDelete(s, suspended, n.domain) && EffectDelete(s, suspended, n.domain) == w
  {
    PutThenDrop(w.files, Root(n.domain), Enabled(n.domain), Disabled(n.domain), PoolPath(s, n.version, n.user),
                NewTree(s, n.domain), VhostOf(s, NewState(n)), PoolOf(s, NewState(n)));
    hide GuardCreate, NewTree, VhostOf, PoolOf;
    var deleted := EffectDelete(s, suspended, n.domain);
    assert deleted.users == w.users;
    assert deleted.states == w.states;
  }

  lemma PutThenDrop(files: Files, root: Path, from: Path, to: Path, pool: Path, a: Content, b: Content, c: Content)
    requires root !in files && from !in files && to !in files && pool !in files
    requires root.Root? && from.Enabled? && to.Disabled? && pool.Pool?
    ensures Moved(files[root := a][from := b][pool := c], from, to) - {root, to, pool} == files
  {
  }

  /** Resuming undoes suspending. */
  lemma ResumeUndoesSuspend(s: Setup, w: World, id: string)
    requires Healthy(s, w) && GuardStatus(w, id, true)
    ensures var suspended := EffectStatus(w, id, true);
            GuardStatus(suspended, id, false) && EffectStatus(suspended, id, false) == w
  {
    assert InPlace(s, w, w.states[id]);
    OneVhostPerSite(s, w, id);
    var back := EffectStatus(EffectStatus(w, id, true), id, false);
    assert back.files == w.files;
    assert back.states == w.states;
  }

  /** Going back to the old PHP version restores the node. */
  lemma VersionChangeIsReversible(s: Setup, w: World, id: string, version: string)
    requires Healthy(s, w) && GuardVersion(s, w, id, version)
    ensures var changed := EffectVersion(s, w, id, version);
            GuardVersion(s, changed, id, w.states[id].version)
            && EffectVersion(s, changed, id, w.states[id].version) == w
  {
    var st := w.states[id];
    assert InPlace(s, w, st);
    assert PoolPath(s, version, st.user) !in w.files by {
      if PoolPath(s, version, st.user) in w.files {
        OnePoolPerUser(s, w, id, PoolPath(s, version, st.user));
      }
    }
    var back := EffectVersion(s, EffectVersion(s, w, id, version), id, st.version);
    assert back.files == w.files;
    assert back.states == w.states;
  }
}
