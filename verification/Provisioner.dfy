/**
 The site lifecycle transactions, step by step (internal/site/provisioner.go).

 Every forward step may fail, as may the write of the record; rollback steps succeed.
 Each operation is proved to be all or nothing: without an error it has exactly its
 effect, and with one the files and users are what they were.
 */
module Provisioner {
  import opened Wrappers
  import D = Durable
  import R = SiteResources
  import Strings
  import opened SiteState
  import opened SiteHost

  /** After an error the records have changed only if their write failed after its rename. */
  function Rolled(before: States, after: States, saved: Option<D.Outcome>): States {
    if saved == Some(D.Committed) then after else before
  }

  class Provisioner {
    const s: Setup
    /** Whether the layout names a main Caddy configuration to validate. */
    const mainConfig: bool
    /** Whether the step at a tick fails, what a failed step leaves in the site directory, how a save ends. */
    const fails: nat -> bool
    const leaves: nat -> Option<Content>
    const saves: nat -> D.Outcome
    var files: Files
    var users: set<string>
    var states: States
    var tick: nat

    ghost function Now(): World
      reads this
    {
      World(files, users, states)
    }

    /** Nothing fails. */
    ghost predicate Calm() {
      (forall t :: !fails(t)) && (forall t :: saves(t) == D.Written)
    }

    /** No save fails after its rename. */
    ghost predicate NoHalfSave() {
      forall t :: saves(t) != D.Committed
    }

    constructor (s: Setup, mainConfig: bool, fails: nat -> bool, leaves: nat -> Option<Content>,
                 saves: nat -> D.Outcome, files: Files, users: set<string>, states: States)
      ensures this.s == s && Now() == World(files, users, states)
    {
      this.s, this.mainConfig, this.fails, this.leaves, this.saves := s, mainConfig, fails, leaves, saves;
      this.files, this.users, this.states, this.tick := files, users, states, 0;
    }

    // ---------- Steps ----------

    /** A command or file operation whose only visible result is whether it failed. */
    method Run() returns (ok: bool)
      modifies `tick
      ensures Calm() ==> ok
    {
      ok := !fails(tick);
      tick := tick + 1;
    }

    method Save(st: State) returns (outcome: D.Outcome)
      modifies `states, `tick
      ensures states == Kept(old(states), old(states)[st.siteID := st], outcome)
      ensures Calm() ==> outcome == D.Written
      ensures NoHalfSave() ==> outcome != D.Committed
    {
      outcome := saves(tick);
      tick := tick + 1;
      if !outcome.NotCommitted? {
        states := states[st.siteID := st];
      }
    }

    /** `activateFile`: the rename either happened or did not. */
    method Activate(contents: Content, path: Path) returns (ok: bool)
      modifies `files, `tick
      ensures files == if ok then old(files)[path := contents] else old(files)
      ensures Calm() ==> ok
    {
      ok := Run();
      if ok {
        files := files[path := contents];
      }
    }

    /** Validates the main configuration, if there is one, and reloads. */
    method ReloadCaddy() returns (ok: bool)
      modifies `tick
      ensures Calm() ==> ok
    {
      if mainConfig {
        ok := Run();
        if !ok {
          return;
        }
      }
      ok := Run();
    }

    method ReloadBoth() returns (ok: bool)
      modifies `tick
      ensures Calm() ==> ok
    {
      ok := Run();
      if ok {
        ok := Run();
      }
    }

    // ---------- Create ----------

    method LeavePart(domain: string)
      modifies `files
      ensures Without(files, Root(domain)) == Without(old(files), Root(domain))
    {
      if leaves(tick).Some? {
        files := files[Root(domain) := leaves(tick).value];
      }
    }

    /** One command that grows the site directory. A failure may leave anything in it. */
    method Grow(domain: string, tree: Content) returns (ok: bool)
      modifies `files, `tick
      ensures ok ==> files == old(files)[Root(domain) := tree]
      ensures Without(files, Root(domain)) == Without(old(files), Root(domain))
      ensures Calm() ==> ok
    {
      ok := Run();
      if ok {
        files := files[Root(domain) := tree];
      } else {
        LeavePart(domain);
      }
    }

    /** `install` twice, the index page and its owner. */
    method MakeTree(domain: string) returns (ok: bool)
      modifies `files, `tick
      ensures ok ==> files == old(files)[Root(domain) := NewTree(s, domain)]
      ensures Without(files, Root(domain)) == Without(old(files), Root(domain))
      ensures Calm() ==> ok
    {
      ok := Grow(domain, Tree(map[PUBLIC := ""]));
      if ok {
        ok := Grow(domain, Tree(map[PUBLIC := "", "tmp" := ""]));
      }
      if ok {
        ok := Grow(domain, NewTree(s, domain));
      }
      if ok {
        ok := Run();
      }
    }

    /** Validates and activates the vhost and the pool, then reloads. */
    method ActivateConfigs(n: NewSite) returns (ok: bool, activated: bool)
      requires Enabled(n.domain) !in files
      modifies `files, `tick
      ensures ok ==> activated && Binary(n.version) in old(files)
      ensures files == if activated
                       then old(files)[Enabled(n.domain) := VhostOf(s, NewState(n))]
                                      [PoolPath(s, n.version, n.user) := PoolOf(s, NewState(n))]
                       else old(files)
      ensures Calm() && Binary(n.version) in old(files) ==> ok
    {
      var validated := Run();
      if !validated {
        return false, false;
      }
      var tested := Run();
      if !tested || Binary(n.version) !in files {
        return false, false;
      }
      var caddy := Activate(VhostOf(s, NewState(n)), Enabled(n.domain));
      if !caddy {
        return false, false;
      }
      var php := Activate(PoolOf(s, NewState(n)), PoolPath(s, n.version, n.user));
      if !php {
        files := Without(files, Enabled(n.domain));
        assert files == old(files);
        return false, false;
      }
      var caddyReloaded := ReloadCaddy();
      if !caddyReloaded {
        return false, true;
      }
      ok := Run();
      return ok, true;
    }

    method UserAdd(user: string) returns (ok: bool)
      modifies `users, `tick
      ensures ok ==> user !in old(users)
      ensures users == if ok then old(users) + {user} else old(users)
      ensures Calm() && user !in old(users) ==> ok
    {
      ok := Run();
      if user in users {
        ok := false;
      }
      if ok {
        users := users + {user};
      }
    }

    /** The deferred rollback of Create. */
    method UndoCreate(n: NewSite, userCreated: bool, siteDirectoryCreated: bool, configsActivated: bool)
      modifies `files, `users
      ensures files == old(files)
                       - (if configsActivated then {Enabled(n.domain), PoolPath(s, n.version, n.user)} else {})
                       - (if siteDirectoryCreated then {Root(n.domain)} else {})
      ensures users == old(users) - if userCreated then {n.user} else {}
    {
      if configsActivated {
        files := files - {Enabled(n.domain), PoolPath(s, n.version, n.user)};
      }
      if userCreated {
        users := users - {n.user};
      }
      if siteDirectoryCreated {
        files := files - {Root(n.domain)};
      }
    }

    method Create(n: NewSite) returns (ok: bool, ghost saved: Option<D.Outcome>)
      modifies this
      ensures ok ==> GuardCreate(s, old(Now()), n) && Now() == EffectCreate(s, old(Now()), n)
      ensures !ok ==> Now() == World(old(files), old(users),
                                     Rolled(old(states), EffectCreate(s, old(Now()), n).states, saved))
      ensures Calm() && GuardCreate(s, old(Now()), n) ==> ok
      ensures NoHalfSave() ==> saved != Some(D.Committed)
    {
      saved := None;
      if !SafeName(n.domain) || !SafeName(n.user) || !n.accepted || !R.Valid(R.WithDefaults(n.resources)) {
        return false, saved;
      }
      if Root(n.domain) in files || Enabled(n.domain) in files || PoolPath(s, n.version, n.user) in files {
        return false, saved;
      }
      var stagedCaddy := Run();
      if !stagedCaddy {
        return false, saved;
      }
      var stagedPHP := Run();
      if !stagedPHP {
        return false, saved;
      }
      var added := UserAdd(n.user);
      if !added {
        return false, saved;
      }
      ok, saved := Furnish(n);
    }

    /** What follows once the user exists; every error takes the user, the directory and the configurations away
        again. */
    method Furnish(n: NewSite) returns (ok: bool, ghost saved: Option<D.Outcome>)
      requires Root(n.domain) !in files && Enabled(n.domain) !in files && PoolPath(s, n.version, n.user) !in files
      requires n.user in users
      modifies this
      ensures ok ==>
                && Binary(n.version) in old(files) && users == old(users)
                && states == old(states)[n.domain := NewState(n)]
                     && files == SiteFiles(s, old(files), n)
      ensures !ok ==> && files == old(files) && users == old(users) - {n.user}
                      && states == Rolled(old(states), old(states)[n.domain := NewState(n)], saved)
      ensures Calm() && Binary(n.version) in old(files) ==> ok
      ensures NoHalfSave() ==> saved != Some(D.Committed)
    {
      hide NewTree, VhostOf, PoolOf;
      saved := None;
      var unlocked := Run();
      if !unlocked {
        UndoCreate(n, true, false, false);
        return false, saved;
      }
      var made := MakeTree(n.domain);
      assert Without(old(files), Root(n.domain)) == old(files);
      if !made {
        UndoCreate(n, true, true, false);
        return false, saved;
      }
      var configured, activated := ActivateConfigs(n);
      if !configured {
        UndoCreate(n, true, true, activated);
        assert files == old(files);
        return false, saved;
      }
      var outcome := Save(NewState(n));
      saved := Some(outcome);
      if outcome != D.Written {
        UndoCreate(n, true, true, true);
        assert files == old(files);
        return false, saved;
      }
      return true, saved;
    }

    // ---------- Domains ----------

    method ApplyDomains(id: string, domains: seq<string>) returns (ok: bool, ghost saved: Option<D.Outcome>)
      requires id in states && Keyed(states)
      modifies this
      ensures ok ==> GuardDomains(old(Now()), id) && Now() == EffectDomains(s, old(Now()), id, domains)
      ensures !ok ==> Now() == World(old(files), old(users),
                                     Rolled(old(states), EffectDomains(s, old(Now()), id, domains).states, saved))
      ensures Calm() && GuardDomains(old(Now()), id) ==> ok
      ensures Keyed(states)
      ensures NoHalfSave() ==> saved != Some(D.Committed)
    {
      saved := None;
      var st := states[id].(domains := domains);
      var path := VhostPath(st);
      var read := Run();
      if !read || path !in files {
        return false, saved;
      }
      var previous := files[path];
      var staged := Run();
      if !staged {
        return false, saved;
      }
      var validated := Run();
      if !validated {
        return false, saved;
      }
      var activated := Activate(VhostOf(s, st), path);
      if !activated {
        return false, saved;
      }
      assert files[path := previous] == old(files);
      if !st.status.Suspended? {
        var reloaded := ReloadCaddy();
        if !reloaded {
          files := files[path := previous];
          return false, saved;
        }
      }
      var outcome := Save(st);
      saved := Some(outcome);
      if outcome != D.Written {
        files := files[path := previous];
        return false, saved;
      }
      return true, saved;
    }

    /** Looks for a site that already lists the domain; the order of the search is not fixed. */
    method FindOwner(domain: string) returns (owner: Option<string>)
      ensures owner == None <==> Free(states, domain)
      ensures owner.Some? ==> owner.value in states && domain in DomainsFor(states[owner.value])
    {
      var rest := states.Keys;
      while rest != {}
        invariant rest <= states.Keys
        invariant forall other <- states :: other in rest || domain !in DomainsFor(states[other])
        decreases rest
      {
        var other :| other in rest;
        if domain in DomainsFor(states[other]) {
          return Some(other);
        }
        rest := rest - {other};
      }
      return None;
    }

    method AddDomain(id: string, domain: string) returns (ok: bool, ghost saved: Option<D.Outcome>)
      requires Keyed(states)
      modifies this
      ensures ok ==> id in old(states) && SafeName(domain) && '.' in domain
      ensures ok && Free(old(states), domain) ==>
                GuardDomains(old(Now()), id) && Now() == EffectAdd(s, old(Now()), id, domain)
      ensures ok && !Free(old(states), domain) ==> domain in DomainsFor(old(states)[id]) && Now() == old(Now())
      ensures !ok ==> files == old(files) && users == old(users)
      ensures !ok ==> states == if saved.Some? && id in old(states)
                                then Rolled(old(states), EffectAdd(s, old(Now()), id, domain).states, saved)
                                else old(states)
      ensures Calm() && SafeName(domain) && '.' in domain ==>
                GuardDomains(old(Now()), id) && Free(old(states), domain) ==> ok
      ensures Keyed(states)
      ensures NoHalfSave() ==> saved != Some(D.Committed)
    {
      saved := None;
      if !SafeName(domain) || '.' !in domain || id !in states {
        return false, saved;
      }
      var owner := FindOwner(domain);
      if owner.Some? {
        return owner.value == id, saved;
      }
      ok, saved := ApplyDomains(id, Strings.Sort(DomainsFor(states[id]) + [domain]));
    }

    method RemoveDomain(id: string, domain: string) returns (ok: bool, ghost saved: Option<D.Outcome>)
      requires Keyed(states)
      modifies this
      ensures ok ==> id in old(states) && domain != old(states)[id].domain
      ensures ok && domain in DomainsFor(old(states)[id]) ==>
                GuardDomains(old(Now()), id) && Now() == EffectRemove(s, old(Now()), id, domain)
      ensures ok && domain !in DomainsFor(old(states)[id]) ==> Now() == old(Now())
      ensures !ok ==> files == old(files) && users == old(users)
      ensures !ok ==> states == if saved.Some? && id in old(states)
                                then Rolled(old(states), EffectRemove(s, old(Now()), id, domain).states, saved)
                                else old(states)
      ensures Calm() && GuardDomains(old(Now()), id) && domain != old(states)[id].domain ==> ok
      ensures Keyed(states)
      ensures NoHalfSave() ==> saved != Some(D.Committed)
    {
      saved := None;
      if id !in states || domain == states[id].domain {
        return false, saved;
      }
      var current := DomainsFor(states[id]);
      var next: seq<string> := [];
      var found := false;
      var i := 0;
      while i < |current|
        invariant 0 <= i <= |current|
        invariant next == Dropping(current[..i], domain) && (found <==> domain in current[..i])
      {
        assert current[..i + 1][..i] == current[..i];
        if current[i] == domain {
          found := true;
        } else {
          next := next + [current[i]];
        }
        i := i + 1;
      }
      assert current[..|current|] == current;
      if !found {
        return true, saved;
      }
      ok, saved := ApplyDomains(id, next);
    }

    // ---------- Suspend and resume ----------

    method SetSiteStatus(id: string, suspend: bool) returns (ok: bool, ghost saved: Option<D.Outcome>)
      requires Keyed(states)
      modifies this
      ensures ok ==> id in old(states)
      ensures ok && Current(old(states)[id]) == Target(suspend) ==> Now() == old(Now())
      ensures ok && Current(old(states)[id]) != Target(suspend) ==>
                GuardStatus(old(Now()), id, suspend) && Now() == EffectStatus(old(Now()), id, suspend)
      ensures !ok && OneVhost(old(files), old(states), id) ==> files == old(files)
      ensures users == old(users)
      ensures !ok ==> states == if GuardStatus(old(Now()), id, suspend)
                                then Rolled(old(states), EffectStatus(old(Now()), id, suspend).states, saved)
                                else old(states)
      ensures Calm() && GuardStatus(old(Now()), id, suspend) ==> ok
      ensures Keyed(states)
      ensures NoHalfSave() ==> saved != Some(D.Committed)
    {
      saved := None;
      if id !in states {
        return false, saved;
      }
      var st := states[id];
      var current := Current(st);
      if current == Target(suspend) {
        return true, saved;
      }
      if current != Target(!suspend) {
        return false, saved;
      }
      ok, saved := MoveVhost(st, suspend);
    }

    /** Moves the vhost between the directories. The rename would replace a vhost already there, which the
        rollback could not bring back. */
    method MoveVhost(st: State, suspend: bool) returns (ok: bool, ghost saved: Option<D.Outcome>)
      modifies `files, `states, `tick
      ensures ok ==> From(st.domain, suspend) in old(files)
                     && files == Moved(old(files), From(st.domain, suspend), From(st.domain, !suspend))
                     && states == old(states)[st.siteID := st.(status := Target(suspend))]
      ensures !ok && From(st.domain, !suspend) !in old(files) ==> files == old(files)
      ensures !ok && From(st.domain, suspend) !in old(files) ==> files == old(files) && saved == None
      ensures !ok ==> states == Rolled(old(states), old(states)[st.siteID := st.(status := Target(suspend))], saved)
      ensures Calm() && From(st.domain, suspend) in old(files) ==> ok
      ensures NoHalfSave() ==> saved != Some(D.Committed)
    {
      saved := None;
      var from, to := From(st.domain, suspend), From(st.domain, !suspend);
      var mkdir := Run();
      if !mkdir {
        return false, saved;
      }
      var renamed := Run();
      if !renamed || from !in files {
        return false, saved;
      }
      files := Moved(files, from, to);
      assert to !in old(files) ==> Moved(files, to, from) == old(files);
      var reloaded := ReloadCaddy();
      if !reloaded {
        files := Moved(files, to, from);
        return false, saved;
      }
      var outcome := Save(st.(status := Target(suspend)));
      saved := Some(outcome);
      if outcome != D.Written {
        files := Moved(files, to, from);
        return false, saved;
      }
      return true, saved;
    }

    // ---------- PHP version ----------

    /** The deferred rollback of SetPHPVersion. */
    method UndoVersion(newPath: Path, oldPath: Path, oldConfig: Content)
      modifies `files
      ensures files == Without(old(files), newPath)[oldPath := oldConfig]
    {
      files := Without(files, newPath);
      files := files[oldPath := oldConfig];
    }

    method SetPHPVersion(id: string, version: string, accepted: bool) returns (ok: bool, ghost saved: Option<D.Outcome>)
      requires Keyed(states)
      modifies this
      ensures ok ==> accepted && id in old(states)
      ensures ok && old(states)[id].version == version ==> Now() == old(Now())
      ensures ok && old(states)[id].version != version ==>
                GuardVersion(s, old(Now()), id, version) && Now() == EffectVersion(s, old(Now()), id, version)
      ensures !ok && (GuardVersion(s, old(Now()), id, version) ==>
                      PoolPath(s, version, old(states)[id].user) !in old(files)) ==>
                files == old(files)
      ensures users == old(users)
      ensures !ok ==> states == if GuardVersion(s, old(Now()), id, version)
                                then Rolled(old(states), EffectVersion(s, old(Now()), id, version).states, saved)
                                else old(states)
      ensures Calm() && accepted && GuardVersion(s, old(Now()), id, version) ==> ok
      ensures Keyed(states)
      ensures NoHalfSave() ==> saved != Some(D.Committed)
    {
      saved := None;
      if !accepted || id !in states {
        return false, saved;
      }
      var st := states[id];
      if st.version == version {
        return true, saved;
      }
      ok, saved := MovePool(st, version);
    }

    /** Moves the pool between the directories of two PHP versions, new one first. */
    method MovePool(st: State, version: string) returns (ok: bool, ghost saved: Option<D.Outcome>)
      requires st.version != version
      modifies `files, `states, `tick
      ensures var oldPath, newPath := PoolPath(s, st.version, st.user), PoolPath(s, version, st.user);
              && (ok ==> s.separate && oldPath in old(files) && Binary(version) in old(files)
                         && files == Without(old(files)[newPath := PoolOf(s, st)], oldPath)
                         && states == old(states)[st.siteID := st.(version := version)])
              && (!ok && newPath !in old(files) ==> files == old(files))
              && (!ok && !(s.separate && oldPath in old(files) && Binary(version) in old(files)) ==>
                  saved == None && files == old(files))
              && (!ok ==> states == Rolled(old(states), old(states)[st.siteID := st.(version := version)], saved))
              && (Calm() && s.separate && oldPath in old(files) && Binary(version) in old(files) ==> ok)
      ensures NoHalfSave() ==> saved != Some(D.Committed)
    {
      saved := None;
      var oldPath, newPath := PoolPath(s, st.version, st.user), PoolPath(s, version, st.user);
      if oldPath == newPath {
        return false, saved;
      }
      var read := Run();
      if !read || oldPath !in files {
        return false, saved;
      }
      var oldConfig := files[oldPath];
      var staged := Run();
      if !staged {
        return false, saved;
      }
      var tested := Run();
      if !tested || Binary(version) !in files {
        return false, saved;
      }
      var activated := Activate(PoolOf(s, st), newPath);
      if !activated {
        return false, saved;
      }
      assert newPath !in old(files) ==> Without(files, newPath)[oldPath := oldConfig] == old(files);
      var removed := Run();
      if !removed {
        UndoVersion(newPath, oldPath, oldConfig);
        return false, saved;
      }
      files := Without(files, oldPath);
      assert newPath !in old(files) ==> Without(files, newPath)[oldPath := oldConfig] == old(files);
      var reloaded := ReloadBoth();
      if !reloaded {
        UndoVersion(newPath, oldPath, oldConfig);
        return false, saved;
      }
      var outcome := Save(st.(version := version));
      saved := Some(outcome);
      if outcome != D.Written {
        UndoVersion(newPath, oldPath, oldConfig);
        return false, saved;
      }
      return true, saved;
    }

    // ---------- Resources ----------

    /** Reapplies the limits; a record without resources counts as one with the defaults. */
    method SetResources(id: string, resources: R.Resources) returns (ok: bool, ghost saved: Option<D.Outcome>)
      requires Keyed(states)
      modifies this
      ensures ok ==> id in old(states) && R.Valid(R.WithDefaults(resources))
      ensures ok && R.WithDefaults(old(states)[id].resources) == R.WithDefaults(resources) ==> Now() == old(Now())
      ensures ok && R.WithDefaults(old(states)[id].resources) != R.WithDefaults(resources) ==>
                GuardResources(s, old(Now()), id, resources) && Now() == EffectResources(s, old(Now()), id, resources)
      ensures !ok ==> files == old(files)
      ensures users == old(users)
      ensures !ok ==> states == if GuardResources(s, old(Now()), id, resources)
                                then Rolled(old(states), EffectResources(s, old(Now()), id, resources).states, saved)
                                else old(states)
      ensures Calm() && GuardResources(s, old(Now()), id, resources) ==> ok
      ensures Keyed(states)
      ensures NoHalfSave() ==> saved != Some(D.Committed)
    {
      saved := None;
      var wanted := R.WithDefaults(resources);
      if !R.Valid(wanted) || id !in states {
        return false, saved;
      }
      var st := states[id];
      if R.WithDefaults(st.resources) == wanted {
        return true, saved;
      }
      var path := PoolPath(s, st.version, st.user);
      var read := Run();
      if !read || path !in files {
        return false, saved;
      }
      var current := files[path];
      var staged := Run();
      if !staged {
        return false, saved;
      }
      var tested := Run();
      if !tested || Binary(st.version) !in files {
        return false, saved;
      }
      var activated := Activate(PoolOf(s, st.(resources := wanted)), path);
      if !activated {
        return false, saved;
      }
      assert files[path := current] == old(files);
      var reloaded := Run();
      if !reloaded {
        files := files[path := current];
        return false, saved;
      }
      var outcome := Save(st.(resources := wanted));
      saved := Some(outcome);
      if outcome != D.Written {
        files := files[path := current];
        return false, saved;
      }
      return true, saved;
    }

    // ---------- Delete ----------

    method DeleteRecord(id: string) returns (outcome: D.Outcome)
      modifies `states, `tick
      ensures states == Kept(old(states), Without(old(states), id), outcome)
      ensures Calm() ==> outcome == D.Written
      ensures NoHalfSave() ==> outcome != D.Committed
    {
      outcome := saves(tick);
      tick := tick + 1;
      if !outcome.NotCommitted? {
        states := Without(states, id);
      }
    }

    /** The rollback of Delete puts the archived site, both configurations and the record back. */
    method UndoDelete(st: State, site: Content, caddy: Content, php: Content)
      modifies `files, `states
      ensures var moved := old(files)[Root(st.domain) := site][Disabled(st.domain) := caddy];
              files == moved[PoolPath(s, st.version, st.user) := php]
      ensures states == old(states)[st.siteID := st]
    {
      files := files[Root(st.domain) := site];
      files := files[Disabled(st.domain) := caddy];
      files := files[PoolPath(s, st.version, st.user) := php];
      states := states[st.siteID := st];
    }

    /** The configuration files and the site directory leave in this order, each undone if the next step fails. */
    method TakeDown(st: State) returns (ok: bool)
      requires Keyed(states) && st.siteID in states && states[st.siteID] == st
      modifies this
      ensures ok ==> && Root(st.domain) in old(files) && Disabled(st.domain) in old(files)
                     && PoolPath(s, st.version, st.user) in old(files) && st.user in old(users)
                     && Now() == EffectDelete(s, old(Now()), st.siteID)
      ensures !ok ==> Now() == old(Now())
      ensures (&& Calm() && Root(st.domain) in old(files) && Disabled(st.domain) in old(files)
               && PoolPath(s, st.version, st.user) in old(files) && st.user in old(users)) ==> ok
    {
      var root, caddyPath, phpPath := Root(st.domain), Disabled(st.domain), PoolPath(s, st.version, st.user);
      var prepared := Run();
      if !prepared || caddyPath !in files || phpPath !in files {
        return false;
      }
      var caddy, php := files[caddyPath], files[phpPath];
      var copied := Run();
      if !copied {
        return false;
      }
      var archived := Run();
      if !archived || root !in files {
        return false;
      }
      var site := files[root];
      files := Without(files, root);
      PutBack(old(files), files, root, caddyPath, phpPath);
      assert old(states)[st.siteID := st] == old(states);
      var caddyRemoved := Run();
      if !caddyRemoved {
        UndoDelete(st, site, caddy, php);
        return false;
      }
      files := Without(files, caddyPath);
      PutBack(old(files), files, root, caddyPath, phpPath);
      var phpRemoved := Run();
      if !phpRemoved {
        UndoDelete(st, site, caddy, php);
        return false;
      }
      files := Without(files, phpPath);
      PutBack(old(files), files, root, caddyPath, phpPath);
      var reloaded := Run();
      if !reloaded {
        UndoDelete(st, site, caddy, php);
        return false;
      }
      assert files == old(files) - {root, caddyPath, phpPath};
      ok := Forget(st);
      if !ok {
        UndoDelete(st, site, caddy, php);
      }
    }

    /** Deletes the record, then the user; a failure in between leaves the record deleted. */
    method Forget(st: State) returns (ok: bool)
      modifies `states, `users, `tick
      ensures ok ==>
                && st.user in old(users) && users == old(users) - {st.user}
                && states == Without(old(states), st.siteID)
      ensures !ok ==> users == old(users) && states[st.siteID := st] == old(states)[st.siteID := st]
      ensures Calm() && st.user in old(users) ==> ok
    {
      var outcome := DeleteRecord(st.siteID);
      if outcome != D.Written {
        return false;
      }
      var userGone := Run();
      if !userGone || st.user !in users {
        return false;
      }
      users := users - {st.user};
      return true;
    }

    method Delete(id: string, confirmed: bool) returns (ok: bool)
      requires Keyed(states)
      modifies this
      ensures ok ==> confirmed
      ensures ok && id in old(states) ==> GuardDelete(s, old(Now()), id) && Now() == EffectDelete(s, old(Now()), id)
      ensures ok && id !in old(states) ==> Now() == old(Now())
      ensures !ok ==> Now() == old(Now())
      ensures Calm() && confirmed && (id in old(states) ==> GuardDelete(s, old(Now()), id)) ==> ok
      ensures Keyed(states)
    {
      if !confirmed {
        return false;
      }
      if id !in states {
        return true;
      }
      var st := states[id];
      if !st.status.Suspended? || st.sftpEnabled || st.databases != [] {
        return false;
      }
      ok := TakeDown(st);
    }
  }

  /** The rollback reaches the original files from anywhere along the way. */
  lemma PutBack(files0: Files, files: Files, root: Path, caddy: Path, php: Path)
    requires root in files0 && caddy in files0 && php in files0
    requires forall p | p !in {root, caddy, php} :: Lookup(files, p) == Lookup(files0, p)
    ensures files[root := files0[root]][caddy := files0[caddy]][php := files0[php]] == files0
  {
    var back := files[root := files0[root]][caddy := files0[caddy]][php := files0[php]];
    forall p ensures Lookup(back, p) == Lookup(files0, p) {
      assert p !in {root, caddy, php} ==> Lookup(files, p) == Lookup(files0, p);
    }
    assert forall p :: p in back <==> Lookup(back, p).Some?;
    assert forall p :: p in files0 <==> Lookup(files0, p).Some?;
    assert forall p <- back :: Lookup(back, p) == Some(back[p]);
  }
}
