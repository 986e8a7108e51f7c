/** The database manager (internal/database/manager.go), step by step over the store's own records. */
module DatabaseManager {
  import opened Wrappers
  import opened DatabaseServer
  import opened DatabaseGrants
  import opened DatabaseSites
  import D = Durable

  /** `remove`: moves the kept values to the front of the slice it is given and returns how many there are. */
  method RemoveInPlace(values: array<string>, target: string) returns (kept: nat)
    modifies values
    ensures kept == |Filtered(old(values[..]), target)|
    ensures values[..kept] == Filtered(old(values[..]), target)
    ensures values[..] == Squeezed(old(values[..]), target)
  {
    kept := 0;
    ghost var before := values[..];
    for i := 0 to values.Length
      invariant kept <= i && kept == |Filtered(before[..i], target)|
      invariant values[..kept] == Filtered(before[..i], target)
      invariant forall k :: kept <= k < values.Length ==> values[k] == before[k]
    {
      assert before[..i + 1][..i] == before[..i];
      if values[i] != target {
        values[kept] := values[i];
        kept := kept + 1;
      }
    }
    assert before[..values.Length] == before;
  }

  /** Both ends of a removal: what it returns, and what the slice that was passed shows afterwards. */
  method Remove(values: seq<string>, target: string) returns (kept: seq<string>, left: seq<string>)
    ensures kept == Filtered(values, target) && left == Squeezed(values, target)
  {
    var slice := new string[|values|](i requires 0 <= i < |values| => values[i]);
    assert slice[..] == values;
    var n := RemoveInPlace(slice, target);
    return slice[..n], slice[..];
  }

  method IsGranted(grants: Grants, user: string) returns (found: bool)
    ensures found <==> Granted(grants, user)
  {
    var rest := grants.Keys;
    while rest != {}
      invariant rest <= grants.Keys
      invariant forall database <- grants :: database in rest || user !in grants[database]
      decreases rest
    {
      var database :| database in rest;
      if user in grants[database] {
        return true;
      }
      rest := rest - {database};
    }
    return false;
  }

  class Manager {
    const mariadb: bool
    var sites: Sites
    var file: Sites
    var server: Server

    ghost function State(): Fleet
      reads this
    {
      Fleet(sites, file, server)
    }

    /** The state that a step leads to from `f`, and its answer: an unknown site is an error. */
    ghost predicate Takes(f: Fleet, step: Step, ok: bool)
      reads this
    {
      && State() == Stepped(mariadb, f, step)
      && ok == (step.site in f.sites && AnswerTo(mariadb, f, step).ok)
    }

    constructor (mariadb: bool, sites: Sites, file: Sites, server: Server)
      ensures this.mariadb == mariadb && State() == Fleet(sites, file, server)
    {
      this.mariadb, this.sites, this.file, this.server := mariadb, sites, file, server;
    }

    method Execute(batch: seq<Statement>, luck: Luck) returns (ok: bool)
      modifies `server
      ensures Ran(server, ok) == Exec(old(server), batch, luck)
    {
      var ran := Exec(server, batch, luck);
      server := ran.server;
      return ran.ok;
    }

    /** The store's Save: every record goes to the file, and only this one is put back. */
    method Save(id: string, next: Record, saved: D.Outcome) returns (ok: bool)
      requires id in sites
      modifies `sites, `file
      ensures sites == if saved.NotCommitted? then old(sites) else old(sites)[id := next]
      ensures file == if saved.NotCommitted? then old(file) else sites
      ensures ok == saved.Written?
    {
      var previous := sites[id];
      sites := sites[id := next];
      if saved.NotCommitted? {
        WithoutThenPut(sites, id, previous);
        sites := sites[id := previous];
        assert sites == old(sites);
      } else {
        file := sites;
      }
      return saved.Written?;
    }

    method Create(id: string, database: string, user: string, w: Weather) returns (ok: bool)
      modifies this
      ensures Takes(old(State()), Step(id, Op.Create(database, user), w), ok)
    {
      hide Exec, Filtered, Squeezed, Granted, Without;
      if id !in sites {
        return false;
      }
      var r := sites[id];
      assert sites[id := r] == sites;
      if database in r.databases {
        return true;
      }
      var made := Execute(CreateBatch(mariadb, database, user), w.first);
      if !made {
        return false;
      }
      if !mariadb {
        var owned := Execute([CreateDatabase(database, false)], w.second);
        if !owned {
          var _ := Execute(DropUserBatch(mariadb, user), w.undoUser);
          return false;
        }
      }
      var next := WithDatabase(r, database, user);
      // The grant is written into the map the store holds, if it holds one.
      sites := sites[id := Shared(r, next)];
      ok := Save(id, next, w.saved);
      if !ok {
        var _ := Execute([DropDatabase(database)], w.undoDatabase);
        var _ := Execute(DropUserBatch(mariadb, user), w.undoUser);
      }
    }

    method Delete(id: string, database: string, user: string, confirmed: bool, w: Weather) returns (ok: bool)
      modifies this
      ensures !confirmed ==> !ok && State() == old(State())
      ensures confirmed ==> Takes(old(State()), Step(id, Op.Delete(database, user), w), ok)
    {
      hide Exec, Filtered, Squeezed, Granted, Without;
      if !confirmed || id !in sites {
        return false;
      }
      var r := sites[id];
      assert sites[id := r] == sites;
      if database !in r.databases {
        return true;
      }
      var dropped := Execute([DropDatabase(database)], w.first);
      if !dropped {
        return false;
      }
      var databases, left := Remove(r.databases, database);
      var next := WithoutDatabase(r, database);
      sites := sites[id := next.(databases := left)];
      var needed := IsGranted(Rows(next), user);
      if !needed {
        var gone := Execute(DropUserBatch(mariadb, user), w.second);
        if !gone {
          return false;
        }
        var users, leftUsers := Remove(r.users, user);
        sites := sites[id := next.(databases := left, users := leftUsers)];
        next := next.(users := users);
        assert sites == old(sites)[id := next.(databases := left, users := leftUsers)];
      }
      ok := Save(id, next, w.saved);
    }

    method CreateUser(id: string, user: string, w: Weather) returns (ok: bool)
      modifies this
      ensures Takes(old(State()), Step(id, Op.CreateUser(user), w), ok)
    {
      hide Exec, Filtered, Squeezed, Granted, Without;
      if id !in sites {
        return false;
      }
      var r := sites[id];
      assert sites[id := r] == sites;
      if user in r.users {
        return true;
      }
      var made := Execute(CreateUserBatch(mariadb, user), w.first);
      if !made {
        return false;
      }
      ok := Save(id, r.(users := Added(r.users, user)), w.saved);
      if !ok {
        var _ := Execute(DropUserBatch(mariadb, user), w.undoUser);
      }
    }

    /** The loop over the store's own map of grants. */
    method StripGrants(id: string, user: string)
      requires id in sites
      modifies `sites
      ensures var r := old(sites)[id];
              sites == old(sites)[id := r.(grants := WithoutUser(r, user).grants)]
    {
      hide Filtered, Squeezed;
      var r := sites[id];
      assert sites[id := r] == sites;
      var grants := Rows(r);
      var rest := grants.Keys;
      while rest != {}
        invariant rest <= Rows(r).Keys && grants.Keys == Rows(r).Keys
        invariant forall d <- Rows(r) ::
            grants[d] == if d in rest then Rows(r)[d] else Filtered(Rows(r)[d], user)
        invariant sites == old(sites)[id := r.(grants := if r.grants.Some? then Some(grants) else None)]
        decreases rest
      {
        var database :| database in rest;
        var kept, _ := Remove(grants[database], user);
        grants := grants[database := kept];
        sites := sites[id := sites[id].(grants := Some(grants))];
        rest := rest - {database};
      }
      assert grants == Stripped(Rows(r), user);
    }

    method DeleteUser(id: string, user: string, confirmed: bool, w: Weather) returns (ok: bool)
      modifies this
      ensures !confirmed ==> !ok && State() == old(State())
      ensures confirmed ==> Takes(old(State()), Step(id, Op.DeleteUser(user), w), ok)
    {
      hide Exec, Filtered, Squeezed, Granted, Without;
      if !confirmed || id !in sites {
        return false;
      }
      var r := sites[id];
      assert sites[id := r] == sites;
      if user !in r.users {
        return true;
      }
      var gone := Execute(DropUserBatch(mariadb, user), w.first);
      if !gone {
        return false;
      }
      var users, left := Remove(r.users, user);
      sites := sites[id := r.(users := left)];
      StripGrants(id, user);
      var next := sites[id].(users := users);
      assert next == WithoutUser(r, user) && sites == old(sites)[id := next.(users := left)];
      ok := Save(id, next, w.saved);
      assert old(sites)[id := next.(users := left)][id := next] == old(sites)[id := next];
    }

    method Grant(id: string, database: string, user: string, w: Weather) returns (ok: bool)
      modifies this
      ensures Takes(old(State()), Step(id, Op.Grant(database, user), w), ok)
    {
      hide Exec, Filtered, Squeezed, Granted, Without;
      if id !in sites {
        return false;
      }
      var r := sites[id];
      assert sites[id := r] == sites;
      if database !in r.databases || user !in r.users {
        return false;
      }
      if user in GrantsOf(r, database) {
        return true;
      }
      var ran := Execute(GrantBatch(mariadb), w.first);
      if !ran {
        return false;
      }
      var next := WithGrant(r, database, user);
      sites := sites[id := Shared(r, next)];
      ok := Save(id, next, w.saved);
    }

    method Revoke(id: string, database: string, user: string, w: Weather) returns (ok: bool)
      modifies this
      ensures Takes(old(State()), Step(id, Op.Revoke(database, user), w), ok)
    {
      hide Exec, Filtered, Squeezed, Granted, Without;
      if id !in sites {
        return false;
      }
      var r := sites[id];
      assert sites[id := r] == sites;
      if database !in r.databases || user !in r.users {
        return false;
      }
      if user !in GrantsOf(r, database) {
        return true;
      }
      var ran := Execute(RevokeBatch(mariadb), w.first);
      if !ran {
        return false;
      }
      var kept, _ := Remove(GrantsOf(r, database), user);
      sites := sites[id := r.(grants := Some(Rows(r)[database := kept]))];
      ok := Save(id, sites[id], w.saved);
    }
  }
}
