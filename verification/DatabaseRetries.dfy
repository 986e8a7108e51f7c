/**
 Repeating a database operation that did not get to its end (internal/database/manager.go): docs/reliability.md
 counts on an idempotent retry, and each operation first asks the record whether there is anything left to do.
 */
module DatabaseRetries {
  import opened Wrappers
  import opened DatabaseServer
  import opened DatabaseGrants
  import D = Durable

  ghost predicate SameValues(a: seq<string>, b: seq<string>) {
    forall x :: x in a <==> x in b
  }

  /** Two records that list the same, up to order and repeats. */
  ghost predicate Agree(a: Record, b: Record) {
    && SameValues(a.databases, b.databases)
    && SameValues(a.users, b.users)
    && forall database :: SameValues(GrantsOf(a, database), GrantsOf(b, database))
  }

  /** The operation, repeated in the same process once nothing fails any more, ends as one that never failed:
      in the record, on the server, in the file, and in its answer. */
  ghost predicate RepeatFinishes(mariadb: bool, r: Record, s: Server, op: Op, w: Weather) {
    var tried := After(mariadb, r, s, op, w);
    var repeated := After(mariadb, tried.record, tried.server, op, CALM);
    var calm := After(mariadb, r, s, op, CALM);
    && Agree(repeated.record, calm.record)
    && repeated.server == calm.server
    && (tried.wrote || repeated.wrote) == calm.wrote
    && repeated.ok == calm.ok
  }

  /** Something new that no rollback took away again. PostgreSQL refuses to make it twice. */
  predicate LeftBehind(t: Touched) {
    !(t.made <= t.dropped) || (t.madeDatabase && !t.droppedDatabase)
  }

  predicate MakesUser(mariadb: bool, s: Server, user: string, w: Weather) {
    w.first.Smooth? && (mariadb || Account(user, Any) !in s.accounts)
  }

  /** A Create whose record did get to the file is answered from the record, whatever the rollback has dropped. */
  predicate CreateLost(mariadb: bool, s: Server, database: string, user: string, w: Weather) {
    var t := CreateTouches(mariadb, s, database, user, w);
    if Makes(mariadb, s, database, user, w) && !w.saved.NotCommitted? then t.dropped != {} || t.droppedDatabase
    else !mariadb && LeftBehind(t)
  }

  predicate CreateUserLost(mariadb: bool, s: Server, user: string, w: Weather) {
    var t := CreateUserTouches(mariadb, s, user, w);
    if MakesUser(mariadb, s, user, w) && !w.saved.NotCommitted? then t.dropped != {}
    else !mariadb && LeftBehind(t)
  }

  /** A Delete that stopped behind its first batch and short of the file, when the squeezed list no longer shows
      the database. */
  ghost predicate DeleteLost(r: Record, database: string, user: string, w: Weather) {
    && w.first.Smooth?
    && (w.saved.NotCommitted? || (!w.second.Smooth? && !Granted(Rows(WithoutDatabase(r, database)), user)))
    && database !in Squeezed(r.databases, database)
  }

  /** When the repetition finds nothing to do though the first try was not written, or cannot get past its start. */
  ghost predicate Lost(mariadb: bool, r: Record, s: Server, op: Op, w: Weather) {
    match op
    case Create(database, user) => database !in r.databases && CreateLost(mariadb, s, database, user, w)
    case Delete(database, user) => database in r.databases && DeleteLost(r, database, user, w)
    case CreateUser(user) => user !in r.users && CreateUserLost(mariadb, s, user, w)
    case DeleteUser(user) =>
      user in r.users && w.first.Smooth? && w.saved.NotCommitted? && user !in Squeezed(r.users, user)
    case Grant(database, user) =>
      && Paired(r, database, user) && user !in GrantsOf(r, database)
      && w.first.Smooth? && w.saved.NotCommitted? && r.grants.Some?
    case Revoke(database, user) =>
      && Paired(r, database, user) && user in GrantsOf(r, database)
      && w.first.Smooth? && w.saved.NotCommitted?
  }

  // ---------- Create ----------

  lemma CalmCreate(mariadb: bool, r: Record, s: Server, database: string, user: string)
    requires database !in r.databases
    ensures AfterCreate(mariadb, r, s, database, user, CALM)
            == if !mariadb && (Account(user, Any) in s.accounts || database in s.databases)
               then Answer(r, s, false, false)
               else Answer(WithDatabase(r, database, user),
                           Server(s.databases + {database}, s.accounts + AccountsOf(mariadb, user)), true, true)
  {
    hide Exec, WithDatabase, Shared;
    CreateEnds(mariadb, r, s, database, user, CALM);
    assert s.databases + {database} - {} == s.databases + {database};
    assert s.accounts + AccountsOf(mariadb, user) - {} == s.accounts + AccountsOf(mariadb, user);
    assert Account(user, Any) !in s.accounts ==> s.accounts + {Account(user, Any)} - {Account(user, Any)} == s.accounts;
  }

  lemma SharedThenWith(r: Record, database: string, user: string)
    ensures WithDatabase(Shared(r, WithDatabase(r, database, user)), database, user) == WithDatabase(r, database, user)
  {
    var g := Rows(r)[database := Added(GrantsOf(r, database), user)];
    assert g[database := g[database]] == g;
  }

  lemma RepeatCreateOnMariaDB(r: Record, s: Server, database: string, user: string, w: Weather)
    requires database !in r.databases
    ensures RepeatFinishes(true, r, s, Create(database, user), w) <==> !CreateLost(true, s, database, user, w)
  {
    hide Exec, WithDatabase, Shared, AfterDelete;
    CreateEnds(true, r, s, database, user, w);
    var tried := AfterCreate(true, r, s, database, user, w);
    CalmCreate(true, r, s, database, user);
    var t := CreateTouches(true, s, database, user, w);
    var all := AccountsOf(true, user);
    if Makes(true, s, database, user, w) && !w.saved.NotCommitted? {
      assert database in WithDatabase(r, database, user).databases by { Listed(r, database, user); }
      assert t.dropped <= all && (t.dropped == {} <==> s.accounts + all - t.dropped == s.accounts + all);
    } else {
      Unlisted(r, database, user);
      CalmCreate(true, tried.record, tried.server, database, user);
      SharedThenWith(r, database, user);
      assert tried.server.accounts + all == s.accounts + all;
      assert tried.server.databases + {database} == s.databases + {database};
    }
  }

  lemma Listed(r: Record, database: string, user: string)
    ensures database in WithDatabase(r, database, user).databases
  {
  }

  lemma Unlisted(r: Record, database: string, user: string)
    ensures Shared(r, WithDatabase(r, database, user)).databases == r.databases
  {
  }

  lemma RepeatCreateOnPostgres(r: Record, s: Server, database: string, user: string, w: Weather)
    requires database !in r.databases
    ensures RepeatFinishes(false, r, s, Create(database, user), w) <==> !CreateLost(false, s, database, user, w)
  {
    hide Exec, WithDatabase, Shared, AfterDelete;
    CreateEnds(false, r, s, database, user, w);
    var tried := AfterCreate(false, r, s, database, user, w);
    CalmCreate(false, r, s, database, user);
    var t := CreateTouches(false, s, database, user, w);
    Listed(r, database, user);
    if !(Makes(false, s, database, user, w) && !w.saved.NotCommitted?) {
      Unlisted(r, database, user);
      CalmCreate(false, tried.record, tried.server, database, user);
      SharedThenWith(r, database, user);
      assert !LeftBehind(t) ==> tried.server == s;
    }
  }

  // ---------- CreateUser ----------

  lemma RepeatCreateUser(mariadb: bool, r: Record, s: Server, user: string, w: Weather)
    requires user !in r.users
    ensures RepeatFinishes(mariadb, r, s, CreateUser(user), w) <==> !CreateUserLost(mariadb, s, user, w)
  {
    hide Exec, AfterDelete;
    CreateUserEnds(mariadb, r, s, user, w);
    CreateUserEnds(mariadb, r, s, user, CALM);
    var tried := AfterCreateUser(mariadb, r, s, user, w);
    var t := CreateUserTouches(mariadb, s, user, w);
    var all := AccountsOf(mariadb, user);
    if MakesUser(mariadb, s, user, w) && !w.saved.NotCommitted? {
      assert t.dropped <= all && (t.dropped == {} <==> s.accounts + all - t.dropped == s.accounts + all);
    } else {
      CreateUserEnds(mariadb, tried.record, tried.server, user, CALM);
      assert mariadb ==> tried.server.accounts + all == s.accounts + all;
      assert !mariadb && !LeftBehind(t) ==> tried.server == s;
    }
  }

  // ---------- Delete ----------

  lemma FilteredTwice(values: seq<string>, target: string)
    ensures SameValues(Filtered(Squeezed(values, target), target), Filtered(values, target))
    ensures SameValues(Filtered(Filtered(values, target), target), Filtered(values, target))
  {
    hide Filtered, Squeezed;
    forall x ensures x in Filtered(Squeezed(values, target), target) <==> x in Filtered(values, target) {
      FilteredHolds(Squeezed(values, target), target, x);
      SqueezedHolds(values, target, x);
      FilteredHolds(values, target, x);
    }
    forall x ensures x in Filtered(Filtered(values, target), target) <==> x in Filtered(values, target) {
      FilteredHolds(Filtered(values, target), target, x);
      FilteredHolds(values, target, x);
    }
  }

  lemma WithoutTwice(grants: Grants, database: string)
    ensures Without(Without(grants, database), database) == Without(grants, database)
  {
  }

  /** The record after the first batch, and what a delete from there without a fault comes to. */
  lemma DeleteFromSqueezed(
    mariadb: bool, r: Record, s: Server, x: Record, y: Server, database: string, user: string
  )
    requires database in r.databases && database in x.databases
    requires x.databases == r.databases || x.databases == Squeezed(r.databases, database)
    requires x.users == r.users
             || (!Granted(Rows(WithoutDatabase(r, database)), user) && x.users == Squeezed(r.users, user))
    requires x.grants == r.grants || x.grants == WithoutDatabase(r, database).grants
    requires y.databases - {database} == s.databases - {database}
    requires y.accounts == s.accounts
             || (!Granted(Rows(WithoutDatabase(r, database)), user)
                 && y.accounts - AccountsOf(mariadb, user) == s.accounts - AccountsOf(mariadb, user))
    ensures var repeated := AfterDelete(mariadb, x, y, database, user, CALM);
            var calm := AfterDelete(mariadb, r, s, database, user, CALM);
            && Agree(repeated.record, calm.record)
            && repeated.server == calm.server && repeated.wrote && calm.wrote && repeated.ok && calm.ok
  {
    hide Exec, Filtered, Squeezed, AfterDelete, Granted, Reached;
    DeleteEnds(mariadb, r, s, database, user, CALM);
    DeleteEnds(mariadb, x, y, database, user, CALM);
    WithoutTwice(Rows(r), database);
    assert Rows(WithoutDatabase(x, database)) == Rows(WithoutDatabase(r, database));
    FilteredTwice(r.databases, database);
    FilteredTwice(r.users, user);
    var repeated := AfterDelete(mariadb, x, y, database, user, CALM);
    var calm := AfterDelete(mariadb, r, s, database, user, CALM);
    assert Rows(repeated.record) == Rows(calm.record);
    assert repeated.server.databases == y.databases - {database} && calm.server.databases == s.databases - {database};
    if Granted(Rows(WithoutDatabase(r, database)), user) {
      assert repeated.server.accounts == y.accounts && calm.server.accounts == s.accounts;
    } else {
      var all := AccountsOf(mariadb, user);
      assert repeated.server.accounts == y.accounts - all && calm.server.accounts == s.accounts - all;
    }
  }

  lemma RepeatDelete(mariadb: bool, r: Record, s: Server, database: string, user: string, w: Weather)
    requires database in r.databases
    ensures RepeatFinishes(mariadb, r, s, Delete(database, user), w) <==> !DeleteLost(r, database, user, w)
  {
    hide Exec, Filtered, Squeezed, AfterDelete, Granted, Reached;
    DeleteEnds(mariadb, r, s, database, user, w);
    DeleteEnds(mariadb, r, s, database, user, CALM);
    FilteredHolds(r.databases, database, database);
    var tried := AfterDelete(mariadb, r, s, database, user, w);
    if tried.wrote {
      Absent(mariadb, tried.record, tried.server, database, user, CALM);
    } else if database in tried.record.databases {
      ReachedIsPart(mariadb, user, w.second);
      DeleteFromSqueezed(mariadb, r, s, tried.record, tried.server, database, user);
    } else {
      Absent(mariadb, tried.record, tried.server, database, user, CALM);
    }
  }

  lemma Absent(mariadb: bool, r: Record, s: Server, database: string, user: string, w: Weather)
    requires database !in r.databases
    ensures AfterDelete(mariadb, r, s, database, user, w) == Answer(r, s, false, true)
  {
    hide Exec;
  }

  lemma ReachedIsPart(mariadb: bool, user: string, luck: Luck)
    ensures Reached(mariadb, user, luck) <= AccountsOf(mariadb, user)
  {
  }

  // ---------- DeleteUser, Grant, Revoke ----------

  lemma RepeatDeleteUser(mariadb: bool, r: Record, s: Server, user: string, w: Weather)
    requires user in r.users
    ensures RepeatFinishes(mariadb, r, s, DeleteUser(user), w)
            <==> !(w.first.Smooth? && w.saved.NotCommitted? && user !in Squeezed(r.users, user))
  {
    hide Exec, Filtered, Squeezed, AfterDelete, Reached;
    DropsUser(mariadb, s, user, w.first);
    DropsUser(mariadb, s, user, Smooth);
    var tried := AfterDeleteUser(mariadb, r, s, user, w);
    DropsUser(mariadb, tried.server, user, Smooth);
    ReachedIsPart(mariadb, user, w.first);
    var all := AccountsOf(mariadb, user);
    assert tried.server.accounts - all == s.accounts - all;
    FilteredHolds(r.users, user, user);
    FilteredTwice(r.users, user);
    forall database ensures SameValues(GrantsOf(WithoutUser(WithoutUser(r, user), user), database),
                                       GrantsOf(WithoutUser(r, user), database)) {
      FilteredTwice(GrantsOf(r, database), user);
    }
  }

  lemma RepeatGrant(mariadb: bool, r: Record, s: Server, database: string, user: string, w: Weather)
    ensures RepeatFinishes(mariadb, r, s, Grant(database, user), w)
            <==> !Lost(mariadb, r, s, Grant(database, user), w)
  {
    hide Exec, AfterDelete;
    PrivilegesEnd(mariadb, s, w.first);
    PrivilegesEnd(mariadb, s, Smooth);
  }

  lemma RepeatRevoke(mariadb: bool, r: Record, s: Server, database: string, user: string, w: Weather)
    ensures RepeatFinishes(mariadb, r, s, Revoke(database, user), w)
            <==> !Lost(mariadb, r, s, Revoke(database, user), w)
  {
    hide Exec, AfterDelete, Filtered;
    PrivilegesEnd(mariadb, s, w.first);
    PrivilegesEnd(mariadb, s, Smooth);
    FilteredHolds(GrantsOf(r, database), user, user);
  }

  // ---------- The theorem ----------

  /** Repeating a failed operation finishes it, but for exactly the cases of `Lost`. */
  lemma RepeatFinishesIff(mariadb: bool, r: Record, s: Server, op: Op, w: Weather)
    ensures RepeatFinishes(mariadb, r, s, op, w) <==> !Lost(mariadb, r, s, op, w)
  {
    match op
    case Create(database, user) =>
      if database !in r.databases {
        if mariadb {
          RepeatCreateOnMariaDB(r, s, database, user, w);
        } else {
          RepeatCreateOnPostgres(r, s, database, user, w);
        }
      }
    case Delete(database, user) =>
      if database in r.databases { RepeatDelete(mariadb, r, s, database, user, w); }
    case CreateUser(user) =>
      if user !in r.users { RepeatCreateUser(mariadb, r, s, user, w); }
    case DeleteUser(user) =>
      if user in r.users { RepeatDeleteUser(mariadb, r, s, user, w); }
    case Grant(database, user) => RepeatGrant(mariadb, r, s, database, user, w);
    case Revoke(database, user) => RepeatRevoke(mariadb, r, s, database, user, w);
  }

  /** One input: of two databases the first is deleted and DROP USER fails. The repetition reports the database as
      absent; its user is still on the server, and the file still lists both. */
  lemma FirstOfTwoIsLost(user: string)
    ensures var r := Record(["one", "two"], [user], Some(map["one" := [user]]));
            var s := Server({"one", "two"}, AccountsOf(true, user));
            var w := CALM.(second := Stops(0));
            var tried := AfterDelete(true, r, s, "one", user, w);
            var repeated := AfterDelete(true, tried.record, tried.server, "one", user, CALM);
            && !tried.ok && !tried.wrote
            && tried.record == Record(["two", "two"], [user], Some(map[]))
            && repeated == Answer(tried.record, Server({"two"}, AccountsOf(true, user)), false, true)
  {
    var r := Record(["one", "two"], [user], Some(map["one" := [user]]));
    var s := Server({"one", "two"}, AccountsOf(true, user));
    DeleteEnds(true, r, s, "one", user, CALM.(second := Stops(0)));
    assert ["one", "two"][..1] == ["one"] && "one" != "two";
    assert Filtered(["one"], "one") == [];
    assert Squeezed(["one", "two"], "one") == ["two", "two"];
    assert Without(map["one" := [user]], "one") == map[];
    assert {"one", "two"} - {"one"} == {"two"};
  }

  /** The operations that take something away, or only change grants, are always finished by repeating them after a
      restart, which reads the record again as the file has it. */
  lemma RestartFinishes(mariadb: bool, r: Record, s: Server, op: Op, w: Weather)
    requires op.Delete? || op.DeleteUser? || op.Grant? || op.Revoke?
    requires !After(mariadb, r, s, op, w).wrote
    ensures var again := After(mariadb, r, After(mariadb, r, s, op, w).server, op, CALM);
            var calm := After(mariadb, r, s, op, CALM);
            && Agree(again.record, calm.record)
            && again.server == calm.server && again.wrote == calm.wrote && again.ok == calm.ok
  {
    hide Exec, AfterDelete, Filtered, Squeezed, Granted, Reached;
    match op
    case Delete(database, user) =>
      if database in r.databases {
        DeleteEnds(mariadb, r, s, database, user, w);
        ReachedIsPart(mariadb, user, w.second);
        var tried := AfterDelete(mariadb, r, s, database, user, w);
        DeleteFromSqueezed(mariadb, r, s, r, tried.server, database, user);
      } else {
        Absent(mariadb, r, s, database, user, CALM);
        Absent(mariadb, r, s, database, user, w);
      }
    case DeleteUser(user) =>
      DropsUser(mariadb, s, user, w.first);
      DropsUser(mariadb, s, user, Smooth);
      var tried := AfterDeleteUser(mariadb, r, s, user, w);
      DropsUser(mariadb, tried.server, user, Smooth);
      ReachedIsPart(mariadb, user, w.first);
      assert tried.server.accounts - AccountsOf(mariadb, user) == s.accounts - AccountsOf(mariadb, user);
    case Grant(_, _) =>
      PrivilegesEnd(mariadb, s, w.first);
      PrivilegesEnd(mariadb, s, Smooth);
    case Revoke(_, _) =>
      PrivilegesEnd(mariadb, s, w.first);
      PrivilegesEnd(mariadb, s, Smooth);
  }
}
