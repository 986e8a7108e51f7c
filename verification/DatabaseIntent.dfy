/**
 What each database operation gives the one who asked for it (internal/database/manager.go): exactly when it answers
 without an error, and what record and server hold then.
 */
module DatabaseIntent {
  import opened Wrappers
  import opened DatabaseServer
  import opened DatabaseGrants
  import D = Durable

  /** Nothing is left to do: what is asked for is listed already, or what shall go is not. */
  predicate Idle(r: Record, op: Op) {
    match op
    case Create(database, _) => database in r.databases
    case Delete(database, _) => database !in r.databases
    case CreateUser(user) => user in r.users
    case DeleteUser(user) => user !in r.users
    case Grant(database, user) => database in r.databases && user in r.users && user in GrantsOf(r, database)
    case Revoke(database, user) => database in r.databases && user in r.users && user !in GrantsOf(r, database)
  }

  /** Some other database of the site is open to the user. */
  ghost predicate OpenElsewhere(r: Record, database: string, user: string) {
    exists other <- Rows(r) :: other != database && user in Rows(r)[other]
  }

  /** No batch of the operation fails. */
  ghost predicate RunsThrough(mariadb: bool, r: Record, s: Server, op: Op, w: Weather) {
    match op
    case Create(database, user) =>
      && w.first.Smooth?
      && (mariadb || (Account(user, Any) !in s.accounts && database !in s.databases && w.second.Smooth?))
    case Delete(database, user) => w.first.Smooth? && (OpenElsewhere(r, database, user) || w.second.Smooth?)
    case CreateUser(user) => w.first.Smooth? && (mariadb || Account(user, Any) !in s.accounts)
    case DeleteUser(_) => w.first.Smooth?
    case Grant(database, user) => database in r.databases && user in r.users && w.first.Smooth?
    case Revoke(database, user) => database in r.databases && user in r.users && w.first.Smooth?
  }

  /** No error exactly if there was nothing to do, or the batches went through and the record was saved. With nothing
      to do nothing changes. */
  lemma OkIff(mariadb: bool, r: Record, s: Server, op: Op, w: Weather)
    ensures var a := After(mariadb, r, s, op, w);
            && (a.ok <==> Idle(r, op) || (RunsThrough(mariadb, r, s, op, w) && w.saved.Written?))
            && (a.wrote <==> !Idle(r, op) && RunsThrough(mariadb, r, s, op, w) && !w.saved.NotCommitted?)
            && (Idle(r, op) ==> a.record == r && a.server == s)
  {
    hide Exec, Reached, WithDatabase, Squeezed, Filtered, WithGrant, WithoutGrant;
    hide CreateTouches, DeleteTouches, CreateUserTouches, Touch;
    match op
    case Create(database, user) =>
      if database !in r.databases { CreateEnds(mariadb, r, s, database, user, w); }
    case Delete(database, user) =>
      if database in r.databases {
        DeleteEnds(mariadb, r, s, database, user, w);
        GrantedElsewhere(r, database, user);
      }
    case CreateUser(user) =>
      if user !in r.users { CreateUserEnds(mariadb, r, s, user, w); }
    case DeleteUser(user) => DropsUser(mariadb, s, user, w.first);
    case Grant(_, _) => PrivilegesEnd(mariadb, s, w.first);
    case Revoke(_, _) => PrivilegesEnd(mariadb, s, w.first);
  }

  lemma GrantedElsewhere(r: Record, database: string, user: string)
    ensures Granted(Rows(WithoutDatabase(r, database)), user) <==> OpenElsewhere(r, database, user)
  {
    var rest := Rows(WithoutDatabase(r, database));
    assert rest == Without(Rows(r), database);
    if OpenElsewhere(r, database, user) {
      var other :| other in Rows(r) && other != database && user in Rows(r)[other];
      assert other in rest && user in rest[other];
    }
  }

  /** `after` lists `value` besides what `before` lists, in the same order. */
  predicate Joined(before: seq<string>, after: seq<string>, value: string) {
    && before <= after
    && value in after
    && |after| == |before| + (if value in before then 0 else 1)
  }

  /** `after` lists what `before` lists, as often, but for `value`. */
  predicate Left(before: seq<string>, after: seq<string>, value: string) {
    multiset(after) == multiset(before)[value := 0]
  }

  /** Who may open what afterwards: as before, but for the one database or the one user. */
  ghost predicate SameRows(before: Record, after: Record, database: string) {
    forall d :: d != database ==> GrantsOf(after, d) == GrantsOf(before, d)
  }

  function EveryAccount(mariadb: bool, user: string): set<Account> {
    if mariadb then {Account(user, Any), Account(user, Localhost), Account(user, Loopback)} else {Account(user, Any)}
  }

  /** What the operation is for. */
  ghost predicate Done(mariadb: bool, before: Record, after: Record, s: Server, s': Server, op: Op) {
    match op
    case Create(database, user) =>
      && Joined(before.databases, after.databases, database) && Joined(before.users, after.users, user)
      && Joined(GrantsOf(before, database), GrantsOf(after, database), user) && SameRows(before, after, database)
      && s' == Server(s.databases + {database}, s.accounts + EveryAccount(mariadb, user))
    case Delete(database, user) =>
      var kept := OpenElsewhere(before, database, user);
      && Left(before.databases, after.databases, database)
      && (if kept then after.users == before.users else Left(before.users, after.users, user))
      && database !in Rows(after) && SameRows(before, after, database)
      && s' == Server(s.databases - {database}, if kept then s.accounts else s.accounts - EveryAccount(mariadb, user))
    case CreateUser(user) =>
      && after == before.(users := after.users) && Joined(before.users, after.users, user)
      && s' == Server(s.databases, s.accounts + EveryAccount(mariadb, user))
    case DeleteUser(user) =>
      && after.databases == before.databases && Left(before.users, after.users, user)
      && (forall d :: Left(GrantsOf(before, d), GrantsOf(after, d), user))
      && s' == Server(s.databases, s.accounts - EveryAccount(mariadb, user))
    case Grant(database, user) =>
      && after == before.(grants := after.grants) && SameRows(before, after, database)
      && Joined(GrantsOf(before, database), GrantsOf(after, database), user) && s' == s
    case Revoke(database, user) =>
      && after == before.(grants := after.grants) && SameRows(before, after, database)
      && Left(GrantsOf(before, database), GrantsOf(after, database), user) && s' == s
  }

  lemma {:induction false} FilteredLeaves(values: seq<string>, target: string)
    ensures Left(values, Filtered(values, target), target)
  {
    if values != [] {
      var front, last := values[..|values| - 1], values[|values| - 1];
      assert values == front + [last];
      FilteredLeaves(front, target);
    }
  }

  lemma CreateDone(mariadb: bool, r: Record, s: Server, database: string, user: string, w: Weather)
    requires AfterCreate(mariadb, r, s, database, user, w).ok && database !in r.databases
    ensures var a := AfterCreate(mariadb, r, s, database, user, w);
            Done(mariadb, r, a.record, s, a.server, Create(database, user))
  {
    hide Exec;
    CreateEnds(mariadb, r, s, database, user, w);
  }

  lemma DeleteDone(mariadb: bool, r: Record, s: Server, database: string, user: string, w: Weather)
    requires AfterDelete(mariadb, r, s, database, user, w).ok && database in r.databases
    ensures var a := AfterDelete(mariadb, r, s, database, user, w);
            Done(mariadb, r, a.record, s, a.server, Delete(database, user))
  {
    hide Exec, Squeezed, Filtered, Granted, OpenElsewhere;
    DeleteEnds(mariadb, r, s, database, user, w);
    GrantedElsewhere(r, database, user);
    FilteredLeaves(r.databases, database);
    FilteredLeaves(r.users, user);
  }

  lemma DeleteUserDone(mariadb: bool, r: Record, s: Server, user: string, w: Weather)
    requires AfterDeleteUser(mariadb, r, s, user, w).ok && user in r.users
    ensures var a := AfterDeleteUser(mariadb, r, s, user, w);
            Done(mariadb, r, a.record, s, a.server, DeleteUser(user))
  {
    hide Exec, Squeezed, Filtered;
    DropsUser(mariadb, s, user, w.first);
    FilteredLeaves(r.users, user);
    forall d ensures Left(GrantsOf(r, d), GrantsOf(AfterDeleteUser(mariadb, r, s, user, w).record, d), user) {
      FilteredLeaves(GrantsOf(r, d), user);
    }
  }

  lemma RevokeDone(mariadb: bool, r: Record, s: Server, database: string, user: string, w: Weather)
    requires AfterRevoke(mariadb, r, s, database, user, w).ok && user in GrantsOf(r, database)
    ensures var a := AfterRevoke(mariadb, r, s, database, user, w);
            Done(mariadb, r, a.record, s, a.server, Revoke(database, user))
  {
    hide Exec, Filtered;
    PrivilegesEnd(mariadb, s, w.first);
    FilteredLeaves(GrantsOf(r, database), user);
  }

  /** Whatever fails on the way, an operation that answers without an error and had something to do has done what it
      is for. */
  lemma OkMeansDone(mariadb: bool, r: Record, s: Server, op: Op, w: Weather)
    requires After(mariadb, r, s, op, w).ok && !Idle(r, op)
    ensures var a := After(mariadb, r, s, op, w); Done(mariadb, r, a.record, s, a.server, op)
  {
    hide Exec, AfterCreate, AfterDelete, AfterDeleteUser, AfterRevoke;
    match op
    case Create(database, user) => CreateDone(mariadb, r, s, database, user, w);
    case Delete(database, user) => DeleteDone(mariadb, r, s, database, user, w);
    case CreateUser(user) => CreateUserEnds(mariadb, r, s, user, w);
    case DeleteUser(user) => DeleteUserDone(mariadb, r, s, user, w);
    case Grant(database, user) => PrivilegesEnd(mariadb, s, w.first);
    case Revoke(database, user) =>
      assert AfterRevoke(mariadb, r, s, database, user, w).ok ==> Paired(r, database, user) by {
        OkIff(mariadb, r, s, op, w);
      }
      RevokeDone(mariadb, r, s, database, user, w);
  }

  /** Asking again after success finds nothing to do. */
  lemma AskingAgainIsIdle(mariadb: bool, r: Record, s: Server, op: Op, w: Weather)
    requires After(mariadb, r, s, op, w).ok
    ensures Idle(After(mariadb, r, s, op, w).record, op)
  {
    var after := After(mariadb, r, s, op, w).record;
    if Idle(r, op) {
      OkIff(mariadb, r, s, op, w);
    } else {
      OkMeansDone(mariadb, r, s, op, w);
      match op
      case Delete(database, _) => assert multiset(after.databases)[database] == 0;
      case DeleteUser(user) => assert multiset(after.users)[user] == 0;
      case Revoke(database, user) => assert multiset(GrantsOf(after, database))[user] == 0;
      case _ =>
    }
  }
}
