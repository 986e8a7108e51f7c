/**
 A site's databases, their users and who may open what (internal/database/manager.go).

 The store hands out its own record (internal/site/state.go:120-125), so its slices and its map of grants are
 shared with the operation: what that does to them in place stays in memory even if the save comes to nothing.
 */
module DatabaseGrants {
  import opened Wrappers
  import opened DatabaseServer
  import D = Durable

  type Grants = map<string, seq<string>>

  /** Grants are `None` as long as the source's map is nil. */
  datatype Record = Record(databases: seq<string>, users: seq<string>, grants: Option<Grants>)

  /** How the batches of an operation go, those of its rollback, and how saving the record ends. */
  datatype Weather = Weather(first: Luck, second: Luck, undoDatabase: Luck, undoUser: Luck, saved: D.Outcome)

  const CALM := Weather(Smooth, Smooth, Smooth, Smooth, D.Written)

  /** The record in memory afterwards, the server, whether the record reached the file, and no error. */
  datatype Answer = Answer(record: Record, server: Server, wrote: bool, ok: bool)

  function Rows(r: Record): Grants {
    match r.grants
    case None => map[]
    case Some(grants) => grants
  }

  function GrantsOf(r: Record, database: string): seq<string> {
    if database in Rows(r) then Rows(r)[database] else []
  }

  /** `granted` */
  ghost predicate Granted(grants: Grants, user: string) {
    exists database :: database in grants && user in grants[database]
  }

  /** `appendUnique` */
  function Added(values: seq<string>, value: string): seq<string> {
    if value in values then values else values + [value]
  }

  /** What `remove` returns. */
  function Filtered(values: seq<string>, target: string): (kept: seq<string>)
    ensures |kept| <= |values|
  {
    if values == [] then []
    else
      var front := Filtered(values[..|values| - 1], target);
      if values[|values| - 1] == target then front else front + [values[|values| - 1]]
  }

  /** What `remove` leaves in the slice it was given: the kept values moved down, the end as it was. */
  function Squeezed(values: seq<string>, target: string): (left: seq<string>)
    ensures |left| == |values|
  {
    Filtered(values, target) + values[|Filtered(values, target)|..]
  }

  lemma {:induction false} FilteredHolds(values: seq<string>, target: string, x: string)
    ensures x in Filtered(values, target) <==> x in values && x != target
  {
    if values != [] {
      assert values == values[..|values| - 1] + [values[|values| - 1]];
      FilteredHolds(values[..|values| - 1], target, x);
    }
  }

  /** Squeezing loses no other value, and invents none. */
  lemma SqueezedHolds(values: seq<string>, target: string, x: string)
    ensures x in Squeezed(values, target) ==> x in values
    ensures x in values && x != target ==> x in Squeezed(values, target)
  {
    FilteredHolds(values, target, x);
  }

  lemma {:induction false} FilteredFrom(values: seq<string>, target: string)
    requires target !in values
    ensures Filtered(values, target) == values
  {
    if values != [] {
      FilteredFrom(values[..|values| - 1], target);
    }
  }

  ghost predicate Distinct(values: seq<string>) {
    forall i, j :: 0 <= i < j < |values| ==> values[i] != values[j]
  }

  lemma {:induction false} OneGone(values: seq<string>, target: string)
    requires Distinct(values) && target in values
    ensures |Filtered(values, target)| == |values| - 1
  {
    var front := values[..|values| - 1];
    if values[|values| - 1] == target {
      FilteredFrom(front, target);
    } else {
      assert target in front;
      OneGone(front, target);
    }
  }

  /** A removed value is still shown by the slice it was removed from exactly if it was the last of it. */
  lemma StillShownIff(values: seq<string>, target: string)
    requires Distinct(values) && target in values
    ensures target in Squeezed(values, target) <==> values[|values| - 1] == target
  {
    OneGone(values, target);
    FilteredHolds(values, target, target);
    var kept := Filtered(values, target);
    assert values[|kept|..] == [values[|values| - 1]];
  }

  // ---------- Specification ----------

  /** `next` is saved over a record that the operation has turned into `shared`; `undone` is the server after
      the rollback. */
  function Saved(shared: Record, next: Record, server: Server, undone: Server, outcome: D.Outcome): Answer {
    Answer(if outcome.NotCommitted? then shared else next, if outcome.Written? then server else undone,
           !outcome.NotCommitted?, outcome.Written?)
  }

  /** The grants of `next`, if there was a map to write them into. */
  function Shared(r: Record, next: Record): Record {
    if r.grants.Some? then r.(grants := next.grants) else r
  }

  function WithGrant(r: Record, database: string, user: string): Record {
    r.(grants := Some(Rows(r)[database := Added(GrantsOf(r, database), user)]))
  }

  function WithDatabase(r: Record, database: string, user: string): Record {
    WithGrant(r, database, user).(databases := r.databases + [database], users := Added(r.users, user))
  }

  function UserDropped(mariadb: bool, s: Server, user: string, luck: Luck): Server {
    Exec(s, DropUserBatch(mariadb, user), luck).server
  }

  function AfterCreate(mariadb: bool, r: Record, s: Server, database: string, user: string, w: Weather): Answer {
    var made := Exec(s, CreateBatch(mariadb, database, user), w.first);
    var owned := if mariadb then made else Exec(made.server, [CreateDatabase(database, false)], w.second);
    if database in r.databases then Answer(r, s, false, true)
    else if !made.ok then Answer(r, made.server, false, false)
    else if !owned.ok then Answer(r, UserDropped(mariadb, owned.server, user, w.undoUser), false, false)
    else
      var next := WithDatabase(r, database, user);
      var bare := Exec(owned.server, [DropDatabase(database)], w.undoDatabase).server;
      Saved(Shared(r, next), next, owned.server, UserDropped(mariadb, bare, user, w.undoUser), w.saved)
  }

  function WithoutDatabase(r: Record, database: string): Record {
    Record(Filtered(r.databases, database), r.users,
           if r.grants.Some? then Some(Without(r.grants.value, database)) else None)
  }

  ghost function AfterDelete(mariadb: bool, r: Record, s: Server, database: string, user: string, w: Weather)
    : Answer
  {
    var dropped := Exec(s, [DropDatabase(database)], w.first);
    var next := WithoutDatabase(r, database);
    var shared := next.(databases := Squeezed(r.databases, database));
    var gone := Exec(dropped.server, DropUserBatch(mariadb, user), w.second);
    if database !in r.databases then Answer(r, s, false, true)
    else if !dropped.ok then Answer(r, dropped.server, false, false)
    else if Granted(Rows(next), user) then Saved(shared, next, dropped.server, dropped.server, w.saved)
    else if !gone.ok then Answer(shared, gone.server, false, false)
    else
      Saved(shared.(users := Squeezed(r.users, user)), next.(users := Filtered(r.users, user)),
            gone.server, gone.server, w.saved)
  }

  function AfterCreateUser(mariadb: bool, r: Record, s: Server, user: string, w: Weather): Answer {
    var made := Exec(s, CreateUserBatch(mariadb, user), w.first);
    if user in r.users then Answer(r, s, false, true)
    else if !made.ok then Answer(r, made.server, false, false)
    else
      Saved(r, r.(users := Added(r.users, user)), made.server,
            UserDropped(mariadb, made.server, user, w.undoUser), w.saved)
  }

  function Stripped(grants: Grants, user: string): Grants {
    map database | database in grants :: Filtered(grants[database], user)
  }

  function WithoutUser(r: Record, user: string): Record {
    Record(r.databases, Filtered(r.users, user),
           if r.grants.Some? then Some(Stripped(r.grants.value, user)) else None)
  }

  function AfterDeleteUser(mariadb: bool, r: Record, s: Server, user: string, w: Weather): Answer {
    var gone := Exec(s, DropUserBatch(mariadb, user), w.first);
    if user !in r.users then Answer(r, s, false, true)
    else if !gone.ok then Answer(r, gone.server, false, false)
    else
      Saved(WithoutUser(r, user).(users := Squeezed(r.users, user)), WithoutUser(r, user),
            gone.server, gone.server, w.saved)
  }

  predicate Paired(r: Record, database: string, user: string) {
    database in r.databases && user in r.users
  }

  function AfterGrant(mariadb: bool, r: Record, s: Server, database: string, user: string, w: Weather): Answer {
    var ran := Exec(s, GrantBatch(mariadb), w.first);
    var next := WithGrant(r, database, user);
    if !Paired(r, database, user) then Answer(r, s, false, false)
    else if user in GrantsOf(r, database) then Answer(r, s, false, true)
    else if !ran.ok then Answer(r, ran.server, false, false)
    else Saved(Shared(r, next), next, ran.server, ran.server, w.saved)
  }

  function WithoutGrant(r: Record, database: string, user: string): Record {
    r.(grants := Some(Rows(r)[database := Filtered(GrantsOf(r, database), user)]))
  }

  function AfterRevoke(mariadb: bool, r: Record, s: Server, database: string, user: string, w: Weather): Answer {
    var ran := Exec(s, RevokeBatch(mariadb), w.first);
    var next := WithoutGrant(r, database, user);
    if !Paired(r, database, user) then Answer(r, s, false, false)
    else if user !in GrantsOf(r, database) then Answer(r, s, false, true)
    else if !ran.ok then Answer(r, ran.server, false, false)
    else Saved(next, next, ran.server, ran.server, w.saved)
  }

  datatype Op =
    | Create(database: string, user: string)
    | Delete(database: string, user: string)
    | CreateUser(user: string)
    | DeleteUser(user: string)
    | Grant(database: string, user: string)
    | Revoke(database: string, user: string)

  ghost function After(mariadb: bool, r: Record, s: Server, op: Op, w: Weather): Answer {
    match op
    case Create(database, user) => AfterCreate(mariadb, r, s, database, user, w)
    case Delete(database, user) => AfterDelete(mariadb, r, s, database, user, w)
    case CreateUser(user) => AfterCreateUser(mariadb, r, s, user, w)
    case DeleteUser(user) => AfterDeleteUser(mariadb, r, s, user, w)
    case Grant(database, user) => AfterGrant(mariadb, r, s, database, user, w)
    case Revoke(database, user) => AfterRevoke(mariadb, r, s, database, user, w)
  }

  // ---------- What an operation does to the server ----------

  /** What is made and then what is dropped, of the accounts of the user and of the database. */
  datatype Touched = Touched(made: set<Account>, madeDatabase: bool, dropped: set<Account>, droppedDatabase: bool)

  const UNTOUCHED := Touched({}, false, {}, false)

  /** Whether Create gets as far as the record. */
  predicate Makes(mariadb: bool, s: Server, database: string, user: string, w: Weather) {
    && w.first.Smooth?
    && (mariadb || (Account(user, Any) !in s.accounts && database !in s.databases && w.second.Smooth?))
  }

  /** A first batch that fails is not rolled back. */
  function CreateTouches(mariadb: bool, s: Server, database: string, user: string, w: Weather): Touched {
    var made := Reached(mariadb, user, w.first);
    var madeDatabase :=
      if mariadb then Reaches(w.first, 3)
      else w.first.Smooth? && database !in s.databases && Reaches(w.second, 0);
    if !mariadb && Account(user, Any) in s.accounts then UNTOUCHED
    else if !w.first.Smooth? || (Makes(mariadb, s, database, user, w) && w.saved.Written?) then
      Touched(made, madeDatabase, {}, false)
    else
      Touched(made, madeDatabase, Reached(mariadb, user, w.undoUser),
              Makes(mariadb, s, database, user, w) && Reaches(w.undoDatabase, 0))
  }

  ghost function DeleteTouches(mariadb: bool, r: Record, database: string, user: string, w: Weather): Touched {
    Touched({}, false,
            if !w.first.Smooth? || Granted(Rows(WithoutDatabase(r, database)), user) then {}
            else Reached(mariadb, user, w.second),
            Reaches(w.first, 0))
  }

  function CreateUserTouches(mariadb: bool, s: Server, user: string, w: Weather): Touched {
    if !mariadb && Account(user, Any) in s.accounts then UNTOUCHED
    else
      Touched(Reached(mariadb, user, w.first), false,
              if w.first.Smooth? && !w.saved.Written? then Reached(mariadb, user, w.undoUser) else {}, false)
  }

  ghost function Touches(mariadb: bool, r: Record, s: Server, op: Op, w: Weather): Touched {
    match op
    case Create(database, user) =>
      if database in r.databases then UNTOUCHED else CreateTouches(mariadb, s, database, user, w)
    case Delete(database, user) =>
      if database in r.databases then DeleteTouches(mariadb, r, database, user, w) else UNTOUCHED
    case CreateUser(user) => if user in r.users then UNTOUCHED else CreateUserTouches(mariadb, s, user, w)
    case DeleteUser(user) =>
      if user in r.users then Touched({}, false, Reached(mariadb, user, w.first), false) else UNTOUCHED
    case Grant(_, _) => UNTOUCHED
    case Revoke(_, _) => UNTOUCHED
  }

  function DatabaseOf(op: Op): string {
    if op.CreateUser? || op.DeleteUser? then "" else op.database
  }

  function Touch(s: Server, database: string, t: Touched): Server {
    Server((s.databases + (if t.madeDatabase then {database} else {})) - (if t.droppedDatabase then {database} else {}),
           (s.accounts + t.made) - t.dropped)
  }

  lemma {:induction false} OneStatement(s: Server, statement: Statement, luck: Luck)
    ensures Exec(s, [statement], luck)
            == if luck == Stops(0) || Refused(s, statement) then Ran(s, false)
               else Ran(CarriedOut(s, statement), luck.Smooth?)
  {
    Head(s, statement, [], luck);
    assert [statement] + [] == [statement];
  }

  lemma CreateOnMariaDB(r: Record, s: Server, database: string, user: string, w: Weather)
    requires database !in r.databases
    ensures var a := AfterCreate(true, r, s, database, user, w);
            && a.server == Touch(s, database, CreateTouches(true, s, database, user, w))
            && (if Makes(true, s, database, user, w)
                then var next := WithDatabase(r, database, user);
                     a == Saved(Shared(r, next), next, a.server, a.server, w.saved)
                else a == Answer(r, a.server, false, false))
  {
    hide Exec, Reached, WithDatabase, Shared;
    CreatesBoth(s, database, user, w.first);
    var made := Exec(s, CreateBatch(true, database, user), w.first).server;
    OneStatement(made, DropDatabase(database), w.undoDatabase);
    DropsUser(true, Exec(made, [DropDatabase(database)], w.undoDatabase).server, user, w.undoUser);
  }

  lemma CreateOnPostgres(r: Record, s: Server, database: string, user: string, w: Weather)
    requires database !in r.databases
    ensures var a := AfterCreate(false, r, s, database, user, w);
            && a.server == Touch(s, database, CreateTouches(false, s, database, user, w))
            && (if Makes(false, s, database, user, w)
                then var next := WithDatabase(r, database, user);
                     a == Saved(Shared(r, next), next, a.server, a.server, w.saved)
                else a == Answer(r, a.server, false, false))
  {
    hide Exec, Reached, WithDatabase, Shared;
    CreatesUser(false, s, user, w.first);
    var made := Exec(s, CreateBatch(false, database, user), w.first).server;
    OneStatement(made, CreateDatabase(database, false), w.second);
    var owned := Exec(made, [CreateDatabase(database, false)], w.second).server;
    OneStatement(owned, DropDatabase(database), w.undoDatabase);
    DropsUser(false, Exec(owned, [DropDatabase(database)], w.undoDatabase).server, user, w.undoUser);
    DropsUser(false, owned, user, w.undoUser);
  }

  lemma CreateEnds(mariadb: bool, r: Record, s: Server, database: string, user: string, w: Weather)
    requires database !in r.databases
    ensures var a := AfterCreate(mariadb, r, s, database, user, w);
            && a.server == Touch(s, database, CreateTouches(mariadb, s, database, user, w))
            && (if Makes(mariadb, s, database, user, w)
                then var next := WithDatabase(r, database, user);
                     a == Saved(Shared(r, next), next, a.server, a.server, w.saved)
                else a == Answer(r, a.server, false, false))
  {
    if mariadb {
      CreateOnMariaDB(r, s, database, user, w);
    } else {
      CreateOnPostgres(r, s, database, user, w);
    }
  }

  lemma DeleteEnds(mariadb: bool, r: Record, s: Server, database: string, user: string, w: Weather)
    requires database in r.databases
    ensures var a := AfterDelete(mariadb, r, s, database, user, w);
            var next := WithoutDatabase(r, database);
            var shared := next.(databases := Squeezed(r.databases, database));
            && a.server == Touch(s, database, DeleteTouches(mariadb, r, database, user, w))
            && (if !w.first.Smooth? then a == Answer(r, a.server, false, false)
                else if Granted(Rows(next), user) then a == Saved(shared, next, a.server, a.server, w.saved)
                else if !w.second.Smooth? then a == Answer(shared, a.server, false, false)
                else a == Saved(shared.(users := Squeezed(r.users, user)), next.(users := Filtered(r.users, user)),
                                a.server, a.server, w.saved))
  {
    hide Exec, Reached, WithoutDatabase, Squeezed, Filtered, Granted;
    OneStatement(s, DropDatabase(database), w.first);
    DropsUser(mariadb, Exec(s, [DropDatabase(database)], w.first).server, user, w.second);
  }

  lemma CreateUserEnds(mariadb: bool, r: Record, s: Server, user: string, w: Weather)
    requires user !in r.users
    ensures var a := AfterCreateUser(mariadb, r, s, user, w);
            && a.server == Touch(s, "", CreateUserTouches(mariadb, s, user, w))
            && (if w.first.Smooth? && (mariadb || Account(user, Any) !in s.accounts)
                then a == Saved(r, r.(users := r.users + [user]), a.server, a.server, w.saved)
                else a == Answer(r, a.server, false, false))
  {
    hide Exec, Reached;
    CreatesUser(mariadb, s, user, w.first);
    DropsUser(mariadb, Exec(s, CreateUserBatch(mariadb, user), w.first).server, user, w.undoUser);
  }

  lemma PrivilegesEnd(mariadb: bool, s: Server, luck: Luck)
    ensures Exec(s, GrantBatch(mariadb), luck) == Ran(s, luck.Smooth?)
    ensures Exec(s, RevokeBatch(mariadb), luck) == Ran(s, luck.Smooth?)
  {
    PrivilegesChangeNothing(s, GrantBatch(mariadb), luck);
    PrivilegesChangeNothing(s, RevokeBatch(mariadb), luck);
  }

  /** Every operation adds what it makes to the server and takes away what it drops, and nothing else. */
  lemma ServerAfter(mariadb: bool, r: Record, s: Server, op: Op, w: Weather)
    ensures After(mariadb, r, s, op, w).server == Touch(s, DatabaseOf(op), Touches(mariadb, r, s, op, w))
  {
    hide Exec, Reached, WithDatabase, WithoutDatabase, Squeezed, Filtered, Granted, WithGrant, WithoutGrant;
    hide CreateTouches, DeleteTouches, CreateUserTouches;
    match op
    case Create(database, user) =>
      if database !in r.databases { CreateEnds(mariadb, r, s, database, user, w); }
    case Delete(database, user) =>
      if database in r.databases { DeleteEnds(mariadb, r, s, database, user, w); }
    case CreateUser(user) =>
      if user !in r.users { CreateUserEnds(mariadb, r, s, user, w); }
    case DeleteUser(user) => DropsUser(mariadb, s, user, w.first);
    case Grant(_, _) => PrivilegesEnd(mariadb, s, w.first);
    case Revoke(_, _) => PrivilegesEnd(mariadb, s, w.first);
  }

  // ---------- Properties of one operation ----------

  /** Grants speak only of listed databases and listed users. */
  ghost predicate Closed(r: Record) {
    && (forall database <- Rows(r) :: database in r.databases)
    && (forall database <- Rows(r), user <- Rows(r)[database] :: user in r.users)
  }

  /** Create writes its grant into the shared map before a save that comes to nothing. */
  predicate LeaksGrant(mariadb: bool, r: Record, s: Server, op: Op, w: Weather) {
    && op.Create?
    && op.database !in r.databases
    && Makes(mariadb, s, op.database, op.user, w)
    && w.saved.NotCommitted?
    && r.grants.Some?
  }

  /** Whatever fails, grants stay closed, but for that one case, in which they never do. */
  lemma StaysClosedIff(mariadb: bool, r: Record, s: Server, op: Op, w: Weather)
    requires Closed(r)
    ensures Closed(After(mariadb, r, s, op, w).record) <==> !LeaksGrant(mariadb, r, s, op, w)
  {
    hide Exec, Filtered, Squeezed, Reached;
    match op
    case Create(database, user) => CreateStaysClosedIff(mariadb, r, s, database, user, w);
    case Delete(database, user) => DeleteStaysClosed(mariadb, r, s, database, user, w);
    case CreateUser(user) => UserAddedStaysClosed(r, user);
    case DeleteUser(user) => DeleteUserStaysClosed(mariadb, r, s, user, w);
    case Grant(database, user) =>
    case Revoke(database, user) => RevokeStaysClosed(mariadb, r, s, database, user, w);
  }

  lemma CreateStaysClosedIff(mariadb: bool, r: Record, s: Server, database: string, user: string, w: Weather)
    requires Closed(r)
    ensures Closed(AfterCreate(mariadb, r, s, database, user, w).record)
            <==> !LeaksGrant(mariadb, r, s, Create(database, user), w)
  {
    hide Exec, Makes, CreateTouches;
    var next := WithDatabase(r, database, user);
    assert Closed(next) by {
      assert database in next.databases && user in next.users;
    }
    if database !in r.databases {
      CreateEnds(mariadb, r, s, database, user, w);
      assert r.grants.Some? ==> database in Rows(Shared(r, next));
    }
  }

  /** A record that keeps what the grants left over speak of. */
  lemma ShrunkIsClosed(r: Record, x: Record, database: string, user: string)
    requires Closed(r) && Rows(x) == Without(Rows(r), database)
    requires x.databases == Filtered(r.databases, database) || x.databases == Squeezed(r.databases, database)
    requires x.users == r.users
             || (!Granted(Rows(x), user)
                 && (x.users == Filtered(r.users, user) || x.users == Squeezed(r.users, user)))
    ensures Closed(x)
  {
    hide Filtered, Squeezed;
    forall d | d in Rows(x) ensures d in x.databases {
      FilteredHolds(r.databases, database, d);
      SqueezedHolds(r.databases, database, d);
    }
    forall d, u | d in Rows(x) && u in Rows(x)[d] ensures u in x.users {
      FilteredHolds(r.users, user, u);
      SqueezedHolds(r.users, user, u);
    }
  }

  lemma DeleteStaysClosed(mariadb: bool, r: Record, s: Server, database: string, user: string, w: Weather)
    requires Closed(r)
    ensures Closed(AfterDelete(mariadb, r, s, database, user, w).record)
  {
    hide Exec, Filtered, Squeezed, DeleteTouches;
    if database in r.databases {
      DeleteEnds(mariadb, r, s, database, user, w);
      var x := AfterDelete(mariadb, r, s, database, user, w).record;
      if w.first.Smooth? {
        ShrunkIsClosed(r, x, database, user);
      }
    }
  }

  lemma UserAddedStaysClosed(r: Record, user: string)
    requires Closed(r)
    ensures Closed(r.(users := Added(r.users, user)))
  {
    var x := r.(users := Added(r.users, user));
    forall d, u | d in Rows(x) && u in Rows(x)[d] ensures u in x.users {
      assert u in Rows(r)[d];
    }
  }

  lemma DeleteUserStaysClosed(mariadb: bool, r: Record, s: Server, user: string, w: Weather)
    requires Closed(r)
    ensures Closed(AfterDeleteUser(mariadb, r, s, user, w).record)
  {
    hide Exec, Filtered, Squeezed;
    var x := AfterDeleteUser(mariadb, r, s, user, w).record;
    forall d, u | d in Rows(x) && u in Rows(x)[d] ensures u in x.users {
      FilteredHolds(r.users, user, u);
      SqueezedHolds(r.users, user, u);
      FilteredHolds(Rows(r)[d], user, u);
    }
  }

  lemma RevokeStaysClosed(mariadb: bool, r: Record, s: Server, database: string, user: string, w: Weather)
    requires Closed(r)
    ensures Closed(AfterRevoke(mariadb, r, s, database, user, w).record)
  {
    hide Exec, Filtered, Squeezed;
    var x := AfterRevoke(mariadb, r, s, database, user, w).record;
    forall d, u | d in Rows(x) && u in Rows(x)[d] ensures u in x.users {
      FilteredHolds(GrantsOf(r, database), user, u);
    }
  }

  // ---------- A Create that fails ----------

  /** What a failed Create leaves: the record is as it was exactly if it stopped before it, or the save came to
      nothing and no shared map was written; accounts and databases are as they were exactly if all that was new
      has been dropped again and nothing that was there before. */
  lemma FailedCreateRestoresIff(mariadb: bool, r: Record, s: Server, database: string, user: string, w: Weather)
    requires database !in r.databases && !(Makes(mariadb, s, database, user, w) && w.saved.Written?)
    ensures var a := AfterCreate(mariadb, r, s, database, user, w);
            var t := CreateTouches(mariadb, s, database, user, w);
            && !a.ok
            && (a.record == r
                <==> !Makes(mariadb, s, database, user, w)
                     || (w.saved.NotCommitted? && (r.grants.None? || user in GrantsOf(r, database))))
            && (a.server.accounts == s.accounts <==> t.made - s.accounts <= t.dropped && t.dropped !! s.accounts)
            && (a.server.databases == s.databases
                <==> if database in s.databases then !t.droppedDatabase else t.madeDatabase ==> t.droppedDatabase)
  {
    hide Exec, Makes, CreateTouches;
    CreateEnds(mariadb, r, s, database, user, w);
    var a := AfterCreate(mariadb, r, s, database, user, w);
    var t := CreateTouches(mariadb, s, database, user, w);
    var next := WithDatabase(r, database, user);
    assert database in next.databases;
    if user in GrantsOf(r, database) {
      assert Rows(r)[database := Rows(r)[database]] == Rows(r);
    }
    assert user in GrantsOf(next, database);
    RestoredIff(s.accounts, t.made, t.dropped);
  }

  lemma RestoredIff(before: set<Account>, made: set<Account>, dropped: set<Account>)
    ensures (before + made) - dropped == before <==> made - before <= dropped && dropped !! before
  {
    assert (before + made) - dropped == (before - dropped) + (made - before - dropped);
  }

  /** One input: MariaDB, a new user and a new database, and CREATE DATABASE fails. The accounts stay, and no
      record tells of them. If a GRANT fails the database stays too. */
  lemma FailedBatchLeavesAccounts(database: string, user: string)
    ensures var empty := Record([], [], None);
            var nothing := Server({}, {});
            && AfterCreate(true, empty, nothing, database, user, CALM.(first := Stops(3)))
               == Answer(empty, Server({}, AccountsOf(true, user)), false, false)
            && AfterCreate(true, empty, nothing, database, user, CALM.(first := Stops(4)))
               == Answer(empty, Server({database}, AccountsOf(true, user)), false, false)
  {
    var empty, nothing := Record([], [], None), Server({}, {});
    CreateEnds(true, empty, nothing, database, user, CALM.(first := Stops(3)));
    CreateEnds(true, empty, nothing, database, user, CALM.(first := Stops(4)));
  }

  ghost predicate AllExist(r: Record, s: Server) {
    forall database <- r.databases :: database in s.databases
  }

  /** After a save that failed behind its rename the record lists a database that was dropped again; only then. */
  lemma CreateListsDroppedIff(mariadb: bool, r: Record, s: Server, database: string, user: string, w: Weather)
    requires AllExist(r, s) && database !in r.databases
    ensures var a := AfterCreate(mariadb, r, s, database, user, w);
            AllExist(a.record, a.server)
            <==> !(Makes(mariadb, s, database, user, w) && w.saved.Committed? && Reaches(w.undoDatabase, 0))
  {
    hide Exec;
    CreateEnds(mariadb, r, s, database, user, w);
    assert database in WithDatabase(r, database, user).databases;
  }

  // ---------- Users and grants ----------

  /** A delete that goes through drops the named user exactly when no other database of the site is open to it. */
  lemma DeleteDropsUserIff(mariadb: bool, r: Record, s: Server, database: string, user: string, w: Weather)
    requires database in r.databases && w.first.Smooth? && w.second.Smooth?
    requires !(AccountsOf(mariadb, user) !! s.accounts)
    ensures AccountsOf(mariadb, user) !! AfterDelete(mariadb, r, s, database, user, w).server.accounts
            <==> forall other <- Rows(r) :: user in Rows(r)[other] ==> other == database
  {
    hide Exec, Filtered, Squeezed;
    DeleteEnds(mariadb, r, s, database, user, w);
    var rest := Rows(WithoutDatabase(r, database));
    assert rest == Without(Rows(r), database);
    assert forall other <- Rows(r) :: other != database ==> other in rest && rest[other] == Rows(r)[other];
    if !Granted(rest, user) {
      forall other | other in Rows(r) && user in Rows(r)[other] ensures other == database {
        assert other in rest && user in rest[other] ==> Granted(rest, user);
      }
    }
  }

  /** Once its accounts are dropped a user holds nothing, and everyone else what they held, however saving ends. */
  lemma DeletedUserHoldsNothing(
    mariadb: bool, r: Record, s: Server, user: string, w: Weather, other: string, database: string
  )
    requires user in r.users && w.first.Smooth?
    ensures var after := AfterDeleteUser(mariadb, r, s, user, w).record;
            && !Granted(Rows(after), user)
            && (other != user ==> (other in GrantsOf(after, database) <==> other in GrantsOf(r, database)))
  {
    hide Exec, Filtered, Squeezed;
    DropsUser(mariadb, s, user, w.first);
    var after := AfterDeleteUser(mariadb, r, s, user, w).record;
    forall d | d in Rows(after) ensures user !in Rows(after)[d] {
      FilteredHolds(Rows(r)[d], user, user);
    }
    FilteredHolds(GrantsOf(r, database), user, other);
  }

  lemma RevokeUndoesGrant(mariadb: bool, r: Record, s: Server, database: string, user: string)
    requires Paired(r, database, user) && user !in GrantsOf(r, database)
    ensures var granted := AfterGrant(mariadb, r, s, database, user, CALM);
            var revoked := AfterRevoke(mariadb, granted.record, granted.server, database, user, CALM);
            && granted.ok && revoked.ok && revoked.server == s
            && revoked.record.databases == r.databases && revoked.record.users == r.users
            && forall d :: GrantsOf(revoked.record, d) == GrantsOf(r, d)
  {
    hide Exec;
    PrivilegesEnd(mariadb, s, Smooth);
    var held := GrantsOf(r, database);
    assert (held + [user])[..|held|] == held;
    FilteredFrom(held, user);
  }
}
