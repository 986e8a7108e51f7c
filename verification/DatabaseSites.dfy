/**
 Every site's databases on the one server, and the manager that works on them (internal/database/manager.go).
 All records are written to the file together (internal/site/state.go:172-181).
 */
module DatabaseSites {
  import opened Wrappers
  import opened DatabaseServer
  import opened DatabaseGrants
  import D = Durable

  type Sites = map<string, Record>

  datatype Fleet = Fleet(sites: Sites, file: Sites, server: Server)

  datatype Step = Step(site: string, op: Op, weather: Weather)

  /** The answer of a step at a site that is known. */
  ghost function AnswerTo(mariadb: bool, f: Fleet, step: Step): Answer
    requires step.site in f.sites
  {
    After(mariadb, f.sites[step.site], f.server, step.op, step.weather)
  }

  ghost function Stepped(mariadb: bool, f: Fleet, step: Step): Fleet {
    if step.site !in f.sites then f
    else
      var a := AnswerTo(mariadb, f, step);
      var sites := f.sites[step.site := a.record];
      Fleet(sites, if a.wrote then sites else f.file, a.server)
  }

  ghost function Run(mariadb: bool, f: Fleet, steps: seq<Step>): Fleet {
    if steps == [] then f
    else Stepped(mariadb, Run(mariadb, f, steps[..|steps| - 1]), steps[|steps| - 1])
  }

  // ---------- Grants ----------

  ghost predicate AllClosed(sites: Sites) {
    forall id <- sites :: Closed(sites[id])
  }

  ghost predicate Leaks(mariadb: bool, f: Fleet, step: Step) {
    step.site in f.sites && LeaksGrant(mariadb, f.sites[step.site], f.server, step.op, step.weather)
  }

  ghost predicate NeverLeaks(mariadb: bool, f: Fleet, steps: seq<Step>) {
    steps == []
    || (NeverLeaks(mariadb, f, steps[..|steps| - 1])
        && !Leaks(mariadb, Run(mariadb, f, steps[..|steps| - 1]), steps[|steps| - 1]))
  }

  /** In any run without a leak, at every site and in the file, grants speak only of what is listed. */
  lemma {:induction false} GrantsStayClosed(mariadb: bool, f: Fleet, steps: seq<Step>)
    requires AllClosed(f.sites) && AllClosed(f.file) && NeverLeaks(mariadb, f, steps)
    ensures AllClosed(Run(mariadb, f, steps).sites) && AllClosed(Run(mariadb, f, steps).file)
  {
    hide Closed, After, LeaksGrant;
    if steps != [] {
      var front, last := steps[..|steps| - 1], steps[|steps| - 1];
      GrantsStayClosed(mariadb, f, front);
      var before := Run(mariadb, f, front);
      if last.site in before.sites {
        StaysClosedIff(mariadb, before.sites[last.site], before.server, last.op, last.weather);
      }
    }
  }

  /** A leaked grant gets into the file with the next record of another site that does. */
  lemma LeakIsWritten(mariadb: bool, f: Fleet, leak: Step, next: Step)
    requires Leaks(mariadb, f, leak) && Closed(f.sites[leak.site])
    requires next.site in f.sites && next.site != leak.site
    requires AnswerTo(mariadb, Stepped(mariadb, f, leak), next).wrote
    ensures leak.site in Run(mariadb, f, [leak, next]).file && !Closed(Run(mariadb, f, [leak, next]).file[leak.site])
  {
    hide Closed, After, LeaksGrant;
    StaysClosedIff(mariadb, f.sites[leak.site], f.server, leak.op, leak.weather);
    assert [leak, next][..1] == [leak] && [leak][..0] == [];
    assert Run(mariadb, f, []) == f;
    assert Run(mariadb, f, [leak]) == Stepped(mariadb, f, leak);
  }

  // ---------- One server for all sites ----------

  /** Everything the record lists exists. */
  ghost predicate Serves(mariadb: bool, s: Server, r: Record) {
    && (forall database <- r.databases :: database in s.databases)
    && (forall user <- r.users :: AccountsOf(mariadb, user) <= s.accounts)
  }

  /** What a step at one site does to another: its record stays served exactly if it lists neither a database that
      is dropped nor a user with an account that is. Nobody asks whose they are. */
  lemma ServesAfterIff(mariadb: bool, r: Record, s: Server, op: Op, w: Weather, other: Record)
    requires Serves(mariadb, s, other)
    ensures var t := Touches(mariadb, r, s, op, w);
            Serves(mariadb, After(mariadb, r, s, op, w).server, other)
            <==> (t.droppedDatabase ==> DatabaseOf(op) !in other.databases)
                 && (t.dropped != {} ==> op.user !in other.users)
  {
    hide After, Touches, AccountsOf, Reached;
    ServerAfter(mariadb, r, s, op, w);
    var t := Touches(mariadb, r, s, op, w);
    var after := After(mariadb, r, s, op, w).server;
    assert forall database <- other.databases ::
        database in after.databases <==> !(t.droppedDatabase && database == DatabaseOf(op));
    DroppedAreOfUser(mariadb, r, s, op, w);
    forall user | user in other.users
      ensures AccountsOf(mariadb, user) <= after.accounts <==> !(t.dropped != {} && user == op.user)
    {
      AccountsTellUsers(mariadb, user);
      AccountsTellUsers(mariadb, op.user);
      if t.dropped != {} && user == op.user {
        var gone :| gone in t.dropped;
        assert gone !in after.accounts;
      }
    }
  }

  lemma DroppedAreOfUser(mariadb: bool, r: Record, s: Server, op: Op, w: Weather)
    ensures Touches(mariadb, r, s, op, w).dropped <= AccountsOf(mariadb, op.user)
  {
  }

  lemma AccountsTellUsers(mariadb: bool, user: string)
    ensures forall account <- AccountsOf(mariadb, user) :: account.user == user
  {
  }

  /** Two inputs on MariaDB: deleting a database may name any user, and a Create that is rolled back drops a user
      that was there before. Either way another site's user is gone. */
  lemma AnotherSitesUserIsDropped(database: string, user: string, s: Server)
    requires AccountsOf(true, user) <= s.accounts
    ensures var other := Record([], [user], None);
            && Serves(true, s, other)
            && !Serves(true, AfterDelete(true, Record([database], [], None), s, database, user, CALM).server, other)
            && !Serves(true, AfterCreate(true, Record([], [], None), s, database, user,
                                         CALM.(saved := D.NotCommitted)).server, other)
  {
    var other := Record([], [user], None);
    ServesAfterIff(true, Record([database], [], None), s, Delete(database, user), CALM, other);
    ServesAfterIff(true, Record([], [], None), s, Create(database, user), CALM.(saved := D.NotCommitted), other);
  }

  /** Names nothing that the record lists. */
  predicate Spares(op: Op, r: Record) {
    op.user !in r.users && (op.CreateUser? || op.DeleteUser? || op.database !in r.databases)
  }

  lemma SparedIsServed(mariadb: bool, r: Record, s: Server, op: Op, w: Weather, other: Record)
    requires Serves(mariadb, s, other) && Spares(op, other)
    ensures Serves(mariadb, After(mariadb, r, s, op, w).server, other)
  {
    hide After, Serves;
    ServesAfterIff(mariadb, r, s, op, w, other);
  }

  // ---------- Sites that keep to themselves ----------

  /** At site `id` steps of its own are answered without an error, and those of others name nothing of it. */
  ghost predicate Undisturbed(mariadb: bool, f: Fleet, steps: seq<Step>, id: string) {
    steps == []
    || (var before := Run(mariadb, f, steps[..|steps| - 1]);
        var last := steps[|steps| - 1];
        && Undisturbed(mariadb, f, steps[..|steps| - 1], id)
        && (last.site in before.sites && id in before.sites ==>
              if last.site == id then AnswerTo(mariadb, before, last).ok else Spares(last.op, before.sites[id])))
  }

  /** However the operations of other sites fail, everything such a site lists exists after every run. */
  lemma {:induction false} UndisturbedIsServed(mariadb: bool, f: Fleet, steps: seq<Step>, id: string)
    requires id in f.sites && Serves(mariadb, f.server, f.sites[id]) && Undisturbed(mariadb, f, steps, id)
    ensures id in Run(mariadb, f, steps).sites
    ensures Serves(mariadb, Run(mariadb, f, steps).server, Run(mariadb, f, steps).sites[id])
  {
    hide After, Serves, Spares;
    if steps != [] {
      var front, last := steps[..|steps| - 1], steps[|steps| - 1];
      UndisturbedIsServed(mariadb, f, front, id);
      var before := Run(mariadb, f, front);
      if last.site == id {
        DoneIsServed(mariadb, before.sites[id], before.server, last.op, last.weather);
      } else if last.site in before.sites {
        SparedIsServed(mariadb, before.sites[last.site], before.server, last.op, last.weather, before.sites[id]);
      }
    }
  }

  lemma MadeIsServed(mariadb: bool, r: Record, s: Server, database: string, user: string, w: Weather)
    requires Serves(mariadb, s, r) && database !in r.databases && AfterCreate(mariadb, r, s, database, user, w).ok
    ensures var a := AfterCreate(mariadb, r, s, database, user, w); Serves(mariadb, a.server, a.record)
  {
    hide Exec, Reached, Filtered, Squeezed;
    CreateEnds(mariadb, r, s, database, user, w);
    var a := AfterCreate(mariadb, r, s, database, user, w);
    forall u | u in a.record.users ensures AccountsOf(mariadb, u) <= a.server.accounts {
      assert u == user || u in r.users;
    }
  }

  lemma DeletedIsServed(mariadb: bool, r: Record, s: Server, database: string, user: string, w: Weather)
    requires Serves(mariadb, s, r) && database in r.databases && AfterDelete(mariadb, r, s, database, user, w).ok
    ensures var a := AfterDelete(mariadb, r, s, database, user, w); Serves(mariadb, a.server, a.record)
  {
    hide Exec, Reached, Filtered, Squeezed;
    DeleteEnds(mariadb, r, s, database, user, w);
    var a := AfterDelete(mariadb, r, s, database, user, w);
    forall d | d in a.record.databases ensures d in a.server.databases {
      FilteredHolds(r.databases, database, d);
    }
    forall u | u in a.record.users ensures AccountsOf(mariadb, u) <= a.server.accounts {
      FilteredHolds(r.users, user, u);
      ApartFrom(mariadb, u, user, w.second);
    }
  }

  lemma DeletedUserIsServed(mariadb: bool, r: Record, s: Server, user: string, w: Weather)
    requires Serves(mariadb, s, r) && user in r.users && AfterDeleteUser(mariadb, r, s, user, w).ok
    ensures var a := AfterDeleteUser(mariadb, r, s, user, w); Serves(mariadb, a.server, a.record)
  {
    hide Exec, Reached, Filtered, Squeezed;
    DropsUser(mariadb, s, user, w.first);
    var a := AfterDeleteUser(mariadb, r, s, user, w);
    forall u | u in a.record.users ensures AccountsOf(mariadb, u) <= a.server.accounts {
      FilteredHolds(r.users, user, u);
      ApartFrom(mariadb, u, user, w.first);
    }
  }

  lemma ApartFrom(mariadb: bool, user: string, other: string, luck: Luck)
    ensures user != other ==> AccountsOf(mariadb, user) !! Reached(mariadb, other, luck)
  {
  }

  /** An operation that is answered without an error leaves its own site served. */
  lemma DoneIsServed(mariadb: bool, r: Record, s: Server, op: Op, w: Weather)
    requires Serves(mariadb, s, r) && After(mariadb, r, s, op, w).ok
    ensures Serves(mariadb, After(mariadb, r, s, op, w).server, After(mariadb, r, s, op, w).record)
  {
    hide Exec, Filtered, Squeezed, Reached;
    match op
    case Create(database, user) =>
      if database !in r.databases {
        MadeIsServed(mariadb, r, s, database, user, w);
      }
    case Delete(database, user) =>
      if database in r.databases { DeletedIsServed(mariadb, r, s, database, user, w); }
    case CreateUser(user) =>
      if user !in r.users { CreateUserEnds(mariadb, r, s, user, w); }
    case DeleteUser(user) =>
      if user in r.users { DeletedUserIsServed(mariadb, r, s, user, w); }
    case Grant(_, _) => PrivilegesEnd(mariadb, s, w.first);
    case Revoke(_, _) => PrivilegesEnd(mariadb, s, w.first);
  }
}
