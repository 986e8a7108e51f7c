/**
 The database server and the batches of statements the manager hands it (internal/database/manager.go).
 One client process runs a batch and stops at the first statement that fails; what came before it stays.
 */
module DatabaseServer {

  /** MariaDB keeps one account per host a site can reach it from; a PostgreSQL role is one account. */
  datatype Host = Any | Localhost | Loopback

  datatype Account = Account(user: string, host: Host)

  /** What exists, whichever site it belongs to. */
  datatype Server = Server(databases: set<string>, accounts: set<Account>)

  /** `Privileges` is any GRANT, REVOKE or FLUSH. */
  datatype Statement =
    | CreateAccount(account: Account, ifAbsent: bool)
    | CreateDatabase(database: string, ifAbsent: bool)
    | DropAccount(account: Account)
    | DropDatabase(database: string)
    | Privileges

  /** Whether the client reports success as far as it is asked, or fails after so many statements. */
  datatype Luck = Smooth | Stops(done: nat)

  datatype Ran = Ran(server: Server, ok: bool)

  predicate Refused(s: Server, statement: Statement) {
    match statement
    case CreateAccount(account, ifAbsent) => !ifAbsent && account in s.accounts
    case CreateDatabase(database, ifAbsent) => !ifAbsent && database in s.databases
    case _ => false
  }

  function CarriedOut(s: Server, statement: Statement): Server {
    match statement
    case CreateAccount(account, _) => s.(accounts := s.accounts + {account})
    case CreateDatabase(database, _) => s.(databases := s.databases + {database})
    case DropAccount(account) => s.(accounts := s.accounts - {account})
    case DropDatabase(database) => s.(databases := s.databases - {database})
    case Privileges => s
  }

  function Later(luck: Luck): Luck {
    if luck.Smooth? || luck.done == 0 then luck else Stops(luck.done - 1)
  }

  function Exec(s: Server, batch: seq<Statement>, luck: Luck): Ran
    decreases |batch|
  {
    if batch == [] then Ran(s, luck.Smooth?)
    else if luck == Stops(0) || Refused(s, batch[0]) then Ran(s, false)
    else Exec(CarriedOut(s, batch[0]), batch[1..], Later(luck))
  }

  // ---------- The batches ----------

  function CreateUserBatch(mariadb: bool, user: string): seq<Statement> {
    if mariadb then
      [CreateAccount(Account(user, Any), true), CreateAccount(Account(user, Localhost), true),
       CreateAccount(Account(user, Loopback), true)]
    else [CreateAccount(Account(user, Any), false)]
  }

  /** On PostgreSQL the database is a batch of its own. */
  function CreateBatch(mariadb: bool, database: string, user: string): seq<Statement> {
    if mariadb then
      CreateUserBatch(true, user)
      + [CreateDatabase(database, true), Privileges, Privileges, Privileges, Privileges]
    else CreateUserBatch(false, user)
  }

  function DropUserBatch(mariadb: bool, user: string): seq<Statement> {
    if mariadb then
      [DropAccount(Account(user, Any)), DropAccount(Account(user, Localhost)), DropAccount(Account(user, Loopback))]
    else [DropAccount(Account(user, Any))]
  }

  function GrantBatch(mariadb: bool): seq<Statement> {
    if mariadb then [Privileges, Privileges, Privileges, Privileges] else [Privileges, Privileges]
  }

  function RevokeBatch(mariadb: bool): seq<Statement> {
    if mariadb then [Privileges, Privileges, Privileges, Privileges] else [Privileges]
  }

  // ---------- What they do ----------

  /** Whether the statement at position `k` is reached if nothing is refused. */
  predicate Reaches(luck: Luck, k: nat) {
    luck.Smooth? || k < luck.done
  }

  /** The accounts of a user that a batch of one statement for each of them gets to. */
  function Reached(mariadb: bool, user: string, luck: Luck): set<Account> {
    (if Reaches(luck, 0) then {Account(user, Any)} else {})
    + (if mariadb && Reaches(luck, 1) then {Account(user, Localhost)} else {})
    + (if mariadb && Reaches(luck, 2) then {Account(user, Loopback)} else {})
  }

  function AccountsOf(mariadb: bool, user: string): set<Account> {
    Reached(mariadb, user, Smooth)
  }

  lemma Head(s: Server, head: Statement, tail: seq<Statement>, luck: Luck)
    ensures Exec(s, [head] + tail, luck)
            == if luck == Stops(0) || Refused(s, head) then Ran(s, false)
               else Exec(CarriedOut(s, head), tail, Later(luck))
  {
    assert ([head] + tail)[1..] == tail;
  }

  /** One batch after another: the second runs only if the first goes through. */
  lemma {:induction false} OneAfterAnother(s: Server, a: seq<Statement>, b: seq<Statement>, luck: Luck)
    ensures var cut := luck.Smooth? || |a| <= luck.done;
            var first := Exec(s, a, if cut then Smooth else luck);
            Exec(s, a + b, luck)
            == if !cut || !first.ok then first
               else Exec(first.server, b, if luck.Smooth? then Smooth else Stops(luck.done - |a|))
    decreases |a|
  {
    hide CarriedOut, Refused;
    if a == [] {
      assert a + b == b;
    } else {
      assert (a + b)[1..] == a[1..] + b;
      if luck != Stops(0) && !Refused(s, a[0]) {
        OneAfterAnother(CarriedOut(s, a[0]), a[1..], b, Later(luck));
      }
    }
  }

  /** A new user: on PostgreSQL refused if the role exists; on MariaDB the accounts it gets to. */
  lemma CreatesUser(mariadb: bool, s: Server, user: string, luck: Luck)
    ensures Exec(s, CreateUserBatch(mariadb, user), luck)
            == if !mariadb && Account(user, Any) in s.accounts then Ran(s, false)
               else Ran(s.(accounts := s.accounts + Reached(mariadb, user, luck)), luck.Smooth?)
  {
    var any, local, loop := Account(user, Any), Account(user, Localhost), Account(user, Loopback);
    if mariadb {
      assert CreateUserBatch(mariadb, user)
          == [CreateAccount(any, true)] + ([CreateAccount(local, true)] + ([CreateAccount(loop, true)] + []));
      Head(s, CreateAccount(any, true), [CreateAccount(local, true)] + ([CreateAccount(loop, true)] + []), luck);
      var s1, luck1 := s.(accounts := s.accounts + {any}), Later(luck);
      Head(s1, CreateAccount(local, true), [CreateAccount(loop, true)] + [], luck1);
      var s2, luck2 := s.(accounts := s.accounts + {any, local}), Later(luck1);
      assert s1.accounts + {local} == s2.accounts;
      Head(s2, CreateAccount(loop, true), [], luck2);
      assert s2.accounts + {loop} == s.accounts + {any, local, loop};
      assert Reached(mariadb, user, Smooth) == {any, local, loop};
    } else {
      Head(s, CreateAccount(any, false), [], luck);
    }
    assert s.accounts + {} == s.accounts;
  }

  lemma {:induction false} PrivilegesChangeNothing(s: Server, batch: seq<Statement>, luck: Luck)
    requires forall i :: 0 <= i < |batch| ==> batch[i] == Privileges
    ensures Exec(s, batch, luck) == Ran(s, luck.Smooth?)
    decreases |batch|
  {
    if batch != [] && luck != Stops(0) {
      PrivilegesChangeNothing(s, batch[1..], Later(luck));
    }
  }

  /** MariaDB's first batch: the accounts, then the database, then privileges. */
  lemma CreatesBoth(s: Server, database: string, user: string, luck: Luck)
    ensures Exec(s, CreateBatch(true, database, user), luck)
            == Ran(Server(s.databases + (if Reaches(luck, 3) then {database} else {}),
                          s.accounts + Reached(true, user, luck)), luck.Smooth?)
  {
    var rest := [Privileges, Privileges, Privileges, Privileges];
    var users := CreateUserBatch(true, user);
    assert CreateBatch(true, database, user) == users + ([CreateDatabase(database, true)] + rest);
    OneAfterAnother(s, users, [CreateDatabase(database, true)] + rest, luck);
    CreatesUser(true, s, user, luck);
    CreatesUser(true, s, user, Smooth);
    var made := s.(accounts := s.accounts + AccountsOf(true, user));
    if luck.Smooth? || 3 <= luck.done {
      assert Reached(true, user, luck) == AccountsOf(true, user);
      var left := if luck.Smooth? then Smooth else Stops(luck.done - 3);
      Head(made, CreateDatabase(database, true), rest, left);
      PrivilegesChangeNothing(made.(databases := made.databases + {database}), rest, Later(left));
    }
    assert s.databases + {} == s.databases;
  }

  lemma DropsUser(mariadb: bool, s: Server, user: string, luck: Luck)
    ensures Exec(s, DropUserBatch(mariadb, user), luck)
            == Ran(s.(accounts := s.accounts - Reached(mariadb, user, luck)), luck.Smooth?)
  {
    var any, local, loop := Account(user, Any), Account(user, Localhost), Account(user, Loopback);
    if mariadb {
      assert DropUserBatch(mariadb, user) == [DropAccount(any)] + ([DropAccount(local)] + ([DropAccount(loop)] + []));
      Head(s, DropAccount(any), [DropAccount(local)] + ([DropAccount(loop)] + []), luck);
      var s1, luck1 := s.(accounts := s.accounts - {any}), Later(luck);
      Head(s1, DropAccount(local), [DropAccount(loop)] + [], luck1);
      var s2, luck2 := s.(accounts := s.accounts - {any, local}), Later(luck1);
      assert s1.accounts - {local} == s2.accounts;
      Head(s2, DropAccount(loop), [], luck2);
      assert s2.accounts - {loop} == s.accounts - {any, local, loop};
      assert Reached(mariadb, user, Smooth) == {any, local, loop};
    } else {
      Head(s, DropAccount(any), [], luck);
    }
    assert s.accounts - {} == s.accounts;
  }
}
