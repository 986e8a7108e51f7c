/**
 Quoting values into SQL statements (literal and the statement builders in
 internal/database/manager.go), against the lexers of the two servers: section 9.1.1 of
 the MySQL Reference Manual, and section 4.1.2.1 of the PostgreSQL manual.
 */
module SqlLiteral {
  import opened Wrappers

  datatype Engine = MariaDB | PostgreSQL

  const QUOTE := '\''
  const BACKSLASH := '\\'

  // ---------- Printing ----------

  /** `strings.ReplaceAll(value, c, cc)` */
  function Doubled(value: string, c: char): string {
    if value == "" then "" else (if value[0] == c then [c, c] else [value[0]]) + Doubled(value[1..], c)
  }

  function Body(engine: Engine, value: string): string {
    Doubled(if engine.MariaDB? then Doubled(value, BACKSLASH) else value, QUOTE)
  }

  function Literal(engine: Engine, value: string): string {
    [QUOTE] + Body(engine, value) + [QUOTE]
  }

  // ---------- Lexing ----------

  /** What a backslash and the character after it stand for. */
  function Unescaped(c: char): string {
    if c == '0' then [0 as char]
    else if c == 'b' then [8 as char]
    else if c == 'n' then "\n"
    else if c == 'r' then "\r"
    else if c == 't' then "\t"
    else if c == 'Z' then [26 as char]
    else if c == '%' || c == '_' then [BACKSLASH, c]
    else [c]
  }

  /** The value of a literal whose opening quote has been read, and the text after it; None if it is not closed. */
  function LexBody(engine: Engine, s: string): (r: Option<(string, string)>)
    ensures r.Some? ==> |r.value.1| < |s|
  {
    if s == "" then None
    else if s[0] == QUOTE && (|s| == 1 || s[1] != QUOTE) then Some(("", s[1..]))
    else if s[0] == QUOTE then Prepend([QUOTE], LexBody(engine, s[2..]))
    else if engine.MariaDB? && s[0] == BACKSLASH then
      (if |s| == 1 then None else Prepend(Unescaped(s[1]), LexBody(engine, s[2..])))
    else Prepend([s[0]], LexBody(engine, s[1..]))
  }

  function Prepend(front: string, r: Option<(string, string)>): Option<(string, string)> {
    match r case None => None case Some((value, rest)) => Some((front + value, rest))
  }

  function Lex(engine: Engine, s: string): Option<(string, string)> {
    if s == "" || s[0] != QUOTE then None else LexBody(engine, s[1..])
  }

  // ---------- One character at a time ----------

  function Printed(engine: Engine, c: char): string {
    if c == QUOTE || (engine.MariaDB? && c == BACKSLASH) then [c, c] else [c]
  }

  /** What the replacements come to, character by character. */
  function Encode(engine: Engine, value: string): string {
    if value == "" then "" else Printed(engine, value[0]) + Encode(engine, value[1..])
  }

  lemma DoubledAdds(a: string, b: string, c: char)
    requires |a| <= 2
    ensures Doubled(a + b, c) == Doubled(a, c) + Doubled(b, c)
  {
    if a == "" {
      assert a + b == b;
    } else if |a| == 1 {
      assert (a + b)[1..] == b && a[1..] == "";
    } else {
      assert (a + b)[1..] == [a[1]] + b && a[1..] == [a[1]];
      assert ([a[1]] + b)[1..] == b && [a[1]][1..] == "";
    }
  }

  lemma DoubledOne(c: char, d: char)
    ensures Doubled([c], d) == if c == d then [c, c] else [c]
    ensures c != d ==> Doubled([c, c], d) == [c, c]
  {
    assert [c][1..] == "" && [c, c][1..] == [c];
  }

  lemma {:induction false} BodyIsEncode(engine: Engine, value: string)
    ensures Body(engine, value) == Encode(engine, value)
  {
    if value != "" {
      BodyIsEncode(engine, value[1..]);
      BodySplits(engine, value[0], value[1..]);
      assert value == [value[0]] + value[1..];
    }
  }

  lemma BodySplits(engine: Engine, c: char, value: string)
    ensures Body(engine, [c] + value) == Printed(engine, c) + Body(engine, value)
  {
    DoubledOne(c, BACKSLASH);
    DoubledOne(c, QUOTE);
    hide Doubled;
    DoubledAdds([c], value, BACKSLASH);
    DoubledAdds(Doubled([c], BACKSLASH), Doubled(value, BACKSLASH), QUOTE);
    DoubledAdds([c], value, QUOTE);
  }

  lemma Associates<T>(x: seq<T>, y: seq<T>, z: seq<T>)
    ensures x + (y + z) == (x + y) + z
  {
  }

  lemma EncodeBefore(engine: Engine, c: char, value: string, end: string)
    ensures Encode(engine, [c] + value) + end == Printed(engine, c) + (Encode(engine, value) + end)
  {
    assert ([c] + value)[1..] == value;
    hide Printed;
    assert Encode(engine, [c] + value) == Printed(engine, c) + Encode(engine, value);
    hide Encode;
    Associates(Printed(engine, c), Encode(engine, value), end);
  }

  lemma Closes(engine: Engine, rest: string)
    requires rest == "" || rest[0] != QUOTE
    ensures LexBody(engine, [QUOTE] + rest) == Some(("", rest))
  {
    assert ([QUOTE] + rest)[1..] == rest;
  }

  lemma ReadsQuote(engine: Engine, s: string)
    ensures LexBody(engine, [QUOTE, QUOTE] + s) == Prepend([QUOTE], LexBody(engine, s))
  {
    assert ([QUOTE, QUOTE] + s)[2..] == s;
  }

  lemma ReadsEscape(c: char, s: string)
    ensures LexBody(MariaDB, [BACKSLASH, c] + s) == Prepend(Unescaped(c), LexBody(MariaDB, s))
  {
    hide Unescaped;
    assert ([BACKSLASH, c] + s)[2..] == s;
  }

  lemma ReadsPlain(engine: Engine, c: char, s: string)
    requires c != QUOTE && (engine.MariaDB? ==> c != BACKSLASH)
    ensures LexBody(engine, [c] + s) == Prepend([c], LexBody(engine, s))
  {
    assert ([c] + s)[1..] == s;
  }

  /** One character of a value, as it is printed, reads back as that character. */
  lemma CharacterReadsBack(engine: Engine, c: char, s: string)
    ensures LexBody(engine, Printed(engine, c) + s) == Prepend([c], LexBody(engine, s))
  {
    hide LexBody;
    if c == QUOTE {
      ReadsQuote(engine, s);
    } else if engine.MariaDB? && c == BACKSLASH {
      ReadsEscape(BACKSLASH, s);
    } else {
      ReadsPlain(engine, c, s);
    }
  }

  // ---------- Round trip ----------

  lemma {:induction false} EncodedReadsBack(engine: Engine, value: string, rest: string)
    requires rest == "" || rest[0] != QUOTE
    ensures LexBody(engine, Encode(engine, value) + ([QUOTE] + rest)) == Some((value, rest))
  {
    hide LexBody, Printed;
    var end := [QUOTE] + rest;
    if value == "" {
      assert Encode(engine, value) + end == end;
      Closes(engine, rest);
    } else {
      hide Encode;
      EncodedReadsBack(engine, value[1..], rest);
      EncodeBefore(engine, value[0], value[1..], end);
      CharacterReadsBack(engine, value[0], Encode(engine, value[1..]) + end);
      assert value == [value[0]] + value[1..];
    }
  }

  /** The main theorem: whatever the value, lexing its literal before any text that does not start with a
      quote consumes exactly the literal and yields the value back. */
  lemma LiteralRoundTrip(engine: Engine, value: string, rest: string)
    requires rest == "" || rest[0] != QUOTE
    ensures Lex(engine, Literal(engine, value) + rest) == Some((value, rest))
  {
    hide LexBody, Body, Encode;
    EncodedReadsBack(engine, value, rest);
    BodyIsEncode(engine, value);
    assert (Literal(engine, value) + rest)[1..] == Body(engine, value) + ([QUOTE] + rest);
  }

  // ---------- Whole statements ----------

  /** Text without quotes, or a quoted value. */
  datatype Piece = Raw(text: string) | Quoted(value: string)

  datatype Token = Char(c: char) | Value(value: string)

  function Print(engine: Engine, pieces: seq<Piece>): string {
    if pieces == [] then ""
    else
      (match pieces[0] case Raw(text) => text case Quoted(value) => Literal(engine, value))
      + Print(engine, pieces[1..])
  }

  function CharTokens(text: string): (tokens: seq<Token>)
    ensures |tokens| == |text|
  {
    seq(|text|, i requires 0 <= i < |text| => Char(text[i]))
  }

  function TokensOf(pieces: seq<Piece>): seq<Token> {
    if pieces == [] then []
    else
      (match pieces[0] case Raw(text) => CharTokens(text) case Quoted(value) => [Value(value)])
      + TokensOf(pieces[1..])
  }

  /** The server's reading of a statement: literals as values, everything else as it stands. */
  function Tokenize(engine: Engine, s: string): Option<seq<Token>>
    decreases |s|
  {
    if s == "" then Some([])
    else if s[0] == QUOTE then
      match Lex(engine, s)
      case None => None
      case Some((value, rest)) => After([Value(value)], Tokenize(engine, rest))
    else After([Char(s[0])], Tokenize(engine, s[1..]))
  }

  function After(front: seq<Token>, r: Option<seq<Token>>): Option<seq<Token>> {
    match r case None => None case Some(tokens) => Some(front + tokens)
  }

  /** Text holds no quote, and between two values there is some text. */
  ghost predicate WellFormed(pieces: seq<Piece>) {
    && (forall i | 0 <= i < |pieces| && pieces[i].Raw? :: pieces[i].text != "" && QUOTE !in pieces[i].text)
    && (forall i | 0 <= i < |pieces| - 1 && pieces[i].Quoted? :: pieces[i + 1].Raw?)
  }

  lemma {:induction false} TextReadsBack(engine: Engine, text: string, rest: string, tokens: seq<Token>)
    requires QUOTE !in text && Tokenize(engine, rest) == Some(tokens)
    ensures Tokenize(engine, text + rest) == Some(CharTokens(text) + tokens)
  {
    if text == "" {
      assert text + rest == rest && CharTokens(text) + tokens == tokens;
    } else {
      assert text[0] in text;
      TextReadsBack(engine, text[1..], rest, tokens);
      assert (text + rest)[1..] == text[1..] + rest;
      assert [Char(text[0])] + (CharTokens(text[1..]) + tokens) == CharTokens(text) + tokens;
    }
  }

  lemma ValueReadsBack(engine: Engine, value: string, rest: string, tokens: seq<Token>)
    requires Tokenize(engine, rest) == Some(tokens) && (rest == "" || rest[0] != QUOTE)
    ensures Tokenize(engine, Literal(engine, value) + rest) == Some([Value(value)] + tokens)
  {
    LiteralRoundTrip(engine, value, rest);
    assert (Literal(engine, value) + rest)[0] == QUOTE;
    hide Lex, Literal;
  }

  /** Whatever values are quoted into a statement, the server reads its text unchanged and each value as one
      token: no value ends its literal early or adds to the statement. */
  lemma {:induction false} StatementReadsBack(engine: Engine, pieces: seq<Piece>)
    requires WellFormed(pieces)
    ensures Tokenize(engine, Print(engine, pieces)) == Some(TokensOf(pieces))
    ensures pieces != [] && pieces[0].Raw? ==> Print(engine, pieces) != "" && Print(engine, pieces)[0] != QUOTE
  {
    if pieces != [] {
      var rest := Print(engine, pieces[1..]);
      StatementReadsBack(engine, pieces[1..]);
      match pieces[0]
      case Raw(text) =>
        assert text[0] in text;
        TextReadsBack(engine, text, rest, TokensOf(pieces[1..]));
      case Quoted(value) =>
        ValueReadsBack(engine, value, rest, TokensOf(pieces[1..]));
    }
  }

  // ---------- The statements that carry a password ----------

  const END: seq<Piece> := [Raw("\n")]

  function Account(verb: string, user: string, host: string, password: string): seq<Piece> {
    [Raw(verb), Quoted(user), Raw("@"), Quoted(host), Raw(" IDENTIFIED BY "), Quoted(password), Raw(";")]
  }

  /** One account per host a site can reach the server from. */
  function ForHosts(first: string, verb: string, user: string, password: string): seq<Piece> {
    Account(first, user, "%", password) + Account(verb, user, "localhost", password)
        + Account(verb, user, "127.0.0.1", password)
  }

  function Accounts(user: string, password: string): seq<Piece> {
    ForHosts("CREATE USER IF NOT EXISTS ", " CREATE USER IF NOT EXISTS ", user, password)
  }

  function GrantFor(database: string, user: string, host: string): seq<Piece> {
    [Raw(" GRANT ALL ON `" + database + "`.* TO "), Quoted(user), Raw("@"), Quoted(host), Raw(";")]
  }

  function DatabaseText(database: string): string {
    " CREATE DATABASE IF NOT EXISTS `" + (database + ("` CHARACTER SET utf8mb4" + " COLLATE utf8mb4_unicode_ci;"))
  }

  function DatabaseFor(database: string, user: string): seq<Piece> {
    [Raw(DatabaseText(database))]
    + (GrantFor(database, user, "%") + GrantFor(database, user, "localhost") + GrantFor(database, user, "127.0.0.1"))
    + [Raw(" FLUSH PRIVILEGES;")]
  }

  function Role(verb: string, clause: string, user: string, password: string): seq<Piece> {
    [Raw(verb + user + clause), Quoted(password), Raw(";")]
  }

  /** createUserSQL */
  function CreateUser(engine: Engine, user: string, password: string): seq<Piece> {
    (match engine
     case PostgreSQL => Role("CREATE ROLE \"", "\" LOGIN PASSWORD ", user, password)
     case MariaDB => Accounts(user, password)) + END
  }

  /** rotateSQL */
  function Rotate(engine: Engine, user: string, password: string): seq<Piece> {
    (match engine
     case PostgreSQL => Role("ALTER ROLE \"", "\" PASSWORD ", user, password)
     case MariaDB => Accounts(user, password) + ForHosts(" ALTER USER ", " ALTER USER ", user, password)) + END
  }

  /** createSQL */
  function Create(engine: Engine, database: string, user: string, password: string): seq<Piece> {
    (match engine
     case PostgreSQL => Role("CREATE ROLE \"", "\" LOGIN PASSWORD ", user, password)
     case MariaDB => Accounts(user, password) + DatabaseFor(database, user)) + END
  }

  /** The values a server finds in a statement, in order. */
  function ValuesIn(tokens: seq<Token>): seq<string> {
    if tokens == [] then []
    else (if tokens[0].Value? then [tokens[0].value] else []) + ValuesIn(tokens[1..])
  }

  /** The quoted values of some pieces, or what stands around them. */
  function PartsBy(piece: Piece, quoted: bool): seq<string> {
    match piece
    case Raw(text) => if quoted then [] else [text]
    case Quoted(value) => if quoted then [value] else []
  }

  function PartsIn(pieces: seq<Piece>, quoted: bool): seq<string> {
    if pieces == [] then [] else PartsBy(pieces[0], quoted) + PartsIn(pieces[1..], quoted)
  }

  lemma PartsHead(piece: Piece, rest: seq<Piece>, quoted: bool)
    ensures PartsIn([piece] + rest, quoted) == PartsBy(piece, quoted) + PartsIn(rest, quoted)
  {
    assert ([piece] + rest)[1..] == rest;
  }

  lemma {:induction false} ValuesAdd(a: seq<Token>, b: seq<Token>)
    ensures ValuesIn(a + b) == ValuesIn(a) + ValuesIn(b)
  {
    if a == [] {
      assert a + b == b;
    } else {
      ValuesAdd(a[1..], b);
      assert (a + b)[1..] == a[1..] + b;
    }
  }

  lemma {:induction false} TextHasNoValues(text: string)
    ensures ValuesIn(CharTokens(text)) == []
  {
    if text != "" {
      TextHasNoValues(text[1..]);
      assert CharTokens(text)[1..] == CharTokens(text[1..]);
    }
  }

  lemma {:induction false} ValuesAreTheQuoted(pieces: seq<Piece>)
    ensures ValuesIn(TokensOf(pieces)) == PartsIn(pieces, true)
  {
    if pieces != [] {
      var first := match pieces[0] case Raw(text) => CharTokens(text) case Quoted(value) => [Value(value)];
      ValuesAdd(first, TokensOf(pieces[1..]));
      ValuesAreTheQuoted(pieces[1..]);
      if pieces[0].Raw? {
        TextHasNoValues(pieces[0].text);
      }
    }
  }

  lemma PartsAddHead(piece: Piece, rest: seq<Piece>, b: seq<Piece>, quoted: bool)
    requires PartsIn(rest + b, quoted) == PartsIn(rest, quoted) + PartsIn(b, quoted)
    ensures PartsIn(([piece] + rest) + b, quoted) == PartsIn([piece] + rest, quoted) + PartsIn(b, quoted)
  {
    hide PartsIn, PartsBy;
    PartsHead(piece, rest, quoted);
    PartsHead(piece, rest + b, quoted);
    Associates([piece], rest, b);
    Associates(PartsBy(piece, quoted), PartsIn(rest, quoted), PartsIn(b, quoted));
  }

  lemma {:induction false} PartsAdd(a: seq<Piece>, b: seq<Piece>, quoted: bool)
    ensures PartsIn(a + b, quoted) == PartsIn(a, quoted) + PartsIn(b, quoted)
  {
    if a == [] {
      assert a + b == b;
    } else {
      hide PartsIn;
      PartsAdd(a[1..], b, quoted);
      PartsAddHead(a[0], a[1..], b, quoted);
      assert a == [a[0]] + a[1..];
    }
  }

  lemma NoParts(quoted: bool)
    ensures PartsIn([], quoted) == []
  {
  }

  lemma AccountParts(verb: string, user: string, host: string, password: string, quoted: bool)
    ensures PartsIn(Account(verb, user, host, password), quoted)
            == if quoted then [user, host, password] else [verb, "@", " IDENTIFIED BY ", ";"]
  {
    hide PartsIn;
    var last := [Raw(";")] + [];
    var third := [Quoted(password)] + last;
    var second := [Raw(" IDENTIFIED BY ")] + third;
    var first := [Raw("@")] + ([Quoted(host)] + second);
    NoParts(quoted);
    PartsHead(Raw(";"), [], quoted);
    PartsHead(Quoted(password), last, quoted);
    PartsHead(Raw(" IDENTIFIED BY "), third, quoted);
    PartsHead(Quoted(host), second, quoted);
    PartsHead(Raw("@"), [Quoted(host)] + second, quoted);
    PartsHead(Quoted(user), first, quoted);
    PartsHead(Raw(verb), [Quoted(user)] + first, quoted);
    assert Account(verb, user, host, password) == [Raw(verb)] + ([Quoted(user)] + first);
  }

  /** User, host and password of the three accounts of a user. */
  function ThreeAccounts(user: string, password: string): seq<string> {
    [user, "%", password, user, "localhost", password, user, "127.0.0.1", password]
  }

  function Around(first: string, verb: string): seq<string> {
    [first, "@", " IDENTIFIED BY ", ";", verb, "@", " IDENTIFIED BY ", ";", verb, "@", " IDENTIFIED BY ", ";"]
  }

  lemma HostsParts(first: string, verb: string, user: string, password: string, quoted: bool)
    ensures PartsIn(ForHosts(first, verb, user, password), quoted)
            == if quoted then ThreeAccounts(user, password) else Around(first, verb)
  {
    var a, b, c := Account(first, user, "%", password), Account(verb, user, "localhost", password),
                   Account(verb, user, "127.0.0.1", password);
    AccountParts(first, user, "%", password, quoted);
    AccountParts(verb, user, "localhost", password, quoted);
    AccountParts(verb, user, "127.0.0.1", password, quoted);
    hide Account, PartsIn;
    PartsAdd(a, b, quoted);
    PartsAdd(a + b, c, quoted);
  }

  lemma AccountsParts(user: string, password: string, quoted: bool)
    ensures PartsIn(Accounts(user, password), quoted)
            == if quoted then ThreeAccounts(user, password)
               else Around("CREATE USER IF NOT EXISTS ", " CREATE USER IF NOT EXISTS ")
  {
    HostsParts("CREATE USER IF NOT EXISTS ", " CREATE USER IF NOT EXISTS ", user, password, quoted);
  }

  function ThreeGrantees(user: string): seq<string> {
    [user, "%", user, "localhost", user, "127.0.0.1"]
  }

  function AroundGrants(database: string): seq<string> {
    var grant := " GRANT ALL ON `" + database + "`.* TO ";
    [DatabaseText(database), grant, "@", ";", grant, "@", ";", grant, "@", ";", " FLUSH PRIVILEGES;"]
  }

  lemma GrantParts(database: string, user: string, host: string, quoted: bool)
    ensures PartsIn(GrantFor(database, user, host), quoted)
            == if quoted then [user, host] else [" GRANT ALL ON `" + database + "`.* TO ", "@", ";"]
  {
    hide PartsIn;
    var text := Raw(" GRANT ALL ON `" + database + "`.* TO ");
    var last := [Raw(";")] + [];
    var rest := [Raw("@")] + ([Quoted(host)] + last);
    NoParts(quoted);
    PartsHead(Raw(";"), [], quoted);
    PartsHead(Quoted(host), last, quoted);
    PartsHead(Raw("@"), [Quoted(host)] + last, quoted);
    PartsHead(Quoted(user), rest, quoted);
    PartsHead(text, [Quoted(user)] + rest, quoted);
    assert GrantFor(database, user, host) == [text] + ([Quoted(user)] + rest);
  }

  lemma TextParts(text: string, quoted: bool)
    ensures PartsIn([Raw(text)], quoted) == if quoted then [] else [text]
  {
    assert [Raw(text)][1..] == [];
  }

  lemma DatabaseParts(database: string, user: string, quoted: bool)
    ensures PartsIn(DatabaseFor(database, user), quoted)
            == if quoted then ThreeGrantees(user) else AroundGrants(database)
  {
    var a, b, c := GrantFor(database, user, "%"), GrantFor(database, user, "localhost"),
                   GrantFor(database, user, "127.0.0.1");
    GrantParts(database, user, "%", quoted);
    GrantParts(database, user, "localhost", quoted);
    GrantParts(database, user, "127.0.0.1", quoted);
    TextParts(DatabaseText(database), quoted);
    TextParts(" FLUSH PRIVILEGES;", quoted);
    hide PartsIn, GrantFor, DatabaseText;
    PartsAdd(a, b, quoted);
    PartsAdd(a + b, c, quoted);
    PartsAdd([Raw(DatabaseText(database))], a + b + c, quoted);
    PartsAdd([Raw(DatabaseText(database))] + (a + b + c), [Raw(" FLUSH PRIVILEGES;")], quoted);
  }

  lemma RoleParts(verb: string, clause: string, user: string, password: string, quoted: bool)
    ensures PartsIn(Role(verb, clause, user, password), quoted)
            == if quoted then [password] else [verb + user + clause, ";"]
  {
    hide PartsIn;
    var text := Raw(verb + user + clause);
    assert Role(verb, clause, user, password) == [text] + ([Quoted(password)] + ([Raw(";")] + []));
    NoParts(quoted);
    PartsHead(text, [Quoted(password)] + ([Raw(";")] + []), quoted);
    PartsHead(Quoted(password), [Raw(";")] + [], quoted);
    PartsHead(Raw(";"), [], quoted);
  }

  lemma StatementParts(engine: Engine, database: string, user: string, password: string, quoted: bool)
    ensures PartsIn(CreateUser(engine, user, password), quoted)
            == PartsIn(if engine.MariaDB? then Accounts(user, password)
                       else Role("CREATE ROLE \"", "\" LOGIN PASSWORD ", user, password), quoted)
               + if quoted then [] else ["\n"]
    ensures PartsIn(Rotate(engine, user, password), quoted)
            == (if engine.MariaDB?
                then PartsIn(Accounts(user, password), quoted)
                     + PartsIn(ForHosts(" ALTER USER ", " ALTER USER ", user, password), quoted)
                else PartsIn(Role("ALTER ROLE \"", "\" PASSWORD ", user, password), quoted))
               + if quoted then [] else ["\n"]
    ensures PartsIn(Create(engine, database, user, password), quoted)
            == (if engine.MariaDB?
                then PartsIn(Accounts(user, password), quoted) + PartsIn(DatabaseFor(database, user), quoted)
                else PartsIn(Role("CREATE ROLE \"", "\" LOGIN PASSWORD ", user, password), quoted))
               + if quoted then [] else ["\n"]
  {
    TextParts("\n", quoted);
    hide PartsIn, Accounts, ForHosts, DatabaseFor, Role;
    var made, changed := Accounts(user, password), ForHosts(" ALTER USER ", " ALTER USER ", user, password);
    PartsAdd(made, changed, quoted);
    PartsAdd(made, END, quoted);
    PartsAdd(made + changed, END, quoted);
    PartsAdd(made, DatabaseFor(database, user), quoted);
    PartsAdd(made + DatabaseFor(database, user), END, quoted);
    PartsAdd(Role("CREATE ROLE \"", "\" LOGIN PASSWORD ", user, password), END, quoted);
    PartsAdd(Role("ALTER ROLE \"", "\" PASSWORD ", user, password), END, quoted);
  }

  /** The values that the server reads from the statements that make or change a user: the password, and on MariaDB the
      user and the host of each of its three accounts before it; a new database is then opened to the three. */
  lemma UserStatementsCarry(engine: Engine, database: string, user: string, password: string)
    ensures ValuesIn(TokensOf(CreateUser(engine, user, password)))
            == if engine.MariaDB? then ThreeAccounts(user, password) else [password]
    ensures ValuesIn(TokensOf(Rotate(engine, user, password)))
            == if engine.MariaDB? then ThreeAccounts(user, password) + ThreeAccounts(user, password) else [password]
    ensures ValuesIn(TokensOf(Create(engine, database, user, password)))
            == if engine.MariaDB? then ThreeAccounts(user, password) + ThreeGrantees(user) else [password]
  {
    ValuesAreTheQuoted(CreateUser(engine, user, password));
    ValuesAreTheQuoted(Rotate(engine, user, password));
    ValuesAreTheQuoted(Create(engine, database, user, password));
    hide PartsIn, ValuesIn, TokensOf, Accounts, ForHosts, DatabaseFor, Role, CreateUser, Rotate, Create;
    StatementParts(engine, database, user, password, true);
    AccountsParts(user, password, true);
    HostsParts(" ALTER USER ", " ALTER USER ", user, password, true);
    DatabaseParts(database, user, true);
    RoleParts("CREATE ROLE \"", "\" LOGIN PASSWORD ", user, password, true);
    RoleParts("ALTER ROLE \"", "\" PASSWORD ", user, password, true);
  }

  /** The text around those values, as the source spells it. */
  lemma UserStatementsSpell(engine: Engine, database: string, user: string, password: string)
    ensures PartsIn(CreateUser(engine, user, password), false)
            == (if engine.MariaDB? then Around("CREATE USER IF NOT EXISTS ", " CREATE USER IF NOT EXISTS ")
                else ["CREATE ROLE \"" + user + "\" LOGIN PASSWORD ", ";"]) + ["\n"]
    ensures PartsIn(Rotate(engine, user, password), false)
            == (if engine.MariaDB?
                then Around("CREATE USER IF NOT EXISTS ", " CREATE USER IF NOT EXISTS ")
                     + Around(" ALTER USER ", " ALTER USER ")
                else ["ALTER ROLE \"" + user + "\" PASSWORD ", ";"]) + ["\n"]
    ensures PartsIn(Create(engine, database, user, password), false)
            == (if engine.MariaDB?
                then Around("CREATE USER IF NOT EXISTS ", " CREATE USER IF NOT EXISTS ") + AroundGrants(database)
                else ["CREATE ROLE \"" + user + "\" LOGIN PASSWORD ", ";"]) + ["\n"]
  {
    hide PartsIn, Accounts, ForHosts, DatabaseFor, Role, CreateUser, Rotate, Create, Around, AroundGrants;
    StatementParts(engine, database, user, password, false);
    AccountsParts(user, password, false);
    HostsParts(" ALTER USER ", " ALTER USER ", user, password, false);
    DatabaseParts(database, user, false);
    RoleParts("CREATE ROLE \"", "\" LOGIN PASSWORD ", user, password, false);
    RoleParts("ALTER ROLE \"", "\" PASSWORD ", user, password, false);
  }

  /** A name without quotes and backslashes stands between quotes as it is, which is how the source writes it. */
  lemma {:induction false} PlainNamesNeedNoEscape(engine: Engine, name: string)
    requires QUOTE !in name && BACKSLASH !in name
    ensures Literal(engine, name) == [QUOTE] + name + [QUOTE]
  {
    BodyIsEncode(engine, name);
    hide Body;
    PlainEncodes(engine, name);
  }

  lemma {:induction false} PlainEncodes(engine: Engine, name: string)
    requires QUOTE !in name && BACKSLASH !in name
    ensures Encode(engine, name) == name
  {
    if name != "" {
      assert name[0] in name;
      PlainEncodes(engine, name[1..]);
      assert name == [name[0]] + name[1..];
    }
  }

  /** Well formed, and another statement can follow. */
  ghost predicate Chainable(pieces: seq<Piece>) {
    WellFormed(pieces) && pieces != [] && pieces[|pieces| - 1].Raw?
  }

  lemma ChainableAdds(a: seq<Piece>, b: seq<Piece>)
    requires Chainable(a) && Chainable(b)
    ensures Chainable(a + b)
  {
  }

  lemma OneIsChainable(text: string)
    requires text != "" && QUOTE !in text
    ensures Chainable([Raw(text)])
  {
  }

  lemma AccountIsChainable(verb: string, user: string, host: string, password: string)
    requires verb != "" && QUOTE !in verb
    ensures Chainable(Account(verb, user, host, password))
  {
  }

  lemma GrantIsChainable(database: string, user: string, host: string)
    requires QUOTE !in database
    ensures Chainable(GrantFor(database, user, host))
  {
    assert QUOTE !in " GRANT ALL ON `" && QUOTE !in "`.* TO ";
  }

  lemma HostsAreChainable(first: string, verb: string, user: string, password: string)
    requires first != "" && verb != "" && QUOTE !in first && QUOTE !in verb
    ensures Chainable(ForHosts(first, verb, user, password))
  {
    var a, b, c := Account(first, user, "%", password), Account(verb, user, "localhost", password),
                   Account(verb, user, "127.0.0.1", password);
    AccountIsChainable(first, user, "%", password);
    AccountIsChainable(verb, user, "localhost", password);
    AccountIsChainable(verb, user, "127.0.0.1", password);
    hide Chainable, Account;
    ChainableAdds(a, b);
    ChainableAdds(a + b, c);
  }

  lemma AccountsAreChainable(user: string, password: string)
    ensures Chainable(Accounts(user, password))
  {
    hide Chainable, ForHosts;
    HostsAreChainable("CREATE USER IF NOT EXISTS ", " CREATE USER IF NOT EXISTS ", user, password);
  }

  lemma DatabaseIsChainable(database: string, user: string)
    requires QUOTE !in database
    ensures Chainable(DatabaseFor(database, user))
  {
    var a, b, c := GrantFor(database, user, "%"), GrantFor(database, user, "localhost"),
        GrantFor(database, user, "127.0.0.1");
    GrantIsChainable(database, user, "%");
    GrantIsChainable(database, user, "localhost");
    GrantIsChainable(database, user, "127.0.0.1");
    DatabaseTextIsPlain(database);
    hide DatabaseText;
    OneIsChainable(DatabaseText(database));
    OneIsChainable(" FLUSH PRIVILEGES;");
    hide Chainable, GrantFor;
    ChainableAdds(a, b);
    ChainableAdds(a + b, c);
    ChainableAdds([Raw(DatabaseText(database))], a + b + c);
    ChainableAdds([Raw(DatabaseText(database))] + (a + b + c), [Raw(" FLUSH PRIVILEGES;")]);
  }

  lemma DatabaseTextIsPlain(database: string)
    requires QUOTE !in database
    ensures DatabaseText(database) != "" && QUOTE !in DatabaseText(database)
  {
    PlainAdds("` CHARACTER SET utf8mb4", " COLLATE utf8mb4_unicode_ci;");
    PlainAdds(database, "` CHARACTER SET utf8mb4" + " COLLATE utf8mb4_unicode_ci;");
    PlainAdds(" CREATE DATABASE IF NOT EXISTS `",
              database + ("` CHARACTER SET utf8mb4" + " COLLATE utf8mb4_unicode_ci;"));
  }

  lemma PlainAdds(a: string, b: string)
    requires QUOTE !in a && QUOTE !in b
    ensures QUOTE !in a + b
  {
  }

  lemma RoleIsChainable(verb: string, clause: string, user: string, password: string)
    requires verb != "" && QUOTE !in verb && QUOTE !in clause && QUOTE !in user
    ensures Chainable(Role(verb, clause, user, password))
  {
  }

  lemma EndedReadsBack(engine: Engine, pieces: seq<Piece>)
    requires Chainable(pieces)
    ensures Tokenize(engine, Print(engine, pieces + END)) == Some(TokensOf(pieces + END))
  {
    OneIsChainable("\n");
    ChainableAdds(pieces, END);
    hide Tokenize, Print, TokensOf;
    StatementReadsBack(engine, pieces + END);
  }

  /** Every statement that carries a password runs as written, for every password; safeName admits neither quotes nor
      backslashes in the names, which the source prints as they are. */
  lemma PasswordStatementsReadBack(engine: Engine, database: string, user: string, password: string)
    requires QUOTE !in user && BACKSLASH !in user && QUOTE !in database && BACKSLASH !in database
    ensures Tokenize(engine, Print(engine, CreateUser(engine, user, password)))
            == Some(TokensOf(CreateUser(engine, user, password)))
    ensures Tokenize(engine, Print(engine, Rotate(engine, user, password)))
            == Some(TokensOf(Rotate(engine, user, password)))
    ensures Tokenize(engine, Print(engine, Create(engine, database, user, password)))
            == Some(TokensOf(Create(engine, database, user, password)))
  {
    hide Chainable, Tokenize, Print, TokensOf, Accounts, ForHosts, DatabaseFor, Role, END;
    match engine
    case PostgreSQL =>
      RoleIsChainable("CREATE ROLE \"", "\" LOGIN PASSWORD ", user, password);
      RoleIsChainable("ALTER ROLE \"", "\" PASSWORD ", user, password);
      EndedReadsBack(engine, Role("CREATE ROLE \"", "\" LOGIN PASSWORD ", user, password));
      EndedReadsBack(engine, Role("ALTER ROLE \"", "\" PASSWORD ", user, password));
    case MariaDB =>
      AccountsAreChainable(user, password);
      HostsAreChainable(" ALTER USER ", " ALTER USER ", user, password);
      DatabaseIsChainable(database, user);
      ChainableAdds(Accounts(user, password), ForHosts(" ALTER USER ", " ALTER USER ", user, password));
      ChainableAdds(Accounts(user, password), DatabaseFor(database, user));
      EndedReadsBack(engine, Accounts(user, password));
      EndedReadsBack(engine, Accounts(user, password) + ForHosts(" ALTER USER ", " ALTER USER ", user, password));
      EndedReadsBack(engine, Accounts(user, password) + DatabaseFor(database, user));
  }

  // ---------- Why MariaDB needs more than doubling ----------

  /** Every backslash is followed by a character that keeps it. */
  predicate KeepsBackslashes(value: string) {
    if value == "" then true
    else if value[0] == BACKSLASH then |value| > 1 && value[1] in ['%', '_'] && KeepsBackslashes(value[2..])
    else KeepsBackslashes(value[1..])
  }

  /** The PostgreSQL form of a value, read by MariaDB, is that value exactly if every backslash in it
      stands before a percent sign or an underscore. */
  lemma DoublingAloneInMariaDB(value: string, rest: string)
    requires rest == "" || rest[0] != QUOTE
    ensures Lex(MariaDB, Literal(PostgreSQL, value) + rest) == Some((value, rest)) <==> KeepsBackslashes(value)
  {
    hide LexBody, Body, Encode, KeepsBackslashes;
    var s := Literal(PostgreSQL, value) + rest;
    BodyIsEncode(PostgreSQL, value);
    assert s[1..] == Encode(PostgreSQL, value) + ([QUOTE] + rest);
    if KeepsBackslashes(value) {
      KeptReadsBack(value, rest);
    } else if Lex(MariaDB, s) == Some((value, rest)) {
      ReadBackIsKept(value, rest);
    }
  }

  lemma KeptPair(c: char, value: string, end: string)
    requires c in ['%', '_']
    ensures LexBody(MariaDB, Encode(PostgreSQL, [BACKSLASH, c] + value) + end)
            == Prepend([BACKSLASH, c], LexBody(MariaDB, Encode(PostgreSQL, value) + end))
  {
    EncodePair(c, value, end);
    hide LexBody, Encode;
    ReadsEscape(c, Encode(PostgreSQL, value) + end);
  }

  lemma EncodePair(c: char, value: string, end: string)
    ensures Encode(PostgreSQL, [BACKSLASH, c] + value) + end
            == if c == QUOTE then [BACKSLASH, QUOTE] + ([QUOTE] + (Encode(PostgreSQL, value) + end))
               else [BACKSLASH, c] + (Encode(PostgreSQL, value) + end)
  {
    hide Encode;
    assert [BACKSLASH, c] + value == [BACKSLASH] + ([c] + value);
    EncodeBefore(PostgreSQL, BACKSLASH, [c] + value, end);
    EncodeBefore(PostgreSQL, c, value, end);
  }

  lemma {:induction false} KeptReadsBack(value: string, rest: string)
    requires (rest == "" || rest[0] != QUOTE) && KeepsBackslashes(value)
    ensures LexBody(MariaDB, Encode(PostgreSQL, value) + ([QUOTE] + rest)) == Some((value, rest))
    decreases |value|
  {
    hide LexBody;
    var end := [QUOTE] + rest;
    if value == "" {
      assert Encode(PostgreSQL, value) + end == end;
      Closes(MariaDB, rest);
    } else if value[0] == BACKSLASH {
      KeptReadsBack(value[2..], rest);
      hide Encode;
      KeptPair(value[1], value[2..], end);
      assert value == [BACKSLASH, value[1]] + value[2..];
    } else {
      KeptReadsBack(value[1..], rest);
      hide Encode;
      PlainCharacter(value[0], value[1..], end);
      assert value == [value[0]] + value[1..];
    }
  }

  lemma PlainCharacter(c: char, value: string, end: string)
    requires c != BACKSLASH
    ensures LexBody(MariaDB, Encode(PostgreSQL, [c] + value) + end)
            == Prepend([c], LexBody(MariaDB, Encode(PostgreSQL, value) + end))
  {
    hide LexBody, Encode;
    EncodeBefore(PostgreSQL, c, value, end);
    CharacterReadsBack(MariaDB, c, Encode(PostgreSQL, value) + end);
  }

  /** Once a backslash has taken the first of two quotes, the literal does not end where it was meant to. */
  lemma {:induction false} TakenQuoteMovesTheEnd(value: string, rest: string)
    requires rest == "" || rest[0] != QUOTE
    ensures var r := LexBody(MariaDB, [QUOTE] + (Encode(PostgreSQL, value) + ([QUOTE] + rest)));
            r == None || |r.value.1| != |rest|
  {
    hide LexBody;
    var end := [QUOTE] + rest;
    if value == "" {
      assert [QUOTE] + (Encode(PostgreSQL, value) + end) == [QUOTE, QUOTE] + rest;
      ReadsQuote(MariaDB, rest);
    } else {
      hide Encode;
      var tail := Encode(PostgreSQL, value[1..]) + end;
      EncodeBefore(PostgreSQL, value[0], value[1..], end);
      assert value == [value[0]] + value[1..];
      if value[0] == QUOTE {
        TakenQuoteMovesTheEnd(value[1..], rest);
        assert [QUOTE] + ([QUOTE, QUOTE] + tail) == [QUOTE, QUOTE] + ([QUOTE] + tail);
        ReadsQuote(MariaDB, [QUOTE] + tail);
      } else {
        Closes(MariaDB, [value[0]] + tail);
      }
    }
  }

  /** Reading up to the intended end never yields more characters than were printed. */
  lemma {:induction false} ReadsNoMore(value: string, rest: string)
    requires rest == "" || rest[0] != QUOTE
    ensures var r := LexBody(MariaDB, Encode(PostgreSQL, value) + ([QUOTE] + rest));
            r.Some? && r.value.1 == rest ==> |r.value.0| <= |value|
    decreases |value|
  {
    hide LexBody, Unescaped;
    var end := [QUOTE] + rest;
    if value == "" {
      assert Encode(PostgreSQL, value) + end == end;
      Closes(MariaDB, rest);
    } else if value[0] != BACKSLASH {
      hide Encode;
      ReadsNoMore(value[1..], rest);
      PlainCharacter(value[0], value[1..], end);
      assert value == [value[0]] + value[1..];
    } else if |value| == 1 {
      LoneBackslash(value, rest);
    } else {
      hide Encode;
      assert value == [BACKSLASH, value[1]] + value[2..];
      EncodePair(value[1], value[2..], end);
      UnescapedSize(value[1]);
      if value[1] == QUOTE {
        TakenQuoteMovesTheEnd(value[2..], rest);
        ReadsEscape(QUOTE, [QUOTE] + (Encode(PostgreSQL, value[2..]) + end));
      } else {
        ReadsNoMore(value[2..], rest);
        ReadsEscape(value[1], Encode(PostgreSQL, value[2..]) + end);
      }
    }
  }

  /** An escape starts with a backslash only if it keeps it or is one. */
  lemma UnescapedSize(c: char)
    ensures 1 <= |Unescaped(c)| <= 2
    ensures c in ['%', '_'] ==> Unescaped(c) == [BACKSLASH, c]
    ensures c !in ['%', '_'] ==> |Unescaped(c)| == 1 && (c != BACKSLASH ==> Unescaped(c)[0] != BACKSLASH)
  {
  }

  lemma LoneBackslash(value: string, rest: string)
    requires value == [BACKSLASH]
    ensures LexBody(MariaDB, Encode(PostgreSQL, value) + ([QUOTE] + rest)) == Prepend([QUOTE], LexBody(MariaDB, rest))
  {
    assert Encode(PostgreSQL, value) == [BACKSLASH] by {
      assert value[1..] == "";
    }
    assert Encode(PostgreSQL, value) + ([QUOTE] + rest) == [BACKSLASH, QUOTE] + rest;
    hide LexBody;
    ReadsEscape(QUOTE, rest);
  }

  lemma {:induction false} ReadBackIsKept(value: string, rest: string)
    requires rest == "" || rest[0] != QUOTE
    requires LexBody(MariaDB, Encode(PostgreSQL, value) + ([QUOTE] + rest)) == Some((value, rest))
    ensures KeepsBackslashes(value)
    decreases |value|
  {
    hide LexBody, Encode, Unescaped;
    var end := [QUOTE] + rest;
    if value == "" {
    } else if value[0] != BACKSLASH {
      assert value == [value[0]] + value[1..];
      PlainCharacter(value[0], value[1..], end);
      SamePrefix([value[0]], value[1..], LexBody(MariaDB, Encode(PostgreSQL, value[1..]) + end), rest);
      ReadBackIsKept(value[1..], rest);
    } else if |value| == 1 {
      LoneBackslash(value, rest);
    } else {
      EscapeIsKept(value, rest);
      assert value == [BACKSLASH, value[1]] + value[2..];
      KeptPair(value[1], value[2..], end);
      SamePrefix([BACKSLASH, value[1]], value[2..], LexBody(MariaDB, Encode(PostgreSQL, value[2..]) + end), rest);
      ReadBackIsKept(value[2..], rest);
    }
  }

  lemma SamePrefix(front: string, value: string, r: Option<(string, string)>, rest: string)
    requires Prepend(front, r) == Some((front + value, rest))
    ensures r == Some((value, rest))
  {
    assert (front + value)[|front|..] == value && (front + r.value.0)[|front|..] == r.value.0;
  }

  lemma EscapeIsKept(value: string, rest: string)
    requires (rest == "" || rest[0] != QUOTE) && |value| > 1 && value[0] == BACKSLASH
    requires LexBody(MariaDB, Encode(PostgreSQL, value) + ([QUOTE] + rest)) == Some((value, rest))
    ensures value[1] in ['%', '_']
  {
    hide LexBody, Encode, Unescaped;
    var end := [QUOTE] + rest;
    assert value == [BACKSLASH, value[1]] + value[2..];
    EncodePair(value[1], value[2..], end);
    UnescapedSize(value[1]);
    if value[1] == QUOTE {
      ReadsEscape(QUOTE, [QUOTE] + (Encode(PostgreSQL, value[2..]) + end));
    } else {
      ReadsEscape(value[1], Encode(PostgreSQL, value[2..]) + end);
      ReadsNoMore(value[2..], rest);
    }
  }

  /** The value of one backslash swallows its closing quote: unless a later quote happens to close it, the literal
      stays open. */
  lemma TrailingBackslashEscapes(rest: string)
    requires QUOTE !in rest && BACKSLASH !in rest
    ensures Lex(MariaDB, Literal(PostgreSQL, [BACKSLASH]) + rest) == None
  {
    BodyIsEncode(PostgreSQL, [BACKSLASH]);
    LoneBackslash([BACKSLASH], rest);
    NeverCloses(rest);
    hide LexBody, Body, Encode;
    assert (Literal(PostgreSQL, [BACKSLASH]) + rest)[1..] == Encode(PostgreSQL, [BACKSLASH]) + ([QUOTE] + rest);
  }

  lemma {:induction false} NeverCloses(s: string)
    requires QUOTE !in s && BACKSLASH !in s
    ensures LexBody(MariaDB, s) == None
  {
    if s != "" {
      assert s[0] in s;
      NeverCloses(s[1..]);
    }
  }
}
