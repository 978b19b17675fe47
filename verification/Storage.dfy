/**
 Users, tokens and domains of internal/storage/db.go: tables with unique indexes, and the transactions
 that register a user and replace a token. Tokens are deleted softly: the row stays, and so does its
 claim on the unique indexes.
 */
module Storage {
  import opened Options

  datatype UserRow = UserRow(telegramID: Option<int>, yandexID: Option<string>)

  datatype TokenRow = TokenRow(tokenString: string, tokenHash: Option<string>, user: nat, deleted: bool)

  datatype Db = Db(users: map<nat, UserRow>, tokens: seq<TokenRow>, domains: map<string, nat>)

  datatype Error = DbError | NoRandomness | DuplicateKey

  datatype Result = Ok(db: Db) | Err(error: Error)

  /** The hash of a token, SHA-256 in the program. */
  type Hash = string -> string

  ghost predicate Injective(h: Hash) {
    forall s, t :: h(s) == h(t) ==> s == t
  }

  // ---- statements ----

  predicate UserFits(db: Db, id: nat, row: UserRow) {
    forall v :: v in db.users && v != id ==>
      && (row.telegramID.Some? ==> db.users[v].telegramID != row.telegramID)
      && (row.yandexID.Some? ==> db.users[v].yandexID != row.yandexID)
  }

  predicate TelegramFree(db: Db, u: nat, telegramID: int) {
    forall v :: v in db.users && v != u ==> db.users[v].telegramID != Some(telegramID)
  }

  predicate YandexFree(db: Db, u: nat, yandexID: string) {
    forall v :: v in db.users && v != u ==> db.users[v].yandexID != Some(yandexID)
  }

  /** INSERT INTO users: the primary key and both optional ids are unique; NULLs are not compared. */
  function InsertUser(db: Db, id: nat, row: UserRow): Result {
    if id in db.users || !UserFits(db, id, row) then Err(DbError)
    else Ok(db.(users := db.users[id := row]))
  }

  /** Both columns are unique; an absent hash is NULL, which is not compared. */
  predicate TokenFits(db: Db, row: TokenRow) {
    forall t :: t in db.tokens ==>
      t.tokenString != row.tokenString && (t.tokenHash.None? || t.tokenHash != row.tokenHash)
  }

  /** The row of a new token. Rows from before hashes were stored have none. */
  function NewToken(h: Hash, s: string, user: nat): TokenRow { TokenRow(s, Some(h(s)), user, false) }

  function InsertToken(db: Db, row: TokenRow): Result {
    if TokenFits(db, row) then Ok(db.(tokens := db.tokens + [row])) else Err(DbError)
  }

  function InsertDomain(db: Db, name: string, user: nat): Result {
    if name in db.domains then Err(DuplicateKey) else Ok(db.(domains := db.domains[name := user]))
  }

  /** The domains of a registration, one after the other until the first that is taken. */
  function InsertDomains(db: Db, names: seq<string>, user: nat): Result {
    if names == [] then Ok(db)
    else
      var r := InsertDomains(db, names[..|names| - 1], user);
      if r.Err? then r else InsertDomain(r.db, names[|names| - 1], user)
  }

  function SoftDeleted(tokens: seq<TokenRow>, user: nat): (r: seq<TokenRow>)
    ensures |r| == |tokens|
    ensures forall i :: 0 <= i < |r| ==> r[i] == if tokens[i].user == user then tokens[i].(deleted := true) else tokens[i]
  {
    seq(|tokens|, i requires 0 <= i < |tokens| =>
      if tokens[i].user == user then tokens[i].(deleted := true) else tokens[i])
  }

  /** The first live row with this hash, in the order of the primary key. */
  function FirstByHash(tokens: seq<TokenRow>, hash: string): (r: Option<TokenRow>)
    ensures r.Some? ==> r.value in tokens && !r.value.deleted && r.value.tokenHash == Some(hash)
    ensures r.None? ==> forall t :: t in tokens && !t.deleted ==> t.tokenHash != Some(hash)
  {
    if tokens == [] then None
    else if !tokens[0].deleted && tokens[0].tokenHash == Some(hash) then Some(tokens[0])
    else FirstByHash(tokens[1..], hash)
  }

  function FirstByString(tokens: seq<TokenRow>, s: string): (r: Option<TokenRow>)
    ensures r.Some? ==> r.value in tokens && !r.value.deleted && r.value.tokenString == s
    ensures r.None? ==> forall t :: t in tokens && !t.deleted ==> t.tokenString != s
  {
    if tokens == [] then None
    else if !tokens[0].deleted && tokens[0].tokenString == s then Some(tokens[0])
    else FirstByString(tokens[1..], s)
  }

  // ---- operations ----

  datatype Op =
    | Register(id: nat, row: UserRow, token: Option<string>, domains: seq<string>)
    | Regenerate(user: nat, newToken: Option<string>)
    | LinkTelegram(user: nat, telegramID: int)
    | LinkYandex(user: nat, yandexID: string)

  /** A transaction either gives a new database or an error; `token` is None if the random source fails. */
  function Apply(db: Db, h: Hash, op: Op): Result {
    match op
    case Register(id, row, token, domains) =>
      var r1 := InsertUser(db, id, row);
      if r1.Err? then r1
      else if token.None? then Err(NoRandomness)
      else
        var r2 := InsertToken(r1.db, NewToken(h, token.value, id));
        if r2.Err? then r2 else InsertDomains(r2.db, domains, id)
    case Regenerate(u, token) =>
      if token.None? then Err(NoRandomness)
      else InsertToken(db.(tokens := SoftDeleted(db.tokens, u)), NewToken(h, token.value, u))
    case LinkTelegram(u, telegramID) =>
      if u !in db.users then Ok(db)
      else if TelegramFree(db, u, telegramID) then Ok(db.(users := db.users[u := db.users[u].(telegramID := Some(telegramID))]))
      else Err(DbError)
    case LinkYandex(u, yandexID) =>
      if u !in db.users then Ok(db)
      else if YandexFree(db, u, yandexID) then Ok(db.(users := db.users[u := db.users[u].(yandexID := Some(yandexID))]))
      else Err(DbError)
  }

  /** The database after an operation: unchanged if it fails. */
  function Commit(db: Db, h: Hash, op: Op): Db {
    var r := Apply(db, h, op);
    if r.Ok? then r.db else db
  }

  /** `ValidateToken`: by hash, and if that finds nothing by the string itself. */
  function Validate(db: Db, h: Hash, s: string): Option<nat> {
    var byHash := FirstByHash(db.tokens, h(s));
    if byHash.Some? then Some(byHash.value.user)
    else
      var byString := FirstByString(db.tokens, s);
      if byString.Some? then Some(byString.value.user) else None
  }

  // ---- the database as the code changes it ----

  class Database {
    var users: map<nat, UserRow>
    var tokens: seq<TokenRow>
    var domains: map<string, nat>
    const hash: Hash

    constructor (db: Db, hash: Hash)
      ensures Value() == db && this.hash == hash
    {
      this.hash := hash;
      users, tokens, domains := db.users, db.tokens, db.domains;
    }

    function Value(): Db
      reads this
    {
      Db(users, tokens, domains)
    }

    method RollBack(to: Db)
      modifies this
      ensures Value() == to
    {
      users, tokens, domains := to.users, to.tokens, to.domains;
    }

    /** Each statement takes effect at once; an error in the middle undoes all of them. */
    method CreateUserWithTokenAndDomains(id: nat, row: UserRow, token: Option<string>, names: seq<string>)
      returns (err: Option<Error>)
      modifies this
      ensures var r := Apply(old(Value()), hash, Register(id, row, token, names));
              (r.Ok? ==> err.None? && Value() == r.db) && (r.Err? ==> err == Some(r.error) && Value() == old(Value()))
    {
      var before := Value();
      if id in users || !UserFits(before, id, row) {
        return Some(DbError);
      }
      users := users[id := row];
      if token.None? {
        RollBack(before);
        return Some(NoRandomness);
      }
      var t := NewToken(hash, token.value, id);
      if !TokenFits(Value(), t) {
        RollBack(before);
        return Some(DbError);
      }
      tokens := tokens + [t];
      ghost var inserted := Value();
      for i := 0 to |names|
        invariant InsertDomains(inserted, names[..i], id) == Ok(Value())
      {
        InsertOneMore(inserted, names, i, id);
        if names[i] in domains {
          InsertStopsAtError(inserted, names, i + 1, id);
          RollBack(before);
          return Some(DuplicateKey);
        }
        domains := domains[names[i] := id];
      }
      assert names[..|names|] == names;
      err := None;
    }

    method RegenerateToken(user: nat, token: Option<string>) returns (err: Option<Error>)
      modifies this
      ensures var r := Apply(old(Value()), hash, Regenerate(user, token));
              (r.Ok? ==> err.None? && Value() == r.db) && (r.Err? ==> err == Some(r.error) && Value() == old(Value()))
    {
      var before := Value();
      for i := 0 to |tokens|
        invariant users == before.users && domains == before.domains && |tokens| == |before.tokens|
        invariant tokens[..i] == SoftDeleted(before.tokens, user)[..i] && tokens[i..] == before.tokens[i..]
      {
        assert tokens[i] == before.tokens[i..][0];
        if tokens[i].user == user {
          tokens := tokens[i := tokens[i].(deleted := true)];
        }
      }
      assert tokens == SoftDeleted(before.tokens, user);
      if token.None? {
        RollBack(before);
        return Some(NoRandomness);
      }
      var t := NewToken(hash, token.value, user);
      if !TokenFits(Value(), t) {
        RollBack(before);
        return Some(DbError);
      }
      tokens := tokens + [t];
      err := None;
    }

    method LinkTelegramAccount(user: nat, telegramID: int) returns (err: Option<Error>)
      modifies this
      ensures var r := Apply(old(Value()), hash, LinkTelegram(user, telegramID));
              (r.Ok? ==> err.None? && Value() == r.db) && (r.Err? ==> err == Some(r.error) && Value() == old(Value()))
    {
      if user in users {
        if !TelegramFree(Value(), user, telegramID) {
          return Some(DbError);
        }
        users := users[user := users[user].(telegramID := Some(telegramID))];
      }
      err := None;
    }

    method LinkYandexAccount(user: nat, yandexID: string) returns (err: Option<Error>)
      modifies this
      ensures var r := Apply(old(Value()), hash, LinkYandex(user, yandexID));
              (r.Ok? ==> err.None? && Value() == r.db) && (r.Err? ==> err == Some(r.error) && Value() == old(Value()))
    {
      if user in users {
        if !YandexFree(Value(), user, yandexID) {
          return Some(DbError);
        }
        users := users[user := users[user].(yandexID := Some(yandexID))];
      }
      err := None;
    }

    method ValidateToken(s: string) returns (user: Option<nat>)
      ensures user == Validate(Value(), hash, s)
    {
      var byHash := FirstByHash(tokens, hash(s));
      if byHash.Some? {
        return Some(byHash.value.user);
      }
      var byString := FirstByString(tokens, s);
      user := if byString.Some? then Some(byString.value.user) else None;
    }
  }

  lemma InsertOneMore(db: Db, names: seq<string>, i: nat, user: nat)
    requires i < |names|
    ensures var r := InsertDomains(db, names[..i], user);
            InsertDomains(db, names[..i + 1], user) == if r.Err? then r else InsertDomain(r.db, names[i], user)
  {
    assert names[..i + 1][..i] == names[..i];
  }

  lemma {:induction false} InsertStopsAtError(db: Db, names: seq<string>, i: nat, user: nat)
    requires i <= |names| && InsertDomains(db, names[..i], user).Err?
    ensures InsertDomains(db, names, user) == InsertDomains(db, names[..i], user)
  {
    if i == |names| {
      assert names[..i] == names;
    } else {
      assert names[..|names| - 1][..i] == names[..i];
      InsertStopsAtError(db, names[..|names| - 1], i, user);
    }
  }

  // ---- the invariant ----

  ghost predicate LiveAt(db: Db, i: int, u: nat) {
    0 <= i < |db.tokens| && db.tokens[i].user == u && !db.tokens[i].deleted
  }

  ghost predicate OneLiveToken(db: Db, u: nat) {
    (exists i :: LiveAt(db, i, u)) && forall i, j :: LiveAt(db, i, u) && LiveAt(db, j, u) ==> i == j
  }

  ghost predicate LinksUnique(db: Db) {
    forall u :: u in db.users ==> UserFits(db, u, db.users[u])
  }

  ghost predicate TokensUnique(db: Db, h: Hash) {
    && (forall i, j :: 0 <= i < j < |db.tokens| ==>
          && db.tokens[i].tokenString != db.tokens[j].tokenString
          && (db.tokens[i].tokenHash.Some? ==> db.tokens[i].tokenHash != db.tokens[j].tokenHash))
    && (forall i :: 0 <= i < |db.tokens| && db.tokens[i].tokenHash.Some? ==>
          db.tokens[i].tokenHash.value == h(db.tokens[i].tokenString))
  }

  ghost predicate Referential(db: Db) {
    && (forall i :: 0 <= i < |db.tokens| ==> db.tokens[i].user in db.users)
    && (forall name :: name in db.domains ==> db.domains[name] in db.users)
  }

  ghost predicate Good(db: Db, h: Hash) {
    LinksUnique(db) && TokensUnique(db, h) && Referential(db) && forall u :: u in db.users ==> OneLiveToken(db, u)
  }

  /** What a successful series of domain inserts did: all names were free, they differ, and now they are the user's. */
  lemma {:induction false} InsertDomainsEffect(db: Db, names: seq<string>, user: nat)
    ensures var r := InsertDomains(db, names, user);
            && (r.Ok? <==> (forall i :: 0 <= i < |names| ==> names[i] !in db.domains)
                           && (forall i, j :: 0 <= i < j < |names| ==> names[i] != names[j]))
            && (r.Ok? ==> && r.db.users == db.users && r.db.tokens == db.tokens
                          && (forall n :: n in r.db.domains <==> n in db.domains || n in names)
                          && (forall n :: n in r.db.domains ==> r.db.domains[n] == if n in db.domains then db.domains[n] else user))
            && (r.Err? ==> r.error == DuplicateKey)
  {
    if names != [] {
      InsertDomainsEffect(db, names[..|names| - 1], user);
      assert names == names[..|names| - 1] + [names[|names| - 1]];
    }
  }

  // what the statements do to tokens

  lemma AppendedTokenIsLive(db: Db, db': Db, row: TokenRow)
    requires db'.tokens == db.tokens + [row] && !row.deleted
    ensures forall i, v :: LiveAt(db', i, v) <==> LiveAt(db, i, v) || (i == |db.tokens| && v == row.user)
  {
  }

  lemma SoftDeleteEndsLiveTokens(db: Db, db': Db, u: nat)
    requires db'.tokens == SoftDeleted(db.tokens, u)
    ensures forall i, v :: LiveAt(db', i, v) <==> LiveAt(db, i, v) && v != u
  {
  }

  lemma AppendKeepsTokensUnique(db: Db, h: Hash, s: string, u: nat)
    requires TokensUnique(db, h) && TokenFits(db, NewToken(h, s, u))
    ensures TokensUnique(db.(tokens := db.tokens + [NewToken(h, s, u)]), h)
  {
    assert forall i :: 0 <= i < |db.tokens| ==> db.tokens[i] in db.tokens;
  }

  lemma SoftDeleteKeepsTokensUnique(db: Db, h: Hash, u: nat)
    requires TokensUnique(db, h)
    ensures TokensUnique(db.(tokens := SoftDeleted(db.tokens, u)), h)
  {
  }

  lemma SameTokensSameUnique(db: Db, db': Db, h: Hash)
    requires TokensUnique(db, h) && db'.tokens == db.tokens
    ensures TokensUnique(db', h)
  {
  }

  /** The databases between the statements of a successful registration. */
  lemma RegisterSteps(db: Db, h: Hash, id: nat, row: UserRow, token: Option<string>, names: seq<string>)
    requires Apply(db, h, Register(id, row, token, names)).Ok?
    ensures token.Some? && id !in db.users && UserFits(db, id, row)
    ensures TokenFits(db, NewToken(h, token.value, id))
    ensures var db' := Apply(db, h, Register(id, row, token, names)).db;
            && db'.users == db.users[id := row]
            && db'.tokens == db.tokens + [NewToken(h, token.value, id)]
            && (forall n :: n in db'.domains <==> n in db.domains || n in names)
            && (forall n :: n in db'.domains ==> db'.domains[n] == if n in db.domains then db.domains[n] else id)
  {
    var r1 := InsertUser(db, id, row).db;
    var t := NewToken(h, token.value, id);
    assert TokenFits(r1, t) <==> TokenFits(db, t);
    InsertDomainsEffect(InsertToken(r1, t).db, names, id);
  }

  // ---- when the operations succeed, and which errors they give ----

  /** The user is new, and nobody else has the linked ids of the row. */
  ghost predicate NewUser(db: Db, id: nat, row: UserRow) {
    && id !in db.users
    && (row.telegramID.Some? ==> forall v :: v in db.users ==> db.users[v].telegramID != row.telegramID)
    && (row.yandexID.Some? ==> forall v :: v in db.users ==> db.users[v].yandexID != row.yandexID)
  }

  /** No row, deleted or not, has the token or its hash. */
  ghost predicate NewTokenString(db: Db, h: Hash, s: string) {
    forall i :: 0 <= i < |db.tokens| ==> db.tokens[i].tokenString != s && db.tokens[i].tokenHash != Some(h(s))
  }

  ghost predicate NewNames(db: Db, names: seq<string>) {
    && (forall i :: 0 <= i < |names| ==> names[i] !in db.domains)
    && (forall i, j :: 0 <= i < j < |names| ==> names[i] != names[j])
  }

  lemma NewTokenFits(db: Db, h: Hash, s: string, u: nat)
    ensures TokenFits(db, NewToken(h, s, u)) <==> NewTokenString(db, h, s)
  {
    if TokenFits(db, NewToken(h, s, u)) {
      assert forall i :: 0 <= i < |db.tokens| ==> db.tokens[i] in db.tokens;
    }
  }

  /**
   A registration succeeds if and only if the user, the token and the names are new; a taken user or token is
   a database error, a missing token one of the random source, and a taken name a duplicate key.
   */
  lemma RegisterSucceedsIff(db: Db, h: Hash, id: nat, row: UserRow, token: Option<string>, names: seq<string>)
    ensures var r := Apply(db, h, Register(id, row, token, names));
            var newToken := token.Some? && NewTokenString(db, h, token.value);
            && (r.Ok? <==> NewUser(db, id, row) && newToken && NewNames(db, names))
            && (r.Err? ==> match r.error
                           case DbError => !NewUser(db, id, row) || (token.Some? && !newToken)
                           case NoRandomness => NewUser(db, id, row) && token.None?
                           case DuplicateKey => NewUser(db, id, row) && newToken && !NewNames(db, names))
  {
    assert id !in db.users && UserFits(db, id, row) <==> NewUser(db, id, row);
    if NewUser(db, id, row) && token.Some? {
      var r1 := InsertUser(db, id, row).db;
      NewTokenFits(r1, h, token.value, id);
      assert NewTokenString(r1, h, token.value) <==> NewTokenString(db, h, token.value);
      var db2 := r1.(tokens := r1.tokens + [NewToken(h, token.value, id)]);
      InsertDomainsEffect(db2, names, id);
      assert NewNames(db2, names) <==> NewNames(db, names);
    }
  }

  /** A token is replaced if and only if there is a new one, which no row has, not even those just deleted. */
  lemma RegenerateSucceedsIff(db: Db, h: Hash, u: nat, token: Option<string>)
    ensures var r := Apply(db, h, Regenerate(u, token));
            && (r.Ok? <==> token.Some? && NewTokenString(db, h, token.value))
            && (r.Err? ==> r.error == if token.None? then NoRandomness else DbError)
  {
    if token.Some? {
      var marked := db.(tokens := SoftDeleted(db.tokens, u));
      NewTokenFits(marked, h, token.value, u);
      assert NewTokenString(marked, h, token.value) <==> NewTokenString(db, h, token.value);
    }
  }

  /** What linking does: it sets one id of one user, and nothing if that user does not exist. */
  ghost predicate Links(db: Db, db': Db, u: nat, row: UserRow) {
    && db'.users.Keys == db.users.Keys && db'.tokens == db.tokens && db'.domains == db.domains
    && (forall v :: v in db.users && v != u ==> db'.users[v] == db.users[v])
    && (u in db.users ==> db'.users[u] == row)
  }

  /** Linking a Telegram account fails if and only if another user has it, and leaves the Yandex id alone. */
  lemma LinkTelegramEffect(db: Db, h: Hash, u: nat, telegramID: int)
    ensures var r := Apply(db, h, LinkTelegram(u, telegramID));
            && (r.Err? <==> u in db.users && exists v :: v in db.users && v != u && db.users[v].telegramID == Some(telegramID))
            && (r.Err? ==> r.error == DbError)
            && (r.Ok? ==> Links(db, r.db, u, if u in db.users then UserRow(Some(telegramID), db.users[u].yandexID) else UserRow(None, None)))
  {
  }

  /** The same for a Yandex account. */
  lemma LinkYandexEffect(db: Db, h: Hash, u: nat, yandexID: string)
    ensures var r := Apply(db, h, LinkYandex(u, yandexID));
            && (r.Err? <==> u in db.users && exists v :: v in db.users && v != u && db.users[v].yandexID == Some(yandexID))
            && (r.Err? ==> r.error == DbError)
            && (r.Ok? ==> Links(db, r.db, u, if u in db.users then UserRow(db.users[u].telegramID, Some(yandexID)) else UserRow(None, None)))
  {
  }

  lemma InsertKeepsLinksUnique(db: Db, db': Db, id: nat, row: UserRow)
    requires LinksUnique(db) && UserFits(db, id, row) && db'.users == db.users[id := row]
    ensures LinksUnique(db')
  {
    forall u | u in db'.users
      ensures UserFits(db', u, db'.users[u])
    {
      if u != id {
        assert UserFits(db, u, db.users[u]);
      }
    }
  }

  lemma RegisterKeepsOneLiveToken(db: Db, db': Db, id: nat, row: TokenRow, u: nat)
    requires Referential(db) && db'.tokens == db.tokens + [row] && !row.deleted && row.user == id && id !in db.users
    requires u == id || OneLiveToken(db, u)
    ensures OneLiveToken(db', u)
  {
    AppendedTokenIsLive(db, db', row);
    if u == id {
      assert LiveAt(db', |db.tokens|, id);
    } else {
      var i :| LiveAt(db, i, u);
      assert LiveAt(db', i, u);
    }
  }

  lemma RegisterKeepsGood(db: Db, h: Hash, id: nat, row: UserRow, token: Option<string>, names: seq<string>)
    requires Good(db, h)
    ensures Good(Commit(db, h, Register(id, row, token, names)), h)
  {
    var r := Apply(db, h, Register(id, row, token, names));
    if r.Ok? {
      RegisterSteps(db, h, id, row, token, names);
      var t := NewToken(h, token.value, id);
      InsertKeepsLinksUnique(db, r.db, id, row);
      AppendKeepsTokensUnique(db, h, token.value, id);
      SameTokensSameUnique(db.(tokens := db.tokens + [t]), r.db, h);
      forall u | u in r.db.users
        ensures OneLiveToken(r.db, u)
      {
        RegisterKeepsOneLiveToken(db, r.db, id, t, u);
      }
    }
  }

  /** A registered user has the token and the domains asked for. */
  lemma RegistrationGrants(db: Db, h: Hash, id: nat, row: UserRow, token: Option<string>, names: seq<string>)
    requires Injective(h) && Good(db, h) && Apply(db, h, Register(id, row, token, names)).Ok?
    ensures var db' := Apply(db, h, Register(id, row, token, names)).db;
            && token.Some? && Validate(db', h, token.value) == Some(id)
            && (forall n :: n in db'.domains && db'.domains[n] == id <==> n in names)
            && (forall n :: n in names ==> n !in db.domains)
            && db'.users == db.users[id := row]
            && (forall n :: n in db.domains ==> n in db'.domains && db'.domains[n] == db.domains[n])
  {
    RegisterSteps(db, h, id, row, token, names);
    RegisterKeepsGood(db, h, id, row, token, names);
    var r1 := InsertUser(db, id, row).db;
    InsertDomainsEffect(InsertToken(r1, NewToken(h, token.value, id)).db, names, id);
    var db' := Apply(db, h, Register(id, row, token, names)).db;
    assert LiveAt(db', |db.tokens|, id) && db'.tokens[|db.tokens|].tokenString == token.value;
    ValidatesExactlyLiveTokens(db', h, id, token.value);
  }

  lemma RegenerateSteps(db: Db, h: Hash, u: nat, token: Option<string>)
    requires Apply(db, h, Regenerate(u, token)).Ok?
    ensures token.Some?
    ensures var db' := Apply(db, h, Regenerate(u, token)).db; var t := NewToken(h, token.value, u);
            && db'.users == db.users && db'.domains == db.domains
            && db'.tokens == SoftDeleted(db.tokens, u) + [t]
            && TokenFits(db.(tokens := SoftDeleted(db.tokens, u)), t)
            && (forall i, v :: LiveAt(db', i, v) <==> if v == u then i == |db.tokens| else LiveAt(db, i, v))
  {
    var db1 := db.(tokens := SoftDeleted(db.tokens, u));
    SoftDeleteEndsLiveTokens(db, db1, u);
    AppendedTokenIsLive(db1, Apply(db, h, Regenerate(u, token)).db, NewToken(h, token.value, u));
  }

  /** Replacing a token keeps the invariant exactly when the user exists; the code does not check. */
  lemma RegenerateKeepsGoodIffUserExists(db: Db, h: Hash, u: nat, token: Option<string>)
    requires Good(db, h)
    ensures var r := Apply(db, h, Regenerate(u, token));
            r.Ok? ==> (Good(r.db, h) <==> u in db.users)
  {
    var r := Apply(db, h, Regenerate(u, token));
    if r.Ok? {
      RegenerateSteps(db, h, u, token);
      assert r.db.tokens[|db.tokens|].user == u;
      if u in db.users {
        var db1 := db.(tokens := SoftDeleted(db.tokens, u));
        SoftDeleteKeepsTokensUnique(db, h, u);
        AppendKeepsTokensUnique(db1, h, token.value, u);
        SameTokensSameUnique(db1.(tokens := r.db.tokens), r.db, h);
        InsertKeepsLinksUnique(db, r.db, u, db.users[u]);
        RegenerateKeepsOneLiveToken(db, r.db, u);
      }
    }
  }

  lemma RegenerateKeepsOneLiveToken(db: Db, db': Db, u: nat)
    requires forall v :: v in db.users ==> OneLiveToken(db, v)
    requires forall i, v :: LiveAt(db', i, v) <==> if v == u then i == |db.tokens| else LiveAt(db, i, v)
    ensures forall v :: v in db.users ==> OneLiveToken(db', v)
  {
    forall v | v in db.users
      ensures OneLiveToken(db', v)
    {
      if v == u {
        assert LiveAt(db', |db.tokens|, u);
      } else {
        var i :| LiveAt(db, i, v);
        assert LiveAt(db', i, v);
      }
    }
  }

  lemma RelinkKeepsGood(db: Db, h: Hash, u: nat, row: UserRow)
    requires Good(db, h) && u in db.users && UserFits(db, u, row)
    ensures Good(db.(users := db.users[u := row]), h)
  {
    var db' := db.(users := db.users[u := row]);
    forall v | v in db'.users
      ensures UserFits(db', v, db'.users[v])
    {
      if v != u {
        assert UserFits(db, v, db.users[v]);
      }
    }
    forall v | v in db'.users
      ensures OneLiveToken(db', v)
    {
      assert forall i :: LiveAt(db', i, v) <==> LiveAt(db, i, v);
    }
  }

  // ---- runs ----

  function After(h: Hash, db0: Db, ops: seq<Op>): Db {
    if ops == [] then db0 else Commit(After(h, db0, ops[..|ops| - 1]), h, ops[|ops| - 1])
  }

  /** Tokens are only regenerated for users that exist, as the dashboard does. */
  ghost predicate ForExistingUsers(h: Hash, db0: Db, ops: seq<Op>) {
    forall i :: 0 <= i < |ops| && ops[i].Regenerate? ==> ops[i].user in After(h, db0, ops[..i]).users
  }

  lemma CommitKeepsGood(db: Db, h: Hash, op: Op)
    requires Good(db, h) && (op.Regenerate? ==> op.user in db.users)
    ensures Good(Commit(db, h, op), h)
  {
    match op
    case Register(id, row, token, names) => RegisterKeepsGood(db, h, id, row, token, names);
    case Regenerate(u, token) => RegenerateKeepsGoodIffUserExists(db, h, u, token);
    case LinkTelegram(u, telegramID) =>
      if Apply(db, h, op).Ok? && u in db.users {
        RelinkKeepsGood(db, h, u, db.users[u].(telegramID := Some(telegramID)));
      }
    case LinkYandex(u, yandexID) =>
      if Apply(db, h, op).Ok? && u in db.users {
        RelinkKeepsGood(db, h, u, db.users[u].(yandexID := Some(yandexID)));
      }
  }

  /**
   Over every run, with failed operations in it, from the empty database or one that may hold legacy tokens:
   each user has exactly one live token, tokens, linked ids and domain names are unique, and nothing refers
   to a user that does not exist.
   */
  lemma {:induction false} RunsKeepGood(h: Hash, db0: Db, ops: seq<Op>)
    requires Good(db0, h) && ForExistingUsers(h, db0, ops)
    ensures Good(After(h, db0, ops), h)
  {
    if ops != [] {
      var n := |ops| - 1;
      assert forall i :: 0 <= i < n ==> ops[..n][..i] == ops[..i];
      RunsKeepGood(h, db0, ops[..n]);
      CommitKeepsGood(After(h, db0, ops[..n]), h, ops[n]);
    }
  }

  const EMPTY: Db := Db(map[], [], map[])

  /** So a database that started empty is always like that, and knows no legacy tokens. */
  lemma {:induction false} EveryRunIsGood(h: Hash, ops: seq<Op>)
    requires ForExistingUsers(h, EMPTY, ops)
    ensures Good(After(h, EMPTY, ops), h)
    ensures forall t :: t in After(h, EMPTY, ops).tokens ==> t.tokenHash == Some(h(t.tokenString))
  {
    RunsKeepGood(h, EMPTY, ops);
    if ops != [] {
      var n := |ops| - 1;
      assert forall i :: 0 <= i < n ==> ops[..n][..i] == ops[..i];
      EveryRunIsGood(h, ops[..n]);
      CommitStoresHashes(After(h, EMPTY, ops[..n]), h, ops[n]);
    }
  }

  lemma CommitStoresHashes(db: Db, h: Hash, op: Op)
    requires forall t :: t in db.tokens ==> t.tokenHash == Some(h(t.tokenString))
    ensures forall t :: t in Commit(db, h, op).tokens ==> t.tokenHash == Some(h(t.tokenString))
  {
    match op
    case Register(id, row, token, names) =>
      if Apply(db, h, op).Ok? {
        RegisterSteps(db, h, id, row, token, names);
      }
    case Regenerate(u, token) =>
      if Apply(db, h, op).Ok? {
        RegenerateSteps(db, h, u, token);
        forall t | t in SoftDeleted(db.tokens, u)
          ensures t.tokenHash == Some(h(t.tokenString))
        {
          var i :| 0 <= i < |db.tokens| && t == SoftDeleted(db.tokens, u)[i];
          assert db.tokens[i] in db.tokens;
        }
      }
    case _ =>
  }

  // ---- what a token proves ----

  ghost predicate IsLiveToken(db: Db, u: nat, s: string) {
    exists i :: LiveAt(db, i, u) && db.tokens[i].tokenString == s
  }

  /** A string validates to a user exactly when it is that user's live token, with or without a stored hash. */
  lemma ValidatesExactlyLiveTokens(db: Db, h: Hash, u: nat, s: string)
    requires Injective(h) && TokensUnique(db, h)
    ensures Validate(db, h, s) == Some(u) <==> IsLiveToken(db, u, s)
  {
    var byHash := FirstByHash(db.tokens, h(s));
    if byHash.Some? {
      var i :| 0 <= i < |db.tokens| && db.tokens[i] == byHash.value;
      assert db.tokens[i].tokenString == s;
      assert LiveAt(db, i, byHash.value.user);
    }
    if i :| LiveAt(db, i, u) && db.tokens[i].tokenString == s {
      assert db.tokens[i] in db.tokens;
    }
  }

  lemma RegenerateLiveTokens(db: Db, h: Hash, u: nat, token: string, v: nat, s: string)
    requires Apply(db, h, Regenerate(u, Some(token))).Ok?
    ensures IsLiveToken(Apply(db, h, Regenerate(u, Some(token))).db, v, s) <==>
              if v == u then s == token else IsLiveToken(db, v, s)
  {
    var db' := Apply(db, h, Regenerate(u, Some(token))).db;
    RegenerateSteps(db, h, u, Some(token));
    var n := |db.tokens|;
    assert db'.tokens[n].tokenString == token;
    assert forall i :: 0 <= i < n ==> db'.tokens[i].tokenString == db.tokens[i].tokenString;
    if v == u {
      assert LiveAt(db', n, u);
    } else if i :| LiveAt(db, i, v) && db.tokens[i].tokenString == s {
      assert LiveAt(db', i, v);
    }
  }

  /** A string is the live token of at most one user. */
  lemma LiveTokenHasOneUser(db: Db, h: Hash, u: nat, v: nat, s: string)
    requires TokensUnique(db, h) && IsLiveToken(db, u, s) && IsLiveToken(db, v, s)
    ensures u == v
  {
    var i :| LiveAt(db, i, u) && db.tokens[i].tokenString == s;
    var j :| LiveAt(db, j, v) && db.tokens[j].tokenString == s;
    assert i == j;
  }

  /**
   After a replacement the new token is the user's, the user's old one is nobody's, and every other string
   validates as before. That the new token differs from all older ones, the unique index sees to.
   */
  lemma RegenerateReplacesToken(db: Db, h: Hash, u: nat, token: string, s: string)
    requires Injective(h) && Good(db, h) && u in db.users
    requires Apply(db, h, Regenerate(u, Some(token))).Ok?
    ensures var db' := Apply(db, h, Regenerate(u, Some(token))).db;
            Validate(db', h, s) == if s == token then Some(u)
                                   else if IsLiveToken(db, u, s) then None
                                   else Validate(db, h, s)
    ensures !IsLiveToken(db, u, token)
  {
    var db' := Apply(db, h, Regenerate(u, Some(token))).db;
    RegenerateKeepsGoodIffUserExists(db, h, u, Some(token));
    forall v
      ensures Validate(db', h, s) == Some(v) <==> if v == u then s == token else IsLiveToken(db, v, s)
      ensures Validate(db, h, s) == Some(v) <==> IsLiveToken(db, v, s)
    {
      ValidatesExactlyLiveTokens(db', h, v, s);
      ValidatesExactlyLiveTokens(db, h, v, s);
      RegenerateLiveTokens(db, h, u, token, v, s);
      if IsLiveToken(db, u, s) && IsLiveToken(db, v, s) {
        LiveTokenHasOneUser(db, h, u, v, s);
      }
    }
    NewTokenIsNew(db, h, u, token);
  }

  lemma NewTokenIsNew(db: Db, h: Hash, u: nat, token: string)
    requires Apply(db, h, Regenerate(u, Some(token))).Ok?
    ensures !IsLiveToken(db, u, token)
  {
    RegenerateSteps(db, h, u, Some(token));
    var marked := SoftDeleted(db.tokens, u);
    forall i | 0 <= i < |db.tokens|
      ensures db.tokens[i].tokenString != token
    {
      assert marked[i] in marked;
    }
  }
}
