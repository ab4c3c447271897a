/** The `/login` handler: it reads the users table and never writes it. */
module Login {
  import opened Wrappers
  import opened Js
  import opened Http
  import opened Services
  import opened Users

  /** `req.body`'s two fields; None when absent. */
  datatype LoginBody = LoginBody(email: Option<string>, password: Option<string>)

  /** The environment of one request: the two libraries, the signing key
      and the clock. */
  datatype AuthEnv = AuthEnv(crypto: Crypto, tokens: TokenService, secret: Secret, now: int)

  /** `expiresIn: '10d'`, in seconds. */
  const TokenLifetime := 10 * 24 * 60 * 60

  const InvalidCredentials := "Invalid credentials"
  const LoginSuccessful := "Login successful"

  /** The claims signed into the token: `userId` read from the row's `id`
      column and `email` from its `email` column. */
  function Payload(row: UserRow, idColumn: string): Js {
    Obj([Prop("userId", Column(row, idColumn, "id")), Prop("email", Column(row, idColumn, "email"))])
  }

  function TokenReply(token: string): Response {
    Reply(200, Obj([Prop("message", Str(LoginSuccessful)), Prop("token", Str(token))]))
  }

  /** The handler. `fault` is what the pg client reports instead of
      answering the SELECT; the first selected row is the one checked. */
  function Login(body: LoginBody, users: seq<UserRow>, idColumn: string, fault: Option<DbError>, env: AuthEnv): (r: Response)
    ensures r.status in {200, 400, 401, 500}
  {
    if !Given(body.email) || !Given(body.password) then MessageReply(400, FieldsRequired)
    else if fault.Some? then MessageReply(500, ServerError)
    else
      var found := SelectByEmail(users, body.email.value);
      if |found| == 0 then MessageReply(401, InvalidCredentials)
      else
        match env.crypto.compare(body.password.value, found[0].password)
        case None => MessageReply(500, ServerError)
        case Some(false) => MessageReply(401, InvalidCredentials)
        case Some(true) =>
          match env.tokens.sign(Payload(found[0], idColumn), env.secret, TokenLifetime, env.now)
          case None => MessageReply(500, ServerError)
          case Some(token) => TokenReply(token)
  }

  /** Missing fields give 400 before the store is touched: the answer is the
      same whatever the table, the store's health and the libraries. */
  lemma MissingFieldsIgnoreStore(body: LoginBody,
                                 users1: seq<UserRow>, id1: string, fault1: Option<DbError>, env1: AuthEnv,
                                 users2: seq<UserRow>, id2: string, fault2: Option<DbError>, env2: AuthEnv)
    requires !Given(body.email) || !Given(body.password)
    ensures Login(body, users1, id1, fault1, env1) == Login(body, users2, id2, fault2, env2) == MessageReply(400, FieldsRequired)
  {
  }

  /** An unregistered email and a registered one with a wrong password get
      the identical reply: 401 "Invalid credentials". */
  lemma UnknownEmailLikeWrongPassword(body: LoginBody, idColumn: string, env: AuthEnv,
                                      unknown: seq<UserRow>, known: seq<UserRow>, i: int)
    requires Given(body.email) && Given(body.password)
    requires !Registered(unknown, body.email.value)
    requires UniqueEmails(known) && 0 <= i < |known| && known[i].email == body.email.value
    requires env.crypto.compare(body.password.value, known[i].password) == Some(false)
    ensures Login(body, unknown, idColumn, None, env) == Login(body, known, idColumn, None, env)
            == MessageReply(401, InvalidCredentials)
  {
    SelectUnregistered(unknown, body.email.value);
    SelectRegistered(known, i);
  }

  /** A registered email with a matching password gets 200 and the token
      `jwt.sign` makes of the row's claims for ten days; when signing throws
      the reply is 500. */
  lemma MatchIssuesToken(body: LoginBody, users: seq<UserRow>, i: int, idColumn: string, env: AuthEnv)
    requires Given(body.email) && Given(body.password)
    requires UniqueEmails(users) && 0 <= i < |users| && users[i].email == body.email.value
    requires env.crypto.compare(body.password.value, users[i].password) == Some(true)
    ensures var signed := env.tokens.sign(Payload(users[i], idColumn), env.secret, TokenLifetime, env.now);
            Login(body, users, idColumn, None, env)
            == if signed.Some? then TokenReply(signed.value) else MessageReply(500, ServerError)
  {
    SelectRegistered(users, i);
  }

  /** A `bcrypt.compare` that rejects for the registered row gives 500. */
  lemma CompareRejectionIsServerError(body: LoginBody, users: seq<UserRow>, i: int, idColumn: string, env: AuthEnv)
    requires Given(body.email) && Given(body.password)
    requires UniqueEmails(users) && 0 <= i < |users| && users[i].email == body.email.value
    requires env.crypto.compare(body.password.value, users[i].password) == None
    ensures Login(body, users, idColumn, None, env) == MessageReply(500, ServerError)
  {
    SelectRegistered(users, i);
  }

  /** A failing SELECT gives 500 whatever else holds. */
  lemma StoreErrorIsServerError(body: LoginBody, users: seq<UserRow>, idColumn: string, e: DbError, env: AuthEnv)
    requires Given(body.email) && Given(body.password)
    ensures Login(body, users, idColumn, Some(e), env) == MessageReply(500, ServerError)
  {
  }

  /** Login succeeds exactly when both fields are given, the store answers,
      the email is registered, the password matches and signing works. */
  lemma SuccessExactly(body: LoginBody, users: seq<UserRow>, idColumn: string, fault: Option<DbError>, env: AuthEnv)
    requires UniqueEmails(users)
    ensures Login(body, users, idColumn, fault, env).status == 200 <==>
              && Given(body.email) && Given(body.password) && fault.None?
              && exists i :: 0 <= i < |users| && users[i].email == body.email.value
                             && env.crypto.compare(body.password.value, users[i].password) == Some(true)
                             && env.tokens.sign(Payload(users[i], idColumn), env.secret, TokenLifetime, env.now).Some?
  {
    if Given(body.email) && Given(body.password) && fault.None? {
      var found := SelectByEmail(users, body.email.value);
      if |found| > 0 {
        assert found[0] in users;
        var i :| 0 <= i < |users| && users[i] == found[0];
        SelectRegistered(users, i);
        forall j | 0 <= j < |users| && users[j].email == body.email.value ensures users[j] == found[0] {
          SelectRegistered(users, j);
        }
      } else {
        forall j | 0 <= j < |users| ensures users[j].email != body.email.value {
          if users[j].email == body.email.value { SelectRegistered(users, j); }
        }
      }
    }
  }

  /** Whatever the id column is called, the id reaches the token only when
      it is `id`, and then signup's 201 reply (which reads `user_id`) has
      none: at most one of the two handlers sees the user's id. */
  lemma IdSeenByOneHandler(row: UserRow, idColumn: string)
    requires ValidIdColumn(idColumn)
    ensures Lookup(Payload(row, idColumn).props, "userId") == (if idColumn == "id" then Num(row.id) else Undefined)
    ensures Column(row, idColumn, "id") == Undefined || Column(row, idColumn, "user_id") == Undefined
  {
    RowColumns(row, idColumn);
    if idColumn != "id" { AbsentColumn(row, idColumn, "id"); }
    if idColumn != "user_id" { AbsentColumn(row, idColumn, "user_id"); }
  }

  /** With an unset or empty signing key login never succeeds. */
  lemma LoginFailsClosed(body: LoginBody, users: seq<UserRow>, idColumn: string, fault: Option<DbError>, env: AuthEnv)
    requires FailsClosed(env.tokens)
    requires env.secret == None || env.secret == Some("")
    ensures Login(body, users, idColumn, fault, env).status != 200
  {
  }

  /** After a signup inserted the row for a new email with the hash of the
      password, logging in with that password succeeds (given that signing
      works) and a wrong password is refused. */
  lemma LoginAfterSignup(users: seq<UserRow>, row: UserRow, password: string, rounds: int, salt: Salt,
                         idColumn: string, env: AuthEnv, other: string)
    requires SoundHasher(env.crypto)
    requires !Registered(users, row.email) && row.email != "" && password != ""
    requires row.password == env.crypto.hash(password, rounds, salt)
    requires env.crypto.compare(other, row.password) == Some(false) && other != ""
    ensures var signed := env.tokens.sign(Payload(row, idColumn), env.secret, TokenLifetime, env.now);
            signed.Some? ==>
              Login(LoginBody(Some(row.email), Some(password)), users + [row], idColumn, None, env) == TokenReply(signed.value)
    ensures Login(LoginBody(Some(row.email), Some(other)), users + [row], idColumn, None, env) == MessageReply(401, InvalidCredentials)
  {
    SelectAppend(users, [row], row.email);
    SelectUnregistered(users, row.email);
    assert SelectByEmail([row], row.email) == [row];
    assert env.crypto.compare(password, row.password) == Some(true);
  }
}
