/** The `/signup` handler. */
module Signup {
  import opened Wrappers
  import opened Js
  import opened Http
  import opened Services
  import opened Users

  /** `req.body`'s three fields; None when absent. */
  datatype SignupBody = SignupBody(name: Option<string>, email: Option<string>, password: Option<string>)

  predicate AllGiven(body: SignupBody) {
    Given(body.name) && Given(body.email) && Given(body.password)
  }

  /** The cost factor passed to `bcrypt.hash`. */
  const SaltRounds := 10

  const EmailTaken := "Email is already registered"
  const Registered201 := "User registered successfully"

  /** What the pg client reports, instead of answering, for the SELECT and
      the INSERT of one request. */
  datatype SignupFaults = SignupFaults(select: Option<DbError>, insert: Option<DbError>)

  /** The `catch` block: a unique violation is a duplicate email, anything
      else a generic server error. */
  function CatchReply(e: DbError): (r: Response)
    ensures r.status == 409 <==> e.code == Some(UniqueViolation)
    ensures r.status != 409 ==> r.status == 500
  {
    if e.code == Some(UniqueViolation) then MessageReply(409, EmailTaken)
    else MessageReply(500, ServerError)
  }

  /** The user object of the 201 reply, built from the returned row's
      `user_id`, `name` and `email` columns. */
  function CreatedUser(row: UserRow, idColumn: string): Js {
    Obj([Prop("id", Column(row, idColumn, "user_id")),
         Prop("name", Column(row, idColumn, "name")),
         Prop("email", Column(row, idColumn, "email"))])
  }

  function CreatedReply(row: UserRow, idColumn: string): Response {
    Reply(201, Obj([Prop("message", Str(Registered201)), Prop("user", CreatedUser(row, idColumn))]))
  }

  /** What the client receives for the user object: the id only when the
      row has a `user_id` column, then the name and the email. */
  function ExpectedUser(row: UserRow, idColumn: string): Js {
    Obj((if idColumn == "user_id" then [Prop("id", Num(row.id))] else [])
        + [Prop("name", Str(row.name)), Prop("email", Str(row.email))])
  }

  lemma CreatedUserWireForm(row: UserRow, idColumn: string)
    requires ValidIdColumn(idColumn)
    ensures WireForm(CreatedUser(row, idColumn)) == ExpectedUser(row, idColumn)
  {
    var u := CreatedUser(row, idColumn);
    RowColumns(row, idColumn);
    var named := [Prop("name", Str(row.name)), Prop("email", Str(row.email))];
    assert WireProps(named) == named by { WirePropsOfWire(named); }
    if idColumn == "user_id" {
      assert u.props == [Prop("id", Num(row.id))] + named;
      WirePropsOfWire(u.props);
    } else {
      AbsentColumn(row, idColumn, "user_id");
      assert u.props == [Prop("id", Undefined)] + named;
      assert u.props[1..] == named;
    }
  }

  /** The 201 reply's user object is exactly the new user's name and email,
      preceded by the id only when the id column is called `user_id`; the
      password hash is never part of it. */
  lemma CreatedReplyShape(row: UserRow, idColumn: string)
    requires ValidIdColumn(idColumn)
    ensures Lookup(CreatedReply(row, idColumn).body.props, "user") == ExpectedUser(row, idColumn)
  {
    var top := [Prop("message", Str(Registered201)), Prop("user", CreatedUser(row, idColumn))];
    LookupWireProps(top, "user");
    assert Lookup(top, "user") == CreatedUser(row, idColumn);
    CreatedUserWireForm(row, idColumn);
  }

  /** The handler. The salt is the randomness `bcrypt.hash` draws; `faults`
      are the failures the pg client reports for this request. */
  method Signup(db: UsersTable, body: SignupBody, crypto: Crypto, salt: Salt, faults: SignupFaults)
    returns (resp: Response)
    requires db.Valid()
    modifies db
    ensures db.Valid()
    ensures !AllGiven(body) ==> resp == MessageReply(400, FieldsRequired)
    ensures AllGiven(body) && faults.select.Some? ==> resp == CatchReply(faults.select.value)
    ensures AllGiven(body) && faults.select.None? && Registered(old(db.rows), body.email.value) ==>
              resp == MessageReply(409, EmailTaken)
    ensures AllGiven(body) && faults.select.None? && !Registered(old(db.rows), body.email.value) ==>
              if faults.insert.Some? then
                resp == CatchReply(faults.insert.value) && db.rows == old(db.rows)
              else
                var row := UserRow(old(db.nextId), body.name.value, body.email.value,
                                   crypto.hash(body.password.value, SaltRounds, salt));
                && db.rows == old(db.rows) + [row]
                && resp == CreatedReply(row, db.idColumn)
    ensures resp.status != 201 ==> db.rows == old(db.rows)
    ensures db.nextId == old(db.nextId) + (if resp.status == 201 then 1 else 0)
  {
    if !AllGiven(body) {
      return MessageReply(400, FieldsRequired);
    }
    if faults.select.Some? {
      return CatchReply(faults.select.value);
    }
    var existing := SelectByEmail(db.rows, body.email.value);
    SelectFindsAtMostOne(db.rows, body.email.value);
    if |existing| > 0 {
      return MessageReply(409, EmailTaken);
    }
    var hashed := crypto.hash(body.password.value, SaltRounds, salt);
    var inserted := db.Insert(body.name.value, body.email.value, hashed, faults.insert);
    if inserted.Failure? {
      return CatchReply(inserted.error);
    }
    resp := CreatedReply(inserted.value, db.idColumn);
  }

  /** Signing up twice with one email: the first request creates the user,
      the second is refused with 409 and the table holds one row for it. */
  method SignupTwice(crypto: Crypto, salt1: Salt, salt2: Salt) returns (first: Response, second: Response, db: UsersTable)
    ensures first.status == 201 && second.status == 409
    ensures |db.rows| == 1 && db.rows[0].email == "a@x.com"
  {
    db := new UsersTable("user_id");
    var body := SignupBody(Some("Ana"), Some("a@x.com"), Some("pw123456"));
    var noFaults := SignupFaults(None, None);
    first := Signup(db, body, crypto, salt1, noFaults);
    assert Registered(db.rows, "a@x.com") by { assert db.rows[0].email == "a@x.com"; }
    second := Signup(db, body, crypto, salt2, noFaults);
  }
}
