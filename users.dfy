/**
 * The `users` table behind the pg pool: rows with a serial id, a name, a
 * unique email and a password hash. Only SELECT by email and INSERT are
 * used by the handlers.
 */
module Users {
  import opened Wrappers
  import opened Js

  /** A row of `users`. */
  datatype UserRow = UserRow(id: int, name: string, email: string, password: string)

  /** An error the pg client rejects a query with; `code` is the SQLSTATE
      (`23505` for a unique violation) or absent for a connection failure. */
  datatype DbError = DbError(code: Option<string>)

  const UniqueViolation := "23505"

  /** The row as the client returns it from `SELECT *` or `RETURNING *`: an
      object with one property per column. The id column's name depends on
      the schema, which is not part of this model. */
  function RowObject(row: UserRow, idColumn: string): Js {
    Obj([Prop(idColumn, Num(row.id)), Prop("name", Str(row.name)),
         Prop("email", Str(row.email)), Prop("password", Str(row.password))])
  }

  /** `rows[0][key]` in the handlers. */
  function Column(row: UserRow, idColumn: string, key: string): Js {
    Lookup(RowObject(row, idColumn).props, key)
  }

  /** The id column must not shadow the other three. */
  predicate ValidIdColumn(idColumn: string) {
    idColumn !in {"name", "email", "password"}
  }

  /** Reading the four columns back from a row object. */
  lemma RowColumns(row: UserRow, idColumn: string)
    requires ValidIdColumn(idColumn)
    ensures Column(row, idColumn, idColumn) == Num(row.id)
    ensures Column(row, idColumn, "name") == Str(row.name)
    ensures Column(row, idColumn, "email") == Str(row.email)
    ensures Column(row, idColumn, "password") == Str(row.password)
  {
    var props := RowObject(row, idColumn).props;
    assert idColumn != "name" && idColumn != "email" && idColumn != "password";
    assert props[1..] == [Prop("name", Str(row.name)), Prop("email", Str(row.email)), Prop("password", Str(row.password))];
    assert props[2..] == [Prop("email", Str(row.email)), Prop("password", Str(row.password))];
    assert props[3..] == [Prop("password", Str(row.password))];
    assert Lookup(props, "name") == Lookup(props[1..], "name") == Str(row.name);
    assert Lookup(props, "email") == Lookup(props[1..], "email") == Lookup(props[2..], "email") == Str(row.email);
    assert Lookup(props, "password") == Lookup(props[1..], "password") == Lookup(props[2..], "password")
        == Lookup(props[3..], "password") == Str(row.password);
  }

  /** A key that names none of the columns reads as undefined. */
  lemma AbsentColumn(row: UserRow, idColumn: string, key: string)
    requires key != idColumn && key != "name" && key != "email" && key != "password"
    ensures Column(row, idColumn, key) == Undefined
  {
    LookupAbsent(RowObject(row, idColumn).props, key);
  }

  /** `SELECT * FROM users WHERE email = $1`, in table order. */
  function SelectByEmail(rows: seq<UserRow>, email: string): (r: seq<UserRow>)
    ensures forall x :: x in r <==> x in rows && x.email == email
    ensures |r| <= |rows|
  {
    if rows == [] then []
    else (if rows[0].email == email then [rows[0]] else []) + SelectByEmail(rows[1..], email)
  }

  /** At most one row per email: the table's unique constraint. */
  ghost predicate UniqueEmails(rows: seq<UserRow>) {
    forall i, j :: 0 <= i < j < |rows| ==> rows[i].email != rows[j].email
  }

  predicate Registered(rows: seq<UserRow>, email: string) {
    exists i :: 0 <= i < |rows| && rows[i].email == email
  }

  /** With the constraint in force a SELECT by email finds at most one row,
      and finds one exactly when the email is registered. */
  lemma {:induction false} SelectFindsAtMostOne(rows: seq<UserRow>, email: string)
    requires UniqueEmails(rows)
    ensures |SelectByEmail(rows, email)| <= 1
    ensures |SelectByEmail(rows, email)| == 1 <==> Registered(rows, email)
  {
    if rows != [] {
      assert UniqueEmails(rows[1..]) by {
        forall i, j | 0 <= i < j < |rows[1..]| ensures rows[1..][i].email != rows[1..][j].email {
          assert rows[1..][i] == rows[i + 1] && rows[1..][j] == rows[j + 1];
        }
      }
      SelectFindsAtMostOne(rows[1..], email);
      if rows[0].email == email {
        assert !Registered(rows[1..], email) by {
          forall i | 0 <= i < |rows[1..]| ensures rows[1..][i].email != email {
            assert rows[1..][i] == rows[i + 1];
          }
        }
        assert |SelectByEmail(rows[1..], email)| == 0;
      }
      assert Registered(rows, email) <==> rows[0].email == email || Registered(rows[1..], email) by {
        if Registered(rows[1..], email) {
          var i :| 0 <= i < |rows[1..]| && rows[1..][i].email == email;
          assert rows[i + 1].email == email;
        }
        if Registered(rows, email) && rows[0].email != email {
          var i :| 0 <= i < |rows| && rows[i].email == email;
          assert rows[1..][i - 1].email == email;
        }
      }
    }
  }

  /** A SELECT over two parts of a table is the two SELECTs in order. */
  lemma {:induction false} SelectAppend(a: seq<UserRow>, b: seq<UserRow>, email: string)
    ensures SelectByEmail(a + b, email) == SelectByEmail(a, email) + SelectByEmail(b, email)
  {
    if a == [] {
      assert a + b == b;
    } else {
      assert (a + b)[1..] == a[1..] + b;
      SelectAppend(a[1..], b, email);
    }
  }

  /** An unregistered email selects nothing. */
  lemma SelectUnregistered(rows: seq<UserRow>, email: string)
    requires !Registered(rows, email)
    ensures SelectByEmail(rows, email) == []
  {
  }

  lemma UniqueTail(rows: seq<UserRow>)
    requires rows != [] && UniqueEmails(rows)
    ensures UniqueEmails(rows[1..])
  {
    forall i, j | 0 <= i < j < |rows[1..]| ensures rows[1..][i].email != rows[1..][j].email {
      assert rows[1..][i] == rows[i + 1] && rows[1..][j] == rows[j + 1];
    }
  }

  /** With unique emails, a SELECT by a registered email yields that one row. */
  lemma {:induction false} SelectRegistered(rows: seq<UserRow>, i: int)
    requires UniqueEmails(rows) && 0 <= i < |rows|
    ensures SelectByEmail(rows, rows[i].email) == [rows[i]]
  {
    var e := rows[i].email;
    UniqueTail(rows);
    if i == 0 {
      assert !Registered(rows[1..], e) by {
        forall j | 0 <= j < |rows[1..]| ensures rows[1..][j].email != e {
          assert rows[1..][j] == rows[j + 1];
        }
      }
      SelectUnregistered(rows[1..], e);
    } else {
      assert rows[1..][i - 1] == rows[i];
      SelectRegistered(rows[1..], i - 1);
    }
  }

  /** The table: its rows, the serial sequence for ids and the schema's
      id column. */
  class UsersTable {
    var rows: seq<UserRow>
    var nextId: int
    const idColumn: string

    ghost predicate Valid()
      reads this
    {
      && ValidIdColumn(idColumn)
      && UniqueEmails(rows)
      && (forall i :: 0 <= i < |rows| ==> rows[i].id < nextId)
      && (forall i, j :: 0 <= i < j < |rows| ==> rows[i].id < rows[j].id)
    }

    constructor (idColumn: string)
      requires ValidIdColumn(idColumn)
      ensures Valid() && this.idColumn == idColumn
      ensures rows == [] && nextId == 1
    {
      this.idColumn := idColumn;
      rows := [];
      nextId := 1;
    }

    /** `INSERT INTO users (name, email, password) VALUES (..) RETURNING *`.
        `fault` is a failure the server reports for reasons outside this
        table (a lost connection, or a `23505` raised because a concurrent
        request inserted the same email first). Otherwise the unique
        constraint rejects a registered email with `23505`, and a new email
        gets one new row with the next id. */
    method Insert(name: string, email: string, password: string, fault: Option<DbError>)
      returns (r: Result<UserRow, DbError>)
      requires Valid()
      modifies this
      ensures Valid()
      ensures fault.Some? ==> r == Failure(fault.value)
      ensures fault.None? && Registered(old(rows), email) ==> r == Failure(DbError(Some(UniqueViolation)))
      ensures fault.None? && !Registered(old(rows), email) ==>
                r == Success(UserRow(old(nextId), name, email, password))
      ensures r.Success? ==> rows == old(rows) + [r.value] && nextId == old(nextId) + 1
      ensures r.Failure? ==> rows == old(rows) && nextId == old(nextId)
    {
      if fault.Some? {
        return Failure(fault.value);
      }
      if Registered(rows, email) {
        return Failure(DbError(Some(UniqueViolation)));
      }
      var row := UserRow(nextId, name, email, password);
      rows := rows + [row];
      nextId := nextId + 1;
      r := Success(row);
    }
  }
}
