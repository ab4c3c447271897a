# Auth and chart-cache handlers of the music app server, in Dafny

This project models the four route handlers of the app's Express server
(`server/index.js`) and proves their outcomes:

- `POST /signup` validates the three fields. It refuses a registered email with
  409, hashes the password with bcrypt and inserts a row. It maps a pg error
  with SQLSTATE `23505` to 409 and any other error to 500. The handler is the
  method `Signup.Signup`. It works on a class `Users.UsersTable` whose `Insert`
  enforces the table's unique email constraint. The invariant `Valid()` (one
  row per email, increasing ids) holds after any sequence of signups.
- `POST /login` is a pure function of the table (`Login.Login`). It reads the
  table and never writes it. An unknown email and a wrong password get the
  identical 401 reply. A match gets the token that `jwt.sign` makes of
  `{userId, email}` for ten days.
- `POST /verify-token` takes the second space-separated field of the
  `Authorization` header (`TokenCheck.HeaderToken`, built on a `split(' ')`
  with its join round trip proved). It makes one `jwt.verify` call.
- `GET /api/music/nepalese` is a cache-aside read (`Music.ChartCache.Nepalese`)
  over a Redis map whose entries expire, in front of the Deezer chart. A hit
  does not fetch. A miss fetches once and maps every track to
  `{id, title, description, image}` (`Tracks`). Only on success does it write
  the list for 3600 s, and it answers exactly what it wrote. Every failure
  answers 500 and leaves the cache as it was.

JavaScript values are the datatype `Js.Js`. A property read throws a
TypeError on `undefined`/`null` (`Js.Member`). `Js.WireForm` is what JSON
serialisation keeps of a value: undefined properties vanish. bcrypt and
jsonwebtoken are function-valued fields of `Services.Crypto` and
`Services.TokenService`. The salt, the clock (`now`), the store's failures and
the upstream answers are parameters.

Two places where the code falls short of what it is evidently meant to do; the model follows the code:

- the `Authorization` header's `Bearer` scheme is not checked: the token is
  the header's second field whatever the scheme
  (`TokenCheck.TokenIsSecondField`);
- both handlers should expose the same user id, but signup answers the row's
  `user_id` column while login signs the row's `id` column. The schema is not
  part of this model, so the id column's name is the parameter `idColumn`.
  `Login.IdSeenByOneHandler` proves that at most one of the two handlers sees
  a defined id, whatever the single id column is called.

## Model

| member | source | states |
|---|---|---|
| `Js.WireFormIsWire` | server/index.js:227 | serialising a defined value leaves nothing undefined in it |
| `Js.WireFormOfWire` | server/index.js:207 | a value parsed from JSON is unchanged by serialising it again |
| `Js.WireFormIdempotent` | server/index.js:204-230 | serialising twice equals serialising once, so the body re-sent from the cache equals the body first sent |
| `Js.LookupWireProps` | server/index.js:161 | a property of a serialised object is the serialised property, and an undefined one stays absent |
| `TokenCheck.Split` | server/index.js:149 | `split(' ')` yields at least one field |
| `TokenCheck.JoinSplit` | server/index.js:149 | joining the fields with single spaces gives the header back |
| `TokenCheck.SplitFieldsSpaceFree` | server/index.js:149 | no field contains a space |
| `TokenCheck.SplitJoin` | server/index.js:149 | space-free fields come back exactly from splitting their join |
| `TokenCheck.TokenIsSecondField` | server/index.js:149 | for any scheme, the extracted token is the second field; the `Bearer` prefix is not checked |
| `TokenCheck.BareHeaderHasNoToken` | server/index.js:149-153 | a header without a space yields no token |
| `TokenCheck.VerifyToken` | server/index.js:148-163 | the handler answers only 200, 400 or 401 |
| `TokenCheck.MissingTokenIgnoresVerifier` | server/index.js:149-153 | an absent or empty token gives 400 `{isValid: false}`, the same reply whatever the verifier, key and clock: verify is not called |
| `TokenCheck.VerifyTokenStatus` | server/index.js:151-161 | 400 exactly without a token; 401 exactly when verify fails; 200 exactly when it succeeds |
| `TokenCheck.VerifyTokenBody` | server/index.js:155-161 | `isValid` is true exactly on 200, and then `userId` and `email` are the decoded claims |
| `TokenCheck.VerifyTokenFailsClosed` | server/index.js:155-157 | with an unset or empty key no token is accepted, given a library that rejects such keys |
| `Users.RowColumns` | server/index.js:68-79 | the row object returned by the pg client reads back the row's id, name, email and password hash |
| `Users.AbsentColumn` | server/index.js:126 | reading a column the row does not have yields undefined |
| `Users.SelectByEmail` | server/index.js:59 | the SELECT returns exactly the rows with the given email |
| `Users.SelectFindsAtMostOne` | server/index.js:59-62 | under the unique constraint a SELECT by email finds at most one row, and finds one exactly when the email is registered |
| `Users.SelectAppend` | server/index.js:115 | a SELECT over a table with rows appended is the SELECT of the old rows followed by the SELECT of the new ones |
| `Users.SelectRegistered` | server/index.js:115-120 | with unique emails, a SELECT by a registered email yields exactly that user's row |
| `Users.UsersTable.Insert` | server/index.js:68-71 | an outside fault is reported unchanged; otherwise a registered email fails with `23505` and a new one appends one row with the next id; the table changes only on success, and one row per email is kept |
| `Signup.CatchReply` | server/index.js:83-93 | the catch block answers 409 exactly for SQLSTATE `23505`, and 500 otherwise |
| `Signup.CreatedUserWireForm` | server/index.js:76-80 | the user object sent is name and email, preceded by the id only when the id column is `user_id` |
| `Signup.CreatedReplyShape` | server/index.js:74-81 | the 201 reply's user object holds exactly the new user's id (when readable), name and email, and never the password hash |
| `Signup.Signup` | server/index.js:44-94 | missing fields give 400 whatever the store does; a SELECT error goes through the catch block; a registered email gives 409 with the table unchanged; an insert fault goes through the catch block (`23505` gives 409) with the table unchanged; otherwise exactly one row with the given name and email and `hash(password)` is appended and 201 is answered; the serial id advances exactly on 201; one row per email always holds |
| `Signup.SignupTwice` | server/index.js:59-81 | signing up twice with one email gives 201 then 409 and leaves one row |
| `Login.Login` | server/index.js:103-144 | the handler answers only 200, 400, 401 or 500 |
| `Login.MissingFieldsIgnoreStore` | server/index.js:110-112 | missing fields give 400, the same reply whatever the table, store faults and libraries |
| `Login.UnknownEmailLikeWrongPassword` | server/index.js:115-138 | an unregistered email and a wrong password give the identical reply, 401 "Invalid credentials" |
| `Login.MatchIssuesToken` | server/index.js:120-135 | a matching password gives 200 with the token signed over the row's claims for ten days, or 500 when signing throws |
| `Login.CompareRejectionIsServerError` | server/index.js:121-143 | a `bcrypt.compare` that rejects for the registered row gives 500 |
| `Login.StoreErrorIsServerError` | server/index.js:140-143 | a failing SELECT gives 500 |
| `Login.SuccessExactly` | server/index.js:110-138 | login answers 200 exactly when both fields are given, the store answers, the email is registered, the password matches its hash and signing succeeds |
| `Login.IdSeenByOneHandler` | server/index.js:126 | the token's `userId` is the row id only when the id column is `id`; signup's `user_id` and login's `id` are never both defined |
| `Login.LoginFailsClosed` | server/index.js:125-129 | with an unset or empty signing key login never answers 200, given a library that rejects such keys |
| `Login.LoginAfterSignup` | server/index.js:120-137 | after the row for a new email is inserted with the password's hash, login with that password issues the token when signing succeeds, and a wrong password gets 401 |
| `Tracks.SummaryOnTheWire` | server/index.js:217-222 | once serialised, a track's summary is an object whose `id` and `title` are the track's, whose `description` is its artist's name and whose `image` is its album's medium cover, each absent when missing, and which has no other property |
| `Tracks.SummarizeAll` | server/index.js:217-222 | `map` succeeds exactly when every track is mappable, and then keeps length and order, element i being the summary of track i |
| `Tracks.MapChartSpec` | server/index.js:217-222 | mapping the chart succeeds exactly when `tracks.data` is an array of mappable tracks, and then maps it element by element in order |
| `Music.SetExThenGet` | server/index.js:202-204 | a GET after `SETEX key 3600 v` yields `v` exactly while fewer than 3600 s have passed, and nothing otherwise; GET of any other key is unaffected |
| `Music.Fetched` | server/index.js:206-222 | a miss has a list to store exactly when the chart arrived and its `tracks.data` is an array of mappable tracks; the list then has one summary per track, in order |
| `Music.ChartCache.Nepalese` | server/index.js:197-236 | a GET error gives 500 with nothing changed; a hit answers the cached value with no fetch; a miss fetches once, and on success writes the list under `deezer_music_data_nepalese` for 3600 s and answers exactly the body it wrote; a failed fetch, mapping or SETEX gives 500 with the cache unchanged |
| `Music.WithinAndAfterTtl` | server/index.js:197-230 | from an empty cache: the first request fetches; a second within the hour gets the same reply without fetching; one after the hour fetches again; two fetches in all |

## Left out

- bcrypt's hashing and constant-time compare are the function fields of `Services.Crypto`. Their salt is a parameter. `compare` may reject (None), which the catch block answers with 500; a rejecting `hash` in signup is not modelled (`hash` is total). `Services.SoundHasher` is an assumption used only by `Login.LoginAfterSignup`: a hash verifies against its password and differs from it.
- jsonwebtoken's signing, signature checking and expiry arithmetic are the function fields of `Services.TokenService`. No lemma relates sign to verify.
- The pg pool and the SQL text: the table is a sequence of rows. A SELECT or INSERT failure is a parameter. The serial sequence advances only on a successful insert, whereas Postgres also consumes an id on a failed one.
- The id column's name: the schema is not part of this model, so it is the parameter `idColumn`.
- Rows have exactly four columns (`idColumn`, `name`, `email`, `password`, see `Users.RowObject`): a table with both an `id` and a `user_id` column, where both handlers would read a defined id, is not expressible.
- Concurrent requests: the signup race shows up only as an insert fault that may carry `23505`.
- Redis client creation, connection events, the connect call, value types other than strings, and the JSON text of cached values: the cache holds parsed values.
- The network `fetch` and `response.json()`: they are the function `deezer`, which may answer None.
- Express setup, cors, the JSON middleware and `listen`.
- All logging, including the logging of the signing secret.
- JavaScript numbers are integers here. Built-in properties (`length`, prototype methods) are not modelled.
- Request fields are strings or absent. The truthiness of other JSON values is not modelled.
- An exception thrown inside the `jwt.verify` callback is not modelled. Decoded claims are an object.
- The order of `SELECT` results: Postgres promises no order without `ORDER BY`; the model returns rows in insertion order, which matters only when several rows share an email, which `Users.UsersTable.Valid` rules out.
- Objects with repeated keys: `Js.Lookup` takes the first occurrence, whereas `JSON.parse` keeps the last. Every object the handlers build has distinct keys (`Js.LookupWireProps` relies on it); the Deezer answer and decoded claims are not otherwise constrained.
- The secret captured at startup (`secretKey`) and `process.env.JWT_SECRET` read at login are one parameter.
