/**
 * The `/verify-token` handler: the token is the second field of the
 * Authorization header split on single spaces, then one verify call.
 */
module TokenCheck {
  import opened Wrappers
  import opened Js
  import opened Http
  import opened Services

  /** `s.split(' ')`: the fields between single spaces, empty fields kept;
      a string without spaces is one field. */
  function Split(s: string): (fields: seq<string>)
    ensures |fields| >= 1
  {
    if s == [] then [""]
    else if s[0] == ' ' then [""] + Split(s[1..])
    else
      var rest := Split(s[1..]);
      [[s[0]] + rest[0]] + rest[1..]
  }

  /** `fields.join(' ')`. */
  function Join(fields: seq<string>): string
    requires |fields| >= 1
  {
    if |fields| == 1 then fields[0] else fields[0] + " " + Join(fields[1..])
  }

  predicate SpaceFree(s: string) {
    forall i :: 0 <= i < |s| ==> s[i] != ' '
  }

  predicate AllSpaceFree(fields: seq<string>) {
    forall i :: 0 <= i < |fields| ==> SpaceFree(fields[i])
  }

  /** Splitting loses nothing: joining the fields gives the header back. */
  lemma {:induction false} JoinSplit(s: string)
    ensures Join(Split(s)) == s
  {
    if s != [] {
      JoinSplit(s[1..]);
      var rest := Split(s[1..]);
      if s[0] != ' ' {
        if |rest| == 1 {
          assert Split(s) == [[s[0]] + rest[0]];
        } else {
          assert Split(s)[1..] == rest[1..];
        }
      } else {
        assert Split(s)[1..] == rest;
      }
    }
  }

  /** No field contains the separator. */
  lemma {:induction false} SplitFieldsSpaceFree(s: string)
    ensures AllSpaceFree(Split(s))
  {
    if s != [] {
      SplitFieldsSpaceFree(s[1..]);
    }
  }

  /** Fields free of spaces are recovered exactly from their join. */
  lemma {:induction false} SplitJoin(fields: seq<string>)
    requires |fields| >= 1 && AllSpaceFree(fields)
    ensures Split(Join(fields)) == fields
    decreases |fields|, |fields[0]|
  {
    var f := fields[0];
    if f == [] {
      if |fields| > 1 {
        assert Join(fields) == [' '] + Join(fields[1..]);
        SplitJoin(fields[1..]);
        assert ([' '] + Join(fields[1..]))[1..] == Join(fields[1..]);
      }
    } else {
      var fields' := [f[1..]] + fields[1..];
      assert SpaceFree(f[1..]) by {
        forall i | 0 <= i < |f[1..]| ensures f[1..][i] != ' ' { assert f[1..][i] == f[i + 1]; }
      }
      assert AllSpaceFree(fields') by {
        forall i | 0 <= i < |fields'| ensures SpaceFree(fields'[i]) {
          if i > 0 { assert fields'[i] == fields[i]; }
        }
      }
      SplitJoin(fields');
      assert Join(fields) == [f[0]] + Join(fields') by {
        if |fields| == 1 {
          assert f == [f[0]] + f[1..];
        } else {
          assert fields'[1..] == fields[1..];
          assert f == [f[0]] + f[1..];
        }
      }
      assert Join(fields)[1..] == Join(fields');
      assert Join(fields)[0] == f[0] && f[0] != ' ';
      assert [f[0]] + f[1..] == f;
    }
  }

  /** `req.headers.authorization?.split(' ')[1]`: undefined when the header
      is absent or has fewer than two fields. The scheme (`Bearer`) is not
      inspected. */
  function HeaderToken(authorization: Option<string>): Option<string>
  {
    match authorization
    case None => None
    case Some(h) =>
      var fields := Split(h);
      if |fields| >= 2 then Some(fields[1]) else None
  }

  const TokenRequired := "Token is required"
  const InvalidToken := "Invalid token"

  /** The `/verify-token` handler: 400 without a token, 401 when `jwt.verify`
      reports an error, 200 with the decoded `userId` and `email` otherwise. */
  function VerifyToken(authorization: Option<string>, tokens: TokenService, secret: Secret, now: int): (r: Response)
    ensures r.status in {200, 400, 401}
  {
    var token := HeaderToken(authorization);
    if token == None || token == Some("") then
      Reply(400, Obj([Prop("isValid", Bool(false)), Prop("message", Str(TokenRequired))]))
    else
      match tokens.verify(token.value, secret, now)
      case None => Reply(401, Obj([Prop("isValid", Bool(false)), Prop("message", Str(InvalidToken))]))
      case Some(decoded) =>
        Reply(200, Obj([Prop("isValid", Bool(true)),
                        Prop("userId", Lookup(decoded, "userId")),
                        Prop("email", Lookup(decoded, "email"))]))
  }

  /** The token is the second space-separated field, whatever the first
      (the scheme) is: `Bearer t`, `Basic t` and `x t y` all yield `t`. */
  lemma TokenIsSecondField(scheme: string, token: string, rest: seq<string>)
    requires SpaceFree(scheme) && SpaceFree(token) && AllSpaceFree(rest)
    ensures HeaderToken(Some(Join([scheme, token] + rest))) == Some(token)
  {
    var fields := [scheme, token] + rest;
    assert AllSpaceFree(fields) by {
      forall i | 0 <= i < |fields| ensures SpaceFree(fields[i]) {
        if i >= 2 { assert fields[i] == rest[i - 2]; }
      }
    }
    SplitJoin(fields);
    assert Split(Join(fields))[1] == token;
  }

  /** A header without a space (a bare token, no scheme) carries no token. */
  lemma BareHeaderHasNoToken(h: string)
    requires SpaceFree(h)
    ensures HeaderToken(Some(h)) == None
  {
    SplitJoin([h]);
  }

  /** Without a non-empty token the answer is 400 `{isValid: false}` whatever
      the verifier, key and clock: `jwt.verify` is never consulted. */
  lemma MissingTokenIgnoresVerifier(authorization: Option<string>,
                                    t1: TokenService, k1: Secret, n1: int,
                                    t2: TokenService, k2: Secret, n2: int)
    requires HeaderToken(authorization) in {None, Some("")}
    ensures VerifyToken(authorization, t1, k1, n1) == VerifyToken(authorization, t2, k2, n2)
    ensures VerifyToken(authorization, t1, k1, n1).status == 400
    ensures Lookup(VerifyToken(authorization, t1, k1, n1).body.props, "isValid") == Bool(false)
  {
    LookupWireProps([Prop("isValid", Bool(false)), Prop("message", Str(TokenRequired))], "isValid");
  }

  /** The three outcomes: 400 exactly without a token, 401 exactly when the
      verifier rejects it, 200 exactly when it accepts it. */
  lemma VerifyTokenStatus(authorization: Option<string>, tokens: TokenService, secret: Secret, now: int)
    ensures var r := VerifyToken(authorization, tokens, secret, now);
            var token := HeaderToken(authorization);
            && (r.status == 400 <==> token == None || token == Some(""))
            && (r.status == 401 <==> token != None && token != Some("") && tokens.verify(token.value, secret, now) == None)
            && (r.status == 200 <==> token != None && token != Some("") && tokens.verify(token.value, secret, now) != None)
  {
  }

  /** `isValid` is true exactly on 200, and then `userId` and `email` are
      the decoded claims (absent when the claims lack them). */
  lemma VerifyTokenBody(authorization: Option<string>, tokens: TokenService, secret: Secret, now: int)
    ensures var r := VerifyToken(authorization, tokens, secret, now);
            && r.body.Obj?
            && Lookup(r.body.props, "isValid") == Bool(r.status == 200)
            && (r.status == 200 ==>
                  var decoded := tokens.verify(HeaderToken(authorization).value, secret, now).value;
                  && Lookup(r.body.props, "userId") == WireForm(Lookup(decoded, "userId"))
                  && Lookup(r.body.props, "email") == WireForm(Lookup(decoded, "email")))
  {
    var token := HeaderToken(authorization);
    if token == None || token == Some("") {
      LookupWireProps([Prop("isValid", Bool(false)), Prop("message", Str(TokenRequired))], "isValid");
    } else {
      match tokens.verify(token.value, secret, now)
      case None =>
        LookupWireProps([Prop("isValid", Bool(false)), Prop("message", Str(InvalidToken))], "isValid");
      case Some(decoded) =>
        var props := [Prop("isValid", Bool(true)),
                      Prop("userId", Lookup(decoded, "userId")),
                      Prop("email", Lookup(decoded, "email"))];
        assert DistinctKeys(props);
        LookupWireProps(props, "isValid");
        LookupWireProps(props, "userId");
        LookupWireProps(props, "email");
        assert Lookup(props, "email") == Lookup(props[1..], "email") == Lookup(props[2..], "email");
    }
  }

  /** With an unset or empty signing key no token is ever accepted. */
  lemma VerifyTokenFailsClosed(authorization: Option<string>, tokens: TokenService, secret: Secret, now: int)
    requires FailsClosed(tokens)
    requires secret == None || secret == Some("")
    ensures VerifyToken(authorization, tokens, secret, now).status != 200
  {
  }
}
