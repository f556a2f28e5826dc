/** app/auth/auth_service.py: registration, login-token issue, token
    verification and session resolution.
    Each operation is a method that updates the database step by step and is
    proved equal to a function from the tables before to its result and the
    tables after; the lemmas relate several calls. The clock is the `now`
    parameter (seconds), the random ids are parameters assumed fresh, and the
    outcome of sending the login email is the `emailSent` parameter. */
module AuthService {
  import opened Results
  import opened Uuids
  import opened Models
  import opened Database

  /** The login email handed to the transport: its recipient and the token
      its link carries. */
  datatype LoginLink = LoginLink(email: string, token: string)

  /** A successful verification: the redirect target and the value of the
      http-only `session` cookie. */
  datatype Verified = Verified(redirect: string, sessionCookie: string)

  /** The from_url that GET /auth/token uses when the query has none. */
  function DefaultFromUrl(frontendUrl: string): (url: string)
    ensures |url| == |frontendUrl| + 14
    ensures url[..|frontendUrl|] == frontendUrl && url[|frontendUrl|..] == "/v1/auth/login"
  {
    frontendUrl + "/v1/auth/login"
  }

  // ---------------------------------------------------------------- register

  /** register_user: a new user with the default account type "user"; the
      commit fails when the email is already a user's primary key. */
  function RegisterUserSpec(t: Tables, username: string, email: string, userId: Uuid): (out: Step<()>)
    requires Consistent(t)
    ensures Consistent(out.after)
    ensures email in t.users ==> out == Step(Err(IntegrityError), t)
    ensures email !in t.users ==> out.result == Ok(())
    ensures out.result.Ok? ==>
      && out.after == t.(users := out.after.users)
      && out.after.users.Keys == t.users.Keys + {email}
      && out.after.users[email] == User(email, userId, username, "user")
      && (forall e | e in t.users :: out.after.users[e] == t.users[e])
  {
    if email in t.users then Step(Err(IntegrityError), t)
    else Step(Ok(()), t.(users := t.users[email := NewUser(email, username, userId)]))
  }

  method RegisterUser(db: Db, username: string, email: string, userId: Uuid) returns (r: Result<()>)
    requires db.Valid()
    modifies db
    ensures db.Valid()
    ensures Step(r, db.Snapshot()) == RegisterUserSpec(old(db.Snapshot()), username, email, userId)
  {
    if email in db.users {
      // The INSERT repeats a primary key: commit raises and nothing is stored.
      return Err(IntegrityError);
    }
    var ok := db.Commit(db.Snapshot().(users := db.users[email := NewUser(email, username, userId)]));
    assert ok;
    r := Ok(());
  }

  // ------------------------------------------------------------------- login

  /** login_user: 404 for an unknown email; otherwise exactly one new login
      token for that user, valid for one hour, stored before the email is
      sent, so a failed send still leaves it in place. */
  function LoginUserSpec(t: Tables, email: string, tokenId: string, now: int, emailSent: bool): (out: Step<LoginLink>)
    requires Consistent(t) && tokenId !in t.loginSessions
    ensures Consistent(out.after)
    ensures email !in t.users ==> out == Step(Err(UserNotFound), t)
    ensures email in t.users ==>
      && out.after == t.(loginSessions := out.after.loginSessions)
      && out.after.loginSessions.Keys == t.loginSessions.Keys + {tokenId}
      && (forall k | k in t.loginSessions :: out.after.loginSessions[k] == t.loginSessions[k])
      && out.after.loginSessions[tokenId].userEmail == email
      && (forall later: int :: Expired(out.after.loginSessions[tokenId].expiresAt, later) <==> later > now + 3_600)
      && out.result == if emailSent then Ok(LoginLink(email, tokenId)) else Err(DeliveryError)
  {
    if email !in t.users then Step(Err(UserNotFound), t)
    else
      var token := NewLoginSession(tokenId, t.users[email].email, now);
      var after := t.(loginSessions := t.loginSessions[tokenId := token]);
      Step(if emailSent then Ok(LoginLink(email, token.id)) else Err(DeliveryError), after)
  }

  method LoginUser(db: Db, email: string, tokenId: string, now: int, emailSent: bool) returns (r: Result<LoginLink>)
    requires db.Valid() && tokenId !in db.loginSessions
    modifies db
    ensures db.Valid()
    ensures Step(r, db.Snapshot()) == LoginUserSpec(old(db.Snapshot()), email, tokenId, now, emailSent)
  {
    if email !in db.users {
      return Err(UserNotFound);
    }
    var user := db.users[email];
    var token := NewLoginSession(tokenId, user.email, now);
    var ok := db.Commit(db.Snapshot().(loginSessions := db.loginSessions[tokenId := token]));
    assert ok;
    // The email goes out only after the commit.
    if !emailSent {
      return Err(DeliveryError);
    }
    r := Ok(LoginLink(email, token.id));
  }

  // ------------------------------------------------------------ verify token

  /** verify_login_token: 404 for an unknown token; 401 for an expired one,
      which is deleted first; 401 when its user is gone; otherwise one new
      30-day session for the token's owner. The login token is kept. */
  function VerifyLoginTokenSpec(t: Tables, token: string, fromUrl: string, now: int, sessionId: string): (out: Step<Verified>)
    requires Consistent(t) && sessionId !in t.authSessions
    ensures Consistent(out.after)
    ensures token !in t.loginSessions ==> out == Step(Err(TokenNotFound), t)
    ensures token in t.loginSessions && Expired(t.loginSessions[token].expiresAt, now) ==>
      out == Step(Err(TokenExpired), t.(loginSessions := t.loginSessions - {token}))
    ensures token in t.loginSessions && !Expired(t.loginSessions[token].expiresAt, now)
            && t.loginSessions[token].userEmail !in t.users ==>
      out == Step(Err(InvalidLoginSession), t)
    ensures out.result.Ok? <==>
      token in t.loginSessions && !Expired(t.loginSessions[token].expiresAt, now)
      && t.loginSessions[token].userEmail in t.users
    ensures out.result.Ok? ==>
      && out.result.value == Verified(fromUrl, sessionId)
      && out.after == t.(authSessions := out.after.authSessions)
      && out.after.authSessions.Keys == t.authSessions.Keys + {sessionId}
      && (forall k | k in t.authSessions :: out.after.authSessions[k] == t.authSessions[k])
      && out.after.authSessions[sessionId].userEmail == t.loginSessions[token].userEmail
      && (forall later: int :: Expired(out.after.authSessions[sessionId].expiresAt, later) <==> later > now + 2_592_000)
  {
    if token !in t.loginSessions then Step(Err(TokenNotFound), t)
    else
      var login := t.loginSessions[token];
      if Expired(login.expiresAt, now) then
        Step(Err(TokenExpired), t.(loginSessions := t.loginSessions - {token}))
      else if login.userEmail !in t.users then Step(Err(InvalidLoginSession), t)
      else
        var session := NewAuthSession(sessionId, t.users[login.userEmail].email, now);
        Step(Ok(Verified(fromUrl, session.id)), t.(authSessions := t.authSessions[sessionId := session]))
  }

  method VerifyLoginToken(db: Db, token: string, fromUrl: string, now: int, sessionId: string) returns (r: Result<Verified>)
    requires db.Valid() && sessionId !in db.authSessions
    modifies db
    ensures db.Valid()
    ensures Step(r, db.Snapshot()) == VerifyLoginTokenSpec(old(db.Snapshot()), token, fromUrl, now, sessionId)
  {
    if token !in db.loginSessions {
      return Err(TokenNotFound);
    }
    var login := db.loginSessions[token];
    if Expired(login.expiresAt, now) {
      var ok := db.Commit(db.Snapshot().(loginSessions := db.loginSessions - {token}));
      assert ok;
      return Err(TokenExpired);
    }
    if login.userEmail !in db.users {
      return Err(InvalidLoginSession);
    }
    var user := db.users[login.userEmail];
    var session := NewAuthSession(sessionId, user.email, now);
    var ok := db.Commit(db.Snapshot().(authSessions := db.authSessions[sessionId := session]));
    assert ok;
    r := Ok(Verified(fromUrl, session.id));
  }

  // ------------------------------------------------------- resolve a session

  /** True when the cookie is absent: None, or the empty string, which
      Python also treats as false. */
  predicate MissingCookie(session: Option<string>) {
    session.None? || session.value == ""
  }

  /** get_current_user: 401 for a missing or unknown cookie; 401 for an
      expired session, which is deleted first; 401 when its user is gone;
      otherwise the owner, with every table left as it was. */
  function GetCurrentUserSpec(t: Tables, session: Option<string>, now: int): (out: Step<User>)
    requires Consistent(t)
    ensures Consistent(out.after)
    ensures out.result.Err? ==> out.result.error.HttpError? && out.result.error.status == 401
    ensures MissingCookie(session) ==> out == Step(Err(InvalidSession), t)
    ensures !MissingCookie(session) && session.value !in t.authSessions ==> out == Step(Err(InvalidSession), t)
    ensures !MissingCookie(session) && session.value in t.authSessions
            && Expired(t.authSessions[session.value].expiresAt, now) ==>
      out == Step(Err(SessionExpired), t.(authSessions := t.authSessions - {session.value}))
    ensures out.result.Ok? <==>
      !MissingCookie(session) && session.value in t.authSessions
      && !Expired(t.authSessions[session.value].expiresAt, now)
      && t.authSessions[session.value].userEmail in t.users
    ensures out.result.Ok? ==> out.result.value == t.users[t.authSessions[session.value].userEmail]
    ensures out.result != Err(SessionExpired) ==> out.after == t
  {
    if MissingCookie(session) then Step(Err(InvalidSession), t)
    else if session.value !in t.authSessions then Step(Err(InvalidSession), t)
    else
      var auth := t.authSessions[session.value];
      if Expired(auth.expiresAt, now) then
        Step(Err(SessionExpired), t.(authSessions := t.authSessions - {session.value}))
      else if auth.userEmail !in t.users then Step(Err(InvalidSession), t)
      else Step(Ok(t.users[auth.userEmail]), t)
  }

  method GetCurrentUser(db: Db, session: Option<string>, now: int) returns (r: Result<User>)
    requires db.Valid()
    modifies db
    ensures db.Valid()
    ensures Step(r, db.Snapshot()) == GetCurrentUserSpec(old(db.Snapshot()), session, now)
  {
    if MissingCookie(session) {
      return Err(InvalidSession);
    }
    if session.value !in db.authSessions {
      return Err(InvalidSession);
    }
    var auth := db.authSessions[session.value];
    if Expired(auth.expiresAt, now) {
      var ok := db.Commit(db.Snapshot().(authSessions := db.authSessions - {session.value}));
      assert ok;
      return Err(SessionExpired);
    }
    if auth.userEmail !in db.users {
      return Err(InvalidSession);
    }
    r := Ok(db.users[auth.userEmail]);
  }

  // ------------------------------------------------- properties across calls

  /** The login token survives a successful verification, so presenting it
      again at any time it has not yet expired, earlier or later than the
      first, succeeds again with a second session. */
  lemma VerifyTwiceSucceeds(t: Tables, token: string, fromUrl: string, now: int, sessionId: string,
                            again: int, secondUrl: string, secondId: string)
    requires Consistent(t) && sessionId !in t.authSessions
    requires VerifyLoginTokenSpec(t, token, fromUrl, now, sessionId).result.Ok?
    requires secondId !in VerifyLoginTokenSpec(t, token, fromUrl, now, sessionId).after.authSessions
    requires !Expired(t.loginSessions[token].expiresAt, again)
    ensures VerifyLoginTokenSpec(VerifyLoginTokenSpec(t, token, fromUrl, now, sessionId).after,
                                 token, secondUrl, again, secondId).result
            == Ok(Verified(secondUrl, secondId))
  {
  }

  /** An expired token is gone after it is presented: presenting it again
      fails with 404 and changes nothing. */
  lemma ExpiredTokenIsPurged(t: Tables, token: string, fromUrl: string, now: int, sessionId: string,
                             again: int, secondUrl: string, secondId: string)
    requires Consistent(t) && sessionId !in t.authSessions
    requires token in t.loginSessions && Expired(t.loginSessions[token].expiresAt, now)
    requires secondId !in t.authSessions
    ensures var first := VerifyLoginTokenSpec(t, token, fromUrl, now, sessionId);
      && first.result == Err(TokenExpired)
      && token !in first.after.loginSessions
      && VerifyLoginTokenSpec(first.after, token, secondUrl, again, secondId) == Step(Err(TokenNotFound), first.after)
  {
  }

  /** An expired session is gone after it is presented: presenting it again
      fails with 401 through the unknown-session branch and changes nothing. */
  lemma ExpiredSessionIsPurged(t: Tables, session: string, now: int, again: int)
    requires Consistent(t) && session != ""
    requires session in t.authSessions && Expired(t.authSessions[session].expiresAt, now)
    ensures var first := GetCurrentUserSpec(t, Some(session), now);
      && first.result == Err(SessionExpired)
      && session !in first.after.authSessions
      && GetCurrentUserSpec(first.after, Some(session), again) == Step(Err(InvalidSession), first.after)
  {
  }

  /** Resolving a valid session changes nothing, so resolving it again at
      any time the session has not yet expired gives the same user and
      again changes nothing. */
  lemma ResolveIsIdempotent(t: Tables, session: Option<string>, now: int, again: int)
    requires Consistent(t)
    requires GetCurrentUserSpec(t, session, now).result.Ok?
    requires !Expired(t.authSessions[session.value].expiresAt, again)
    ensures GetCurrentUserSpec(GetCurrentUserSpec(t, session, now).after, session, again)
            == GetCurrentUserSpec(t, session, now)
  {
  }

  /** The whole flow: register, log in, follow the link within the hour, and
      present the cookie within 30 days; the cookie resolves to the newly
      registered user, and the redirect is the from_url unchanged. */
  lemma RegisterLoginVerifyResolve(
    t: Tables, username: string, email: string, userId: Uuid,
    tokenId: string, loginAt: int, fromUrl: string, verifyAt: int, sessionId: string, requestAt: int)
    requires Consistent(t) && email !in t.users
    requires tokenId !in t.loginSessions && sessionId !in t.authSessions && sessionId != ""
    requires verifyAt <= loginAt + 3_600 && requestAt <= verifyAt + 2_592_000
    ensures
      var registered := RegisterUserSpec(t, username, email, userId);
      var loggedIn := LoginUserSpec(registered.after, email, tokenId, loginAt, true);
      var verified := VerifyLoginTokenSpec(loggedIn.after, tokenId, fromUrl, verifyAt, sessionId);
      var resolved := GetCurrentUserSpec(verified.after, Some(sessionId), requestAt);
      && loggedIn.result == Ok(LoginLink(email, tokenId))
      && verified.result == Ok(Verified(fromUrl, sessionId))
      && resolved.result == Ok(User(email, userId, username, "user"))
  {
    var registered := RegisterUserSpec(t, username, email, userId);
    assert registered.after.users[email] == User(email, userId, username, "user");
    var loggedIn := LoginUserSpec(registered.after, email, tokenId, loginAt, true);
    assert loggedIn.after.users == registered.after.users;
    var verified := VerifyLoginTokenSpec(loggedIn.after, tokenId, fromUrl, verifyAt, sessionId);
    assert !Expired(loggedIn.after.loginSessions[tokenId].expiresAt, verifyAt);
    assert verified.after.users == registered.after.users;
    assert verified.after.authSessions[sessionId].userEmail == email;
    assert !Expired(verified.after.authSessions[sessionId].expiresAt, requestAt);
  }
}
