/**
 * The session life cycle across handlers: login stores a hashed refresh
 * token, refresh rotates the first stored record of the user, logout
 * deletes it. Stated over the Token collection and the two middlewares'
 * functions, so that several requests can be chained in one lemma.
 */
module Sessions {
  import opened Wrappers
  import opened Crypto
  import opened Http
  import opened Store
  import opened Auth
  import opened UserController

  /** `<word> <token>` yields `token` from the refresh-token field. */
  lemma {:induction false} BearerField(word: string, token: string)
    requires ' ' !in word && ' ' !in token && token != ""
    ensures Present(Some(Join([word, token])))
    ensures ExtractToken(Join([word, token])) == Some(token)
  {
    ExtractAfterAnyWord(word, token, []);
    assert [word, token] + [] == [word, token];
  }

  /** Once the first record of the user holds the hash of `current`, any
      other token, `previous` among them, is refused with 401. */
  lemma {:induction false} RotationRejectsPreviousToken(tokens: seq<TokenRecord>, userId: string, previous: string, current: string,
                                     salt: nat, word: string, jwt: Jwt)
    requires IndexOfToken(tokens, userId).Some?
    requires previous != current && previous != "" && ' ' !in previous && ' ' !in word
    ensures VerifyRefresh(RehashFirst(tokens, userId, Hash(current, salt)), userId, Some(Join([word, previous])), jwt)
         == Reject(Throw(401, "Invalid token"))
  {
    BearerField(word, previous);
  }

  /** The refresh middleware accepts a genuine refresh token whose hash is the
      first stored record of the path's user, and hands on the identity
      signed into the token, not the path parameter. */
  lemma {:induction false} RefreshPassesStoredToken(tokens: seq<TokenRecord>, pathUserId: string, claims: Claims, salt: nat,
                                 word: string, jwt: Jwt)
    requires Sound(jwt) && ' ' !in word
    requires IndexOfToken(tokens, pathUserId).Some?
    requires tokens[IndexOfToken(tokens, pathUserId).value].refreshToken == Hash(jwt.sign(claims, RefreshSecret), salt)
    ensures VerifyRefresh(tokens, pathUserId, Some(Join([word, jwt.sign(claims, RefreshSecret)])), jwt)
         == Pass(claims.userId)
  {
    var t := jwt.sign(claims, RefreshSecret);
    assert jwt.verify(t, RefreshSecret) == Decoded(claims) && t != "" && ' ' !in t;
    BearerField(word, t);
  }

  lemma {:induction false} FirstIndexOfAppended(tokens: seq<TokenRecord>, extra: seq<TokenRecord>, userId: string)
    requires IndexOfToken(tokens, userId).None?
    requires |extra| > 0 && extra[0].userId == userId
    ensures IndexOfToken(tokens + extra, userId) == Some(|tokens|)
  {
    var all := tokens + extra;
    assert OfUser(userId)(all[|tokens|]);
    assert forall j :: 0 <= j < |tokens| ==> all[j] == tokens[j];
  }

  /** Login, then refresh: the login's refresh token is accepted once, and
      after the rotation only the new one is; the old one gets 401. */
  lemma {:induction false} LoginThenRefreshRotates(tokens: seq<TokenRecord>, u: User, loginTime: nat, refreshTime: nat,
                                s0: nat, s1: nat, word: string, jwt: Jwt)
    requires Sound(jwt) && ' ' !in word
    requires IndexOfToken(tokens, u.id).None?
    ensures IndexOfToken(tokens + [TokenRecord(u.id, Hash(jwt.sign(LoginClaims(u, loginTime), RefreshSecret), s0))], u.id)
         == Some(|tokens|)
    ensures var t0 := jwt.sign(LoginClaims(u, loginTime), RefreshSecret);
      var afterLogin := tokens + [TokenRecord(u.id, Hash(t0, s0))];
      var t1 := jwt.sign(RefreshClaims(u.id, refreshTime), RefreshSecret);
      var afterRefresh := RehashFirst(afterLogin, u.id, Hash(t1, s1));
      && VerifyRefresh(afterLogin, u.id, Some(Join([word, t0])), jwt) == Pass(u.id)
      && VerifyRefresh(afterRefresh, u.id, Some(Join([word, t0])), jwt) == Reject(Throw(401, "Invalid token"))
      && VerifyRefresh(afterRefresh, u.id, Some(Join([word, t1])), jwt) == Pass(u.id)
  {
    var t0 := jwt.sign(LoginClaims(u, loginTime), RefreshSecret);
    var afterLogin := tokens + [TokenRecord(u.id, Hash(t0, s0))];
    var t1 := jwt.sign(RefreshClaims(u.id, refreshTime), RefreshSecret);
    FirstIndexOfAppended(tokens, [TokenRecord(u.id, Hash(t0, s0))], u.id);
    RefreshPassesStoredToken(afterLogin, u.id, LoginClaims(u, loginTime), s0, word, jwt);
    SignInjective(jwt, LoginClaims(u, loginTime), RefreshClaims(u.id, refreshTime), RefreshSecret);
    assert jwt.sign(LoginClaims(u, loginTime), RefreshSecret) != "" && ' ' !in t0;
    RotationRejectsPreviousToken(afterLogin, u.id, t0, t1, s1, word, jwt);
    var afterRefresh := RehashFirst(afterLogin, u.id, Hash(t1, s1));
    RefreshPassesStoredToken(afterRefresh, u.id, RefreshClaims(u.id, refreshTime), s1, word, jwt);
  }

  /** Login appends instead of replacing: after two logins at different
      seconds the user has two sessions, and the second login's refresh token
      can never be refreshed, because the first record is compared. */
  lemma {:induction false} SecondLoginCannotRefresh(tokens: seq<TokenRecord>, u: User, timeA: nat, timeB: nat,
                                 saltA: nat, saltB: nat, word: string, jwt: Jwt)
    requires Sound(jwt) && ' ' !in word
    requires IndexOfToken(tokens, u.id).None?
    requires timeA != timeB
    ensures var tA := jwt.sign(LoginClaims(u, timeA), RefreshSecret);
      var tB := jwt.sign(LoginClaims(u, timeB), RefreshSecret);
      var twoLogins := tokens + [TokenRecord(u.id, Hash(tA, saltA))] + [TokenRecord(u.id, Hash(tB, saltB))];
      && SessionCount(twoLogins, u.id) == 2
      && VerifyRefresh(twoLogins, u.id, Some(Join([word, tB])), jwt) == Reject(Throw(401, "Invalid token"))
  {
    var tA := jwt.sign(LoginClaims(u, timeA), RefreshSecret);
    var tB := jwt.sign(LoginClaims(u, timeB), RefreshSecret);
    var recA := TokenRecord(u.id, Hash(tA, saltA));
    var recB := TokenRecord(u.id, Hash(tB, saltB));
    var twoLogins := tokens + [recA] + [recB];
    assert twoLogins == tokens + [recA, recB];
    FirstIndexOfAppended(tokens, [recA, recB], u.id);
    SessionCountAppend(tokens, recA, u.id);
    SessionCountAppend(tokens + [recA], recB, u.id);
    SignInjective(jwt, LoginClaims(u, timeA), LoginClaims(u, timeB), RefreshSecret);
    assert tB != "" && ' ' !in tB;
    BearerField(word, tB);
  }

  /** As written, the second login's refresh token does pass: the first
      record is compared, but bcryptjs reads only the first 72 characters,
      which the two login tokens of one user share. */
  lemma {:induction false} AsWrittenSecondLoginRefreshes(tokens: seq<TokenRecord>, u: User, timeA: nat, timeB: nat,
                                                        saltA: nat, saltB: nat, word: string, jwt: Jwt)
    requires Sound(jwt) && ' ' !in word
    requires IndexOfToken(tokens, u.id).None?
    requires var tA := jwt.sign(LoginClaims(u, timeA), RefreshSecret);
      var tB := jwt.sign(LoginClaims(u, timeB), RefreshSecret);
      |tA| >= BcryptMaxInput && |tB| >= BcryptMaxInput && tA[..BcryptMaxInput] == tB[..BcryptMaxInput]
    ensures var tA := jwt.sign(LoginClaims(u, timeA), RefreshSecret);
      var tB := jwt.sign(LoginClaims(u, timeB), RefreshSecret);
      var twoLogins := tokens + [TokenRecord(u.id, Hash(tA, saltA))] + [TokenRecord(u.id, Hash(tB, saltB))];
      VerifyRefreshAsWritten(twoLogins, u.id, Some(Join([word, tB])), jwt) == Pass(u.id)
  {
    var tA := jwt.sign(LoginClaims(u, timeA), RefreshSecret);
    var tB := jwt.sign(LoginClaims(u, timeB), RefreshSecret);
    var recA := TokenRecord(u.id, Hash(tA, saltA));
    var recB := TokenRecord(u.id, Hash(tB, saltB));
    var twoLogins := tokens + [recA] + [recB];
    assert twoLogins == tokens + [recA, recB];
    FirstIndexOfAppended(tokens, [recA, recB], u.id);
    assert twoLogins[|tokens|] == recA;
    assert BcryptCompare(tB, recA.refreshToken);
    assert jwt.verify(tB, RefreshSecret) == Decoded(LoginClaims(u, timeB)) && tB != "" && ' ' !in tB;
    BearerField(word, tB);
  }

  /** Logging out of a user's only session leaves nothing to refresh. */
  lemma {:induction false} LogoutEndsOnlySession(tokens: seq<TokenRecord>, userId: string, refreshToken: string, jwt: Jwt)
    requires SessionCount(tokens, userId) == 1
    requires ExtractToken(refreshToken).Some?
    ensures IndexOfToken(tokens, userId).Some?
    ensures VerifyRefresh(RemoveFirst(tokens, userId), userId, Some(refreshToken), jwt)
         == Reject(Throw(401, "Authorization failed!"))
  {
    RemoveFirstCounts(tokens, userId, userId);
  }

  /** As written, the rotation is lost on long tokens: a previous refresh
      token whose first 72 characters equal those of the current one still
      passes the hash check, and so the whole middleware. */
  lemma {:induction false} AsWrittenRotationAcceptsPreviousToken(tokens: seq<TokenRecord>, userId: string, claims: Claims,
                                              current: string, salt: nat, word: string, jwt: Jwt)
    requires Sound(jwt) && ' ' !in word
    requires IndexOfToken(tokens, userId).Some?
    requires var previous := jwt.sign(claims, RefreshSecret);
      |previous| >= BcryptMaxInput && |current| >= BcryptMaxInput
      && previous[..BcryptMaxInput] == current[..BcryptMaxInput] && previous != current
    ensures var previous := jwt.sign(claims, RefreshSecret);
      var rotated := RehashFirst(tokens, userId, Hash(current, salt));
      && VerifyRefreshAsWritten(rotated, userId, Some(Join([word, previous])), jwt) == Pass(claims.userId)
      && VerifyRefresh(rotated, userId, Some(Join([word, previous])), jwt) == Reject(Throw(401, "Invalid token"))
  {
    var previous := jwt.sign(claims, RefreshSecret);
    assert jwt.verify(previous, RefreshSecret) == Decoded(claims) && previous != "" && ' ' !in previous;
    BearerField(word, previous);
    RotationRejectsPreviousToken(tokens, userId, previous, current, salt, word, jwt);
  }
}
