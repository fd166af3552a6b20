/**
 * controller/userController.js: signup, status read and update, login,
 * refresh-token rotation and logout over the User and Token collections.
 * The express-validator verdict is an input (`validated`); the bodies seen
 * are the values after its sanitisers ran.
 */
module UserController {
  import opened Wrappers
  import opened Crypto
  import opened Http
  import opened Store

  /** The JSON bodies of the successful responses. */
  datatype UserBody =
    | UserCreated(message: string, user: User)
    | StatusOf(status: string)
    | LoggedIn(email: string, userId: string, tokenExpiration: int, token: string, refreshToken: string)
    | StatusUpdated(message: string, user: User)
    | Refreshed(token: string, userId: string, refreshToken: string, tokenExpiration: int)
    | LoggedOut(message: string)

  /** The record `signup` saves. */
  function NewUser(id: string, email: string, password: string, name: string, salt: nat): (u: User)
    ensures u.id == id && u.email == email && u.name == name && u.status == "User" && u.posts == []
    ensures Compare(password, u.password)
  {
    User(id, email, Hash(password, salt), name, "User", [])
  }

  method Signup(db: Db, validated: bool, email: string, password: string, name: string, newId: string, salt: nat)
    returns (resp: Response<UserBody>)
    requires db.Valid()
    requires IndexOfUser(db.users, newId).None?  // the ObjectId mongoose generates is fresh
    modifies db`users
    ensures db.Valid()
    ensures !validated ==> resp == ErrorReply(400, Some("Validation failed!")) && db.users == old(db.users)
    ensures validated && IndexOfEmail(old(db.users), email).Some? ==>
      resp == ErrorReply(401, Some("User already exists")) && db.users == old(db.users)
    ensures validated && IndexOfEmail(old(db.users), email).None? ==>
      var u := NewUser(newId, email, password, name, salt);
      db.users == old(db.users) + [u] && resp == Reply(201, UserCreated("New user created!", u))
  {
    if !validated {
      resp := Fail(Throw(400, "Validation failed!"), 500);
      return;
    }
    var existing := IndexOfEmail(db.users, email);
    if existing.Some? {
      resp := Fail(Throw(401, "User already exists"), 500);
      return;
    }
    var u := NewUser(newId, email, password, name, salt);
    db.users := db.users + [u];
    resp := Reply(201, UserCreated("New user created!", u));
  }

  /** `getStatus`: a read of the User collection. A missing user throws an
      Error without status, which the catch turns into 404. */
  function GetStatus(users: seq<User>, userId: string): (r: Response<UserBody>)
    ensures IndexOfUser(users, userId).None? ==> r == ErrorReply(404, Some("User not found!"))
    ensures IndexOfUser(users, userId).Some? ==>
      r == Reply(200, StatusOf(users[IndexOfUser(users, userId).value].status))
  {
    match IndexOfUser(users, userId)
    case None => Fail(Failure(None, Some("User not found!")), 404)
    case Some(i) => Reply(200, StatusOf(users[i].status))
  }

  /** The access and refresh tokens `login` signs for a user at time `now`. */
  function LoginClaims(u: User, now: nat): (c: Claims)
    ensures c.userId == u.id && c.email == Some(u.email) && c.iat == now
  {
    Claims(u.id, Some(u.email), now)
  }

  method Login(db: Db, jwt: Jwt, validated: bool, email: string, password: string, now: nat, salt: nat)
    returns (resp: Response<UserBody>)
    modifies db`tokens
    ensures !validated ==> resp == ErrorReply(400, Some("Validation failed")) && db.tokens == old(db.tokens)
    ensures validated && IndexOfEmail(db.users, email).None? ==>
      resp == ErrorReply(404, Some("Authentication failed")) && db.tokens == old(db.tokens)
    ensures validated && IndexOfEmail(db.users, email).Some? ==>
      var u := db.users[IndexOfEmail(db.users, email).value];
      var access := jwt.sign(LoginClaims(u, now), AccessSecret);
      var refresh := jwt.sign(LoginClaims(u, now), RefreshSecret);
      && (!Compare(password, u.password) ==>
            resp == ErrorReply(404, Some("Authentication failed")) && db.tokens == old(db.tokens))
      && (Compare(password, u.password) ==>
            && db.tokens == old(db.tokens) + [TokenRecord(u.id, Hash(refresh, salt))]
            && resp == Reply(200, LoggedIn(u.email, u.id, 1, access, refresh)))
  {
    if !validated {
      resp := Fail(Throw(400, "Validation failed"), 500);
      return;
    }
    var found := IndexOfEmail(db.users, email);
    if found.None? {
      resp := Fail(Throw(404, "Authentication failed"), 500);
      return;
    }
    var user := db.users[found.value];
    if !Compare(password, user.password) {
      resp := Fail(Throw(404, "Authentication failed"), 500);
      return;
    }
    var token := jwt.sign(LoginClaims(user, now), AccessSecret);
    var refreshToken := jwt.sign(LoginClaims(user, now), RefreshSecret);
    var hashedToken := Hash(refreshToken, salt);
    db.tokens := db.tokens + [TokenRecord(user.id, hashedToken)];
    resp := Reply(200, LoggedIn(user.email, user.id, 1, token, refreshToken));
  }

  method UpdateStatus(db: Db, validated: bool, userId: string, status: string)
    returns (resp: Response<UserBody>)
    requires db.Valid()
    modifies db`users
    ensures db.Valid()
    ensures !validated ==> resp == ErrorReply(401, None) && db.users == old(db.users)
    ensures validated && IndexOfUser(old(db.users), userId).None? ==>
      resp == ErrorReply(404, Some("User not found")) && db.users == old(db.users)
    ensures validated && IndexOfUser(old(db.users), userId).Some? ==>
      var i := IndexOfUser(old(db.users), userId).value;
      var u := old(db.users)[i].(status := status);
      && db.users == old(db.users)[i := u]
      && resp == Reply(201, StatusUpdated("Status updated successfully!", u))
  {
    if !validated {
      resp := Fail(Failure(Some(401), None), 500);
      return;
    }
    var found := IndexOfUser(db.users, userId);
    if found.None? {
      resp := Fail(Throw(404, "User not found"), 500);
      return;
    }
    var user := db.users[found.value];
    user := user.(status := status);
    db.users := db.users[found.value := user];
    resp := Reply(201, StatusUpdated("Status updated successfully!", user));
  }

  /** After a status update, `getStatus` reads back the new status. */
  lemma {:induction false} StatusReadBack(users: seq<User>, userId: string, status: string)
    requires IndexOfUser(users, userId).Some?
    ensures var i := IndexOfUser(users, userId).value;
      GetStatus(users[i := users[i].(status := status)], userId) == Reply(200, StatusOf(status))
  {
    var i := IndexOfUser(users, userId).value;
    var updated := users[i := users[i].(status := status)];
    assert HasUserId(userId)(updated[i]);
    assert forall j :: 0 <= j < i ==> updated[j] == users[j];
    assert IndexOfUser(updated, userId) == Some(i);
  }

  /** The tokens `generateNewAccessToken` signs: no e-mail claim this time. */
  function RefreshClaims(userId: string, now: nat): (c: Claims)
    ensures c.userId == userId && c.email.None? && c.iat == now
    ensures forall u: User, t: nat :: c != LoginClaims(u, t)
  {
    Claims(userId, None, now)
  }

  /** `generateNewAccessToken`, run with the `req.userId` the refresh
      middleware decoded. Its catch default is 401. */
  method GenerateNewAccessToken(db: Db, jwt: Jwt, userId: string, now: nat, salt: nat)
    returns (resp: Response<UserBody>)
    modifies db`tokens
    ensures IndexOfToken(old(db.tokens), userId).None? ==>
      resp == ErrorReply(401, Some("Authentication failed")) && db.tokens == old(db.tokens)
    ensures IndexOfToken(old(db.tokens), userId).Some? ==>
      var access := jwt.sign(RefreshClaims(userId, now), AccessSecret);
      var refresh := jwt.sign(RefreshClaims(userId, now), RefreshSecret);
      && db.tokens == RehashFirst(old(db.tokens), userId, Hash(refresh, salt))
      && resp == Reply(200, Refreshed(access, userId, refresh, 1))
  {
    var newAccessToken := jwt.sign(RefreshClaims(userId, now), AccessSecret);
    var newRefreshToken := jwt.sign(RefreshClaims(userId, now), RefreshSecret);
    var hashedToken := Hash(newRefreshToken, salt);
    var stored := IndexOfToken(db.tokens, userId);
    if stored.None? {
      resp := Fail(Throw(401, "Authentication failed"), 401);
      return;
    }
    var i := stored.value;
    db.tokens := db.tokens[i := db.tokens[i].(refreshToken := hashedToken)];
    resp := Reply(200, Refreshed(newAccessToken, userId, newRefreshToken, 1));
  }

  /** `logout`: `findOneAndDelete` on the first record of `userId`. */
  method Logout(db: Db, userId: string) returns (resp: Response<UserBody>)
    modifies db`tokens
    ensures IndexOfToken(old(db.tokens), userId).None? ==>
      resp == ErrorReply(500, Some("Something went wrong!")) && db.tokens == old(db.tokens)
    ensures IndexOfToken(old(db.tokens), userId).Some? ==>
      db.tokens == RemoveFirst(old(db.tokens), userId) && resp == Reply(200, LoggedOut("Logged out"))
  {
    var found := IndexOfToken(db.tokens, userId);
    if found.None? {
      resp := Fail(Throw(500, "Something went wrong!"), 500);
      return;
    }
    var i := found.value;
    db.tokens := db.tokens[..i] + db.tokens[i + 1..];
    resp := Reply(200, LoggedOut("Logged out"));
  }
}
