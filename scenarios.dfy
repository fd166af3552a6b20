/**
 * Two request sequences run against fresh stores, checked from the
 * handlers' contracts alone: the refresh-token rotation round and a
 * post that survives a delete attempt by someone other than its owner.
 */
module Scenarios {
  import opened Wrappers
  import opened Crypto
  import opened Http
  import opened Store
  import opened Auth
  import opened UserController
  import opened FeedController
  import opened Routes
  import opened Sessions

  /** signup → 201, login → 200, refresh with the login's token → 200 and a
      different refresh token, refresh again with the login's token → 401.
      The refresh route here uses the corrected full comparison; as written,
      the replay passes (Sessions.AsWrittenRotationAcceptsPreviousToken). */
  method RotationRound(jwt: Jwt)
    requires Sound(jwt)
  {
    var db := new Db();
    var signedUp := Signup(db, true, "a@b.com", "secret1", "A", "u1", 1);
    assert signedUp.status == 201;
    var u := NewUser("u1", "a@b.com", "secret1", "A", 1);
    assert db.users == [u];
    assert IndexOfEmail(db.users, "a@b.com") == Some(0) by { assert HasEmail("a@b.com")(db.users[0]); }

    var loggedIn := Login(db, jwt, true, "a@b.com", "secret1", 100, 2);
    assert loggedIn.status == 200;
    var t0 := loggedIn.body.refreshToken;
    assert t0 == jwt.sign(LoginClaims(u, 100), RefreshSecret);
    LoginThenRefreshRotates([], u, 100, 101, 2, 3, "Bearer", jwt);

    var refreshed := Refresh(db, jwt, "u1", Some(Join(["Bearer", t0])), 101, 3);
    assert refreshed.status == 200;
    SignInjective(jwt, LoginClaims(u, 100), RefreshClaims("u1", 101), RefreshSecret);
    assert refreshed.body.refreshToken != t0;

    var replayed := Refresh(db, jwt, "u1", Some(Join(["Bearer", t0])), 102, 4);
    assert replayed.status == 401;
  }

  /** A post created by its owner is still there, unchanged, after another
      user's delete request is refused with 401. */
  method DeleteByOtherUser(jwt: Jwt, bucket: string)
    requires Sound(jwt)
  {
    var db := new Db();
    var signedUp := Signup(db, true, "o@b.com", "secret1", "Owner", "owner", 1);
    assert IndexOfUser(db.users, "owner") == Some(0) by { assert HasUserId("owner")(db.users[0]); }
    var key := "2024-01-01T00:00:00.000Z-cat.png";
    var created := CreatePost(db, true, "owner", Some(Upload("image/png", "cat.png")),
                              "Hello world", "Some content", key, "p1");
    assert created.status == 201;
    assert db.posts == [Post("p1", "Hello world", "Some content", key, "owner")];
    assert IndexOfPost(db.posts, "p1") == Some(0) by { assert HasPostId("p1")(db.posts[0]); }
    var before := GetPostById(db.posts, bucket, "p1");
    assert before.status == 200;

    var refused := DeletePost(db, "intruder", "p1");
    assert refused == ErrorReply(401, Some("Not Authorised"));
    var after := GetPostById(db.posts, bucket, "p1");
    assert after == before && key in db.blobs;
  }
}
