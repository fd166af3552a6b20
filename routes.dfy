/**
 * routes/user.js and routes/feed.js: how the middlewares and handlers are
 * chained. `authCheck` runs before `updateStatus` and before every feed
 * handler; `PUT /user/refresh/:userId` is `verifyRefresh` followed by
 * `generateNewAccessToken`. A middleware that rejects sends its error to
 * the responder and the handler does not run.
 */
module Routes {
  import opened Wrappers
  import opened Crypto
  import opened Http
  import opened Store
  import opened Auth
  import opened UserController
  import opened FeedController

  /** PUT /user/refresh/:userId */
  method Refresh(db: Db, jwt: Jwt, pathUserId: string, refreshToken: Option<string>, now: nat, salt: nat)
    returns (resp: Response<UserBody>)
    modifies db`tokens
    ensures var gate := VerifyRefresh(old(db.tokens), pathUserId, refreshToken, jwt);
      && (gate.Reject? ==> resp == Respond(gate.error) && db.tokens == old(db.tokens))
      && (gate.Pass? && IndexOfToken(old(db.tokens), gate.userId).None? ==>
            resp == ErrorReply(401, Some("Authentication failed")) && db.tokens == old(db.tokens))
      && (gate.Pass? && IndexOfToken(old(db.tokens), gate.userId).Some? ==>
            var refresh := jwt.sign(RefreshClaims(gate.userId, now), RefreshSecret);
            && db.tokens == RehashFirst(old(db.tokens), gate.userId, Hash(refresh, salt))
            && resp == Reply(200, Refreshed(jwt.sign(RefreshClaims(gate.userId, now), AccessSecret),
                                            gate.userId, refresh, 1)))
  {
    var gate := VerifyRefresh(db.tokens, pathUserId, refreshToken, jwt);
    if gate.Reject? {
      resp := Respond(gate.error);
      return;
    }
    resp := GenerateNewAccessToken(db, jwt, gate.userId, now, salt);
  }

  /** PUT /user/updatestatus */
  method UpdateStatusRoute(db: Db, jwt: Jwt, authorization: Option<string>, validated: bool, status: string)
    returns (resp: Response<UserBody>)
    requires db.Valid()
    modifies db`users
    ensures db.Valid()
    ensures var gate := AuthCheck(authorization, jwt);
      && (gate.Reject? ==> resp == Respond(gate.error) && db.users == old(db.users))
      && (gate.Pass? && !validated ==> resp == ErrorReply(401, None) && db.users == old(db.users))
      && (gate.Pass? && validated && IndexOfUser(old(db.users), gate.userId).None? ==>
            resp == ErrorReply(404, Some("User not found")) && db.users == old(db.users))
      && (gate.Pass? && validated && IndexOfUser(old(db.users), gate.userId).Some? ==>
            var i := IndexOfUser(old(db.users), gate.userId).value;
            var u := old(db.users)[i].(status := status);
            && db.users == old(db.users)[i := u]
            && resp == Reply(201, StatusUpdated("Status updated successfully!", u)))
  {
    var gate := AuthCheck(authorization, jwt);
    if gate.Reject? {
      resp := Respond(gate.error);
      return;
    }
    resp := UpdateStatus(db, validated, gate.userId, status);
  }

  /** GET /feed/posts */
  function GetPostsRoute(posts: seq<Post>, jwt: Jwt, authorization: Option<string>, page: Option<int>,
                         driverError: string): (r: Response<FeedBody>)
    ensures AuthCheck(authorization, jwt).Reject? ==> r == Respond(AuthCheck(authorization, jwt).error)
    ensures AuthCheck(authorization, jwt).Pass? ==> r == GetPosts(posts, page, driverError)
  {
    var gate := AuthCheck(authorization, jwt);
    if gate.Reject? then Respond(gate.error) else GetPosts(posts, page, driverError)
  }

  /** GET /feed/posts/:postId */
  function GetPostByIdRoute(posts: seq<Post>, jwt: Jwt, authorization: Option<string>, bucket: string, postId: string)
    : (r: Response<FeedBody>)
    ensures AuthCheck(authorization, jwt).Reject? ==> r == Respond(AuthCheck(authorization, jwt).error)
    ensures AuthCheck(authorization, jwt).Pass? ==> r == GetPostById(posts, bucket, postId)
  {
    var gate := AuthCheck(authorization, jwt);
    if gate.Reject? then Respond(gate.error) else GetPostById(posts, bucket, postId)
  }

  /** POST /feed/post */
  method CreatePostRoute(db: Db, jwt: Jwt, authorization: Option<string>, validated: bool, file: Option<Upload>,
                         title: string, content: string, key: string, newPostId: string)
    returns (resp: Response<FeedBody>)
    requires db.Valid()
    requires IndexOfPost(db.posts, newPostId).None?
    modifies db`posts, db`users, db`blobs, db`events
    ensures db.Valid()
    ensures AuthCheck(authorization, jwt).Reject? ==> resp == Respond(AuthCheck(authorization, jwt).error) && unchanged(db)
    ensures var gate := AuthCheck(authorization, jwt);
      gate.Pass? && CreatePostPrecheck(validated, gate.userId, file).None?
      && IndexOfUser(old(db.users), gate.userId).Some? ==>
        && resp.status == 201
        && |db.events| == |old(db.events)| + 1 && db.events[..|old(db.events)|] == old(db.events)
        && db.events[|old(db.events)|].Created?
        && db.posts == old(db.posts) + [Post(newPostId, title, content, key, gate.userId)]
  {
    var gate := AuthCheck(authorization, jwt);
    if gate.Reject? {
      resp := Respond(gate.error);
      return;
    }
    resp := CreatePost(db, validated, gate.userId, file, title, content, key, newPostId);
  }

  /** PUT /feed/post/:postId */
  method UpdatePostRoute(db: Db, jwt: Jwt, authorization: Option<string>, postId: string, file: Option<Upload>,
                         key: string, title: string, content: string)
    returns (resp: Response<FeedBody>)
    requires db.Valid()
    requires file.Some? ==> key != ""
    modifies db`posts, db`blobs, db`events
    ensures db.Valid()
    ensures old(db.blobs) <= db.blobs
    ensures AuthCheck(authorization, jwt).Reject? ==> resp == Respond(AuthCheck(authorization, jwt).error) && unchanged(db)
    ensures AuthCheck(authorization, jwt).Pass? && IndexOfPost(old(db.posts), postId).Some?
      && old(db.posts)[IndexOfPost(old(db.posts), postId).value].creator != AuthCheck(authorization, jwt).userId
      ==> resp.ErrorReply? && resp.status != 200 && unchanged(db)
  {
    var gate := AuthCheck(authorization, jwt);
    if gate.Reject? {
      resp := Respond(gate.error);
      return;
    }
    resp := UpdatePost(db, gate.userId, postId, file, key, title, content);
  }

  /** DELETE /feed/post/:postId */
  method DeletePostRoute(db: Db, jwt: Jwt, authorization: Option<string>, postId: string)
    returns (resp: Response<FeedBody>)
    requires db.Valid()
    modifies db`posts, db`blobs, db`events
    ensures db.Valid()
    ensures AuthCheck(authorization, jwt).Reject? ==> resp == Respond(AuthCheck(authorization, jwt).error) && unchanged(db)
    ensures AuthCheck(authorization, jwt).Pass? && IndexOfPost(old(db.posts), postId).Some?
      && old(db.posts)[IndexOfPost(old(db.posts), postId).value].creator != AuthCheck(authorization, jwt).userId
      ==> resp == ErrorReply(401, Some("Not Authorised")) && unchanged(db)
  {
    var gate := AuthCheck(authorization, jwt);
    if gate.Reject? {
      resp := Respond(gate.error);
      return;
    }
    resp := DeletePost(db, gate.userId, postId);
  }
}
