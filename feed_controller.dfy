/**
 * controller/feedController.js: listing, reading, creating, updating and
 * deleting posts. Besides the Post and User collections a handler may touch
 * the bucket's key set (`uploadFile` adds a key, `deleteFile` removes one)
 * and the sequence of `post` events emitted to socket.io clients. Every
 * route runs behind `authCheck`, whose `userId` arrives here as input.
 */
module FeedController {
  import opened Wrappers
  import opened Http
  import opened Store

  /** The JSON bodies of the successful responses. */
  datatype FeedBody =
    | PostsPage(message: string, totalItems: nat, posts: seq<Post>, perPage: nat)
    | PostCreated(message: string, post: Post, creator: User)
    | PostFound(message: string, post: Post)
    | PostUpdated(message: string, post: Post)
    | PostDeleted(message: string, post: Post)

  /** What multer puts in `req.file`, as far as the handlers read it. */
  datatype Upload = Upload(mimetype: string, originalname: string)

  const PerPage: nat := 3

  /** `sort({ createdAt: -1 })`: posts are saved in creation order, so the
      newest comes first when the store is read backwards. */
  function NewestFirst(posts: seq<Post>): (r: seq<Post>)
    ensures |r| == |posts|
    ensures forall k :: 0 <= k < |r| ==> r[k] == posts[|posts| - 1 - k]
  {
    if |posts| == 0 then [] else [posts[|posts| - 1]] + NewestFirst(posts[..|posts| - 1])
  }

  /** `getPosts` with `req.query.page` (absent means page 1). A page below 1
      makes the `skip` negative, which the database driver refuses by
      throwing an error without a status code; `driverError` is its message. */
  function GetPosts(posts: seq<Post>, page: Option<int>, driverError: string): (r: Response<FeedBody>)
    ensures var p := if page.None? then 1 else page.value;
      && (p < 1 ==> r == ErrorReply(500, Some(driverError)))
      && (p >= 1 ==>
            var skip := (p - 1) * PerPage;
            && r.Reply? && r.status == 200 && r.body.PostsPage?
            && r.body.totalItems == |posts| && r.body.perPage == PerPage
            && |r.body.posts| == (if skip >= |posts| then 0 else if |posts| - skip < PerPage then |posts| - skip else PerPage)
            && forall k :: 0 <= k < |r.body.posts| ==> r.body.posts[k] == NewestFirst(posts)[skip + k])
  {
    var p := if page.None? then 1 else page.value;
    if p < 1 then Fail(Failure(None, Some(driverError)), 500)
    else
      var skip := (p - 1) * PerPage;
      var newest := NewestFirst(posts);
      var from := if skip < |newest| then skip else |newest|;
      var to := if skip + PerPage < |newest| then skip + PerPage else |newest|;
      Reply(200, PostsPage("Fetched successfully!", |posts|, newest[from..to], PerPage))
  }

  /** Paging loses nothing: the post at position j of the newest-first order
      is on page j / 3 + 1, at position j % 3. */
  lemma {:induction false} PagesCoverAllPosts(posts: seq<Post>, j: nat, driverError: string)
    requires j < |posts|
    ensures var r := GetPosts(posts, Some(j / PerPage + 1), driverError);
      j % PerPage < |r.body.posts| && r.body.posts[j % PerPage] == NewestFirst(posts)[j]
  {
    assert (j / PerPage) * PerPage + j % PerPage == j;
  }

  /** `getPostById`: the post, with its key turned into a public URL under
      the bucket (not stored back). A missing post fails on reading
      `imageUrl` of null, which the catch turns into 404. */
  function GetPostById(posts: seq<Post>, bucket: string, postId: string): (r: Response<FeedBody>)
    ensures IndexOfPost(posts, postId).None? ==> r == Fail(NullRead("imageUrl"), 404) && r.status == 404
    ensures IndexOfPost(posts, postId).Some? ==>
      var p := posts[IndexOfPost(posts, postId).value];
      && r.Reply? && r.status == 200 && r.body.PostFound?
      && r.body.post.id == postId && r.body.post.title == p.title
      && r.body.post.content == p.content && r.body.post.creator == p.creator
      && r.body.post.imageUrl == bucket + "/" + p.imageUrl
  {
    match IndexOfPost(posts, postId)
    case None => Fail(NullRead("imageUrl"), 404)
    case Some(i) => Reply(200, PostFound("Post found!", posts[i].(imageUrl := bucket + "/" + posts[i].imageUrl)))
  }

  /** In a store whose post ids are unique, every stored post is found by
      its own id, with its key turned into a public URL. */
  lemma {:induction false} GetPostByIdFindsEachPost(posts: seq<Post>, bucket: string, k: nat)
    requires UniquePosts(posts) && k < |posts|
    ensures GetPostById(posts, bucket, posts[k].id)
      == Reply(200, PostFound("Post found!", posts[k].(imageUrl := bucket + "/" + posts[k].imageUrl)))
  {
    PostLookupIsExact(posts, k);
  }

  /** The MIME allow-list, compared exactly (so `image/JPG` passes and
      `image/PNG` does not). */
  predicate AllowedMime(m: string)
    ensures AllowedMime(m) ==> |m| >= 9 && m[..6] == "image/"
    ensures AllowedMime(m) ==> m != "image/PNG" && m != "image/JPEG" && m != "image/gif"
  {
    m == "image/png" || m == "image/jpg" || m == "image/jpeg" || m == "image/JPG"
  }

  /** Every post's key names an object in the bucket. */
  ghost predicate ImagesLive(posts: seq<Post>, blobs: set<string>) {
    forall k :: 0 <= k < |posts| ==> posts[k].imageUrl in blobs
  }

  /** No two posts share a bucket key. */
  ghost predicate DistinctImages(posts: seq<Post>) {
    forall i, j :: 0 <= i < j < |posts| ==> posts[i].imageUrl != posts[j].imageUrl
  }

  /** A new post whose image is stored keeps every image live. */
  lemma ImagesLiveAppend(posts: seq<Post>, blobs: set<string>, p: Post)
    requires ImagesLive(posts, blobs) && p.imageUrl in blobs
    ensures ImagesLive(posts + [p], blobs)
  {
  }

  /** Rewriting a post to a stored image keeps every image live. */
  lemma ImagesLiveReplace(posts: seq<Post>, blobs: set<string>, i: nat, p: Post)
    requires ImagesLive(posts, blobs) && i < |posts| && p.imageUrl in blobs
    ensures ImagesLive(posts[i := p], blobs)
  {
  }

  /** Removing a post and its image keeps the other images live when no
      other post shares that image. */
  lemma ImagesLiveRemove(posts: seq<Post>, blobs: set<string>, i: nat)
    requires ImagesLive(posts, blobs) && DistinctImages(posts) && i < |posts|
    ensures ImagesLive(posts[..i] + posts[i + 1..], blobs - {posts[i].imageUrl})
  {
    var rest := posts[..i] + posts[i + 1..];
    forall k | 0 <= k < |rest| ensures rest[k].imageUrl in blobs - {posts[i].imageUrl} {
      var j := if k < i then k else k + 1;
      assert rest[k] == posts[j];
    }
  }

  /** The failures `createPost` raises before it touches anything, in the
      order it checks: the file's MIME type (a missing file fails on reading
      `mimetype` of undefined), the validation result, the file, the caller. */
  function CreatePostPrecheck(validated: bool, userId: string, file: Option<Upload>): (f: Option<Failure>)
    ensures file.None? ==> f.Some? && !HasStatus(f.value)
    ensures file.Some? && !AllowedMime(file.value.mimetype) ==> f == Some(Throw(422, "Validation failed"))
    ensures file.Some? && AllowedMime(file.value.mimetype) && !validated ==> f == Some(Throw(422, "Validation failed"))
    ensures file.Some? && AllowedMime(file.value.mimetype) && validated ==>
      f == (if userId == "" then Some(Throw(422, "Cannot create post without verifying yourself")) else None)
  {
    if file.None? then Some(Failure(None, Some("Cannot read properties of undefined (reading 'mimetype')")))
    else if !AllowedMime(file.value.mimetype) then Some(Throw(422, "Validation failed"))
    else if !validated then Some(Throw(422, "Validation failed"))
    else if file.None? then Some(Throw(422, "Image not uploaded!"))
    else if userId == "" then Some(Throw(422, "Cannot create post without verifying yourself"))
    else None
  }

  /** `createPost`. `key` is the bucket key `new Date().toISOString() + '-' +
      file.originalname`; `newPostId` the ObjectId of the new post. */
  method CreatePost(db: Db, validated: bool, userId: string, file: Option<Upload>,
                    title: string, content: string, key: string, newPostId: string)
    returns (resp: Response<FeedBody>)
    requires db.Valid()
    requires IndexOfPost(db.posts, newPostId).None?  // the ObjectId mongoose generates is fresh
    modifies db`posts, db`users, db`blobs, db`events
    ensures db.Valid()
    ensures ImagesLive(old(db.posts), old(db.blobs)) ==> ImagesLive(db.posts, db.blobs)
    ensures CreatePostPrecheck(validated, userId, file).Some? ==>
      && resp == Fail(CreatePostPrecheck(validated, userId, file).value, 422) && resp.status == 422
      && unchanged(db)
    ensures CreatePostPrecheck(validated, userId, file).None? && IndexOfUser(old(db.users), userId).None? ==>
      && resp == ErrorReply(404, Some("Invalid authorization!"))
      && db.blobs == old(db.blobs) + {key}
      && db.posts == old(db.posts) && db.users == old(db.users) && db.events == old(db.events)
    ensures CreatePostPrecheck(validated, userId, file).None? && IndexOfUser(old(db.users), userId).Some? ==>
      var i := IndexOfUser(old(db.users), userId).value;
      var owner := old(db.users)[i];
      var post := Post(newPostId, title, content, key, userId);
      var creator := owner.(posts := owner.posts + [newPostId]);
      && db.blobs == old(db.blobs) + {key}
      && db.posts == old(db.posts) + [post]
      && db.users == old(db.users)[i := creator]
      && db.events == old(db.events) + [Created(post, owner.id, owner.name)]
      && resp == Reply(201, PostCreated("Post created!", post, creator))
  {
    var failure := CreatePostPrecheck(validated, userId, file);
    if failure.Some? {
      resp := Fail(failure.value, 422);
      return;
    }
    db.blobs := db.blobs + {key};
    var post := Post(newPostId, title, content, key, userId);
    var found := IndexOfUser(db.users, userId);
    if found.None? {
      resp := Fail(Throw(404, "Invalid authorization!"), 422);
      return;
    }
    var user := db.users[found.value];
    PostAppendKeepsUnique(db.posts, post);
    if ImagesLive(old(db.posts), old(db.blobs)) {
      ImagesLiveAppend(db.posts, db.blobs, post);
    }
    db.posts := db.posts + [post];
    user := user.(posts := user.posts + [post.id]);
    UserReplaceKeepsUnique(db.users, found.value, user);
    db.users := db.users[found.value := user];
    db.events := db.events + [Created(post, user.id, user.name)];
    resp := Reply(201, PostCreated("Post created!", post, user));
  }

  /** `updatePost`. `key` is the bucket key the handler computes when a file
      is given; it begins with the upload's ISO date, so it is never empty.
      The post is read with its creator populated, so a post whose creator
      is not a stored user fails like a missing post. */
  method UpdatePost(db: Db, userId: string, postId: string, file: Option<Upload>,
                    key: string, title: string, content: string)
    returns (resp: Response<FeedBody>)
    requires db.Valid()
    requires file.Some? ==> key != ""
    modifies db`posts, db`blobs, db`events
    ensures db.Valid()
    ensures ImagesLive(old(db.posts), old(db.blobs)) ==> ImagesLive(db.posts, db.blobs)
    ensures old(db.blobs) <= db.blobs
    ensures IndexOfPost(old(db.posts), postId).None? ==>
      resp == Fail(NullRead("creator"), 422) && resp.status == 422 && unchanged(db)
    ensures IndexOfPost(old(db.posts), postId).Some? ==>
      var i := IndexOfPost(old(db.posts), postId).value;
      var old_ := old(db.posts)[i];
      var newUrl := if file.Some? then key else "";
      var replaced := newUrl != "" && newUrl != old_.imageUrl;
      var updated := old_.(title := title, content := content,
                           imageUrl := if newUrl != "" then newUrl else old_.imageUrl);
      && (IndexOfUser(db.users, old_.creator).None? ==>
            resp == Fail(NullRead("_id"), 422) && resp.status == 422 && unchanged(db))
      && (IndexOfUser(db.users, old_.creator).Some? && old_.creator != userId ==>
            resp == ErrorReply(401, Some("Not Authorised")) && unchanged(db))
      && (IndexOfUser(db.users, old_.creator).Some? && old_.creator == userId ==>
            && (replaced && !AllowedMime(file.value.mimetype) ==>
                  resp == ErrorReply(404, Some("Invalid file type")) && unchanged(db))
            && (!(replaced && !AllowedMime(file.value.mimetype)) ==>
                  && db.blobs == old(db.blobs) + (if replaced then {newUrl} else {})
                  && db.posts == old(db.posts)[i := updated]
                  && db.events == old(db.events) + [Updated(updated)]
                  && resp == Reply(200, PostUpdated("Post updated!", updated))))
  {
    var imageUrl := if file.Some? then key else "";
    var found := IndexOfPost(db.posts, postId);
    if found.None? {
      resp := Fail(NullRead("creator"), 422);
      return;
    }
    var i := found.value;
    var post := db.posts[i];
    if IndexOfUser(db.users, post.creator).None? {
      resp := Fail(NullRead("_id"), 422);
      return;
    }
    if post.creator != userId {
      resp := Fail(Throw(401, "Not Authorised"), 422);
      return;
    }
    if imageUrl != "" && imageUrl != post.imageUrl {
      if !AllowedMime(file.value.mimetype) {
        resp := Fail(Throw(404, "Invalid file type"), 422);
        return;
      }
      db.blobs := db.blobs + {imageUrl};
    }
    post := post.(title := title, content := content);
    post := post.(imageUrl := if imageUrl != "" then imageUrl else post.imageUrl);
    PostReplaceKeepsUnique(db.posts, i, post);
    if ImagesLive(old(db.posts), old(db.blobs)) {
      ImagesLiveReplace(db.posts, db.blobs, i, post);
    }
    db.posts := db.posts[i := post];
    assert HasPostId(postId)(db.posts[i]);
    db.events := db.events + [Updated(post)];
    resp := Reply(200, PostUpdated("Post updated!", post));
  }

  /** `deletePost`. The ownership test reads `creator` of the looked-up post
      before the `!resp` test, so a missing post fails there with a
      TypeError (500) and the "Post not found!" branch is never reached. */
  method DeletePost(db: Db, userId: string, postId: string) returns (resp: Response<FeedBody>)
    requires db.Valid()
    modifies db`posts, db`blobs, db`events
    ensures db.Valid()
    ensures ImagesLive(old(db.posts), old(db.blobs)) && DistinctImages(old(db.posts)) ==> ImagesLive(db.posts, db.blobs)
    ensures IndexOfPost(old(db.posts), postId).None? ==>
      resp == Fail(NullRead("creator"), 500) && resp.status == 500 && unchanged(db)
    ensures IndexOfPost(old(db.posts), postId).Some? ==>
      var i := IndexOfPost(old(db.posts), postId).value;
      var post := old(db.posts)[i];
      && (post.creator != userId ==> resp == ErrorReply(401, Some("Not Authorised")) && unchanged(db))
      && (post.creator == userId ==>
            && db.blobs == old(db.blobs) - {post.imageUrl}
            && db.posts == old(db.posts)[..i] + old(db.posts)[i + 1..]
            && db.events == old(db.events) + [Deleted(postId)]
            && resp == Reply(200, PostDeleted("Deleted successfully!", post)))
  {
    var found := IndexOfPost(db.posts, postId);
    if found.None? {
      resp := Fail(NullRead("creator"), 500);
      return;
    }
    var i := found.value;
    var post := db.posts[i];
    if post.creator != userId {
      resp := Fail(Throw(401, "Not Authorised"), 500);
      return;
    }
    PostRemoveKeepsUnique(db.posts, i);
    if ImagesLive(db.posts, db.blobs) && DistinctImages(db.posts) {
      ImagesLiveRemove(db.posts, db.blobs, i);
    }
    db.blobs := db.blobs - {post.imageUrl};
    db.posts := db.posts[..i] + db.posts[i + 1..];
    db.events := db.events + [Deleted(postId)];
    resp := Reply(200, PostDeleted("Deleted successfully!", post));
  }
}
