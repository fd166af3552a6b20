/**
 * The persisted collections the controllers read and write: MongoDB's
 * User, Token and Post collections, the S3 bucket's key set and the
 * sequence of `post` events emitted on the socket.io channel.
 */
module Store {
  import opened Wrappers
  import opened Crypto

  datatype User = User(id: string, email: string, password: Digest, name: string, status: string, posts: seq<string>)

  /** A Token document: the schema declares no uniqueness, so a user may
      have several. */
  datatype TokenRecord = TokenRecord(userId: string, refreshToken: Digest)

  /** A Post document; `imageUrl` holds the bucket key, `creator` the owner's id. */
  datatype Post = Post(id: string, title: string, content: string, imageUrl: string, creator: string)

  /** The payloads of `io.getIO().emit('post', …)`. */
  datatype Event =
    | Created(post: Post, creatorId: string, creatorName: string)
    | Updated(post: Post)
    | Deleted(postId: string)

  /** The index of the first element satisfying `p`: what `findOne` and
      `findById` return. */
  function FirstIndex<T>(s: seq<T>, p: T -> bool): (r: Option<nat>)
    ensures r.Some? ==> r.value < |s| && p(s[r.value])
    ensures r.Some? ==> forall j :: 0 <= j < r.value ==> !p(s[j])
    ensures r.None? ==> forall j :: 0 <= j < |s| ==> !p(s[j])
  {
    if |s| == 0 then None
    else if p(s[0]) then Some(0)
    else match FirstIndex(s[1..], p)
      case None => None
      case Some(i) => Some(i + 1)
  }

  /** The query filters: `{ email }`, `findById`, `{ userId }`, `findById`. */
  function HasEmail(email: string): User -> bool { (u: User) => u.email == email }
  function HasUserId(id: string): User -> bool { (u: User) => u.id == id }
  function OfUser(userId: string): TokenRecord -> bool { (t: TokenRecord) => t.userId == userId }
  function HasPostId(id: string): Post -> bool { (p: Post) => p.id == id }

  function IndexOfEmail(users: seq<User>, email: string): Option<nat> {
    FirstIndex(users, HasEmail(email))
  }

  function IndexOfUser(users: seq<User>, id: string): Option<nat> {
    FirstIndex(users, HasUserId(id))
  }

  function IndexOfToken(tokens: seq<TokenRecord>, userId: string): Option<nat> {
    FirstIndex(tokens, OfUser(userId))
  }

  function IndexOfPost(posts: seq<Post>, id: string): Option<nat> {
    FirstIndex(posts, HasPostId(id))
  }

  /** The number of token records of one user. */
  function SessionCount(tokens: seq<TokenRecord>, userId: string): (n: nat)
    ensures n <= |tokens|
    ensures n == 0 <==> IndexOfToken(tokens, userId).None?
  {
    if |tokens| == 0 then 0
    else (if tokens[0].userId == userId then 1 else 0) + SessionCount(tokens[1..], userId)
  }

  lemma {:induction false} SessionCountAppend(tokens: seq<TokenRecord>, t: TokenRecord, userId: string)
    ensures SessionCount(tokens + [t], userId)
         == SessionCount(tokens, userId) + (if t.userId == userId then 1 else 0)
  {
    SessionCountConcat(tokens, [t], userId);
  }

  /** `storedData.refreshToken = h; storedData.save()` on the first record
      of `userId`: only that record changes, and only its hash. */
  function RehashFirst(tokens: seq<TokenRecord>, userId: string, h: Digest): (r: seq<TokenRecord>)
    requires IndexOfToken(tokens, userId).Some?
    ensures |r| == |tokens|
    ensures var i := IndexOfToken(tokens, userId).value;
      && r[i] == TokenRecord(userId, h)
      && forall j :: 0 <= j < |r| && j != i ==> r[j] == tokens[j]
    ensures IndexOfToken(r, userId) == IndexOfToken(tokens, userId)
  {
    var i := IndexOfToken(tokens, userId).value;
    var r := tokens[i := tokens[i].(refreshToken := h)];
    assert OfUser(userId)(r[i]);
    assert forall j :: 0 <= j < i ==> r[j] == tokens[j];
    r
  }

  /** `findOneAndDelete({userId})`: the first record of `userId` leaves the
      store, the others keep their order. */
  function RemoveFirst(tokens: seq<TokenRecord>, userId: string): (r: seq<TokenRecord>)
    requires IndexOfToken(tokens, userId).Some?
    ensures |r| == |tokens| - 1
    ensures var i := IndexOfToken(tokens, userId).value;
      && (forall j :: 0 <= j < i ==> r[j] == tokens[j])
      && (forall j :: i <= j < |r| ==> r[j] == tokens[j + 1])
  {
    var i := IndexOfToken(tokens, userId).value;
    tokens[..i] + tokens[i + 1..]
  }

  lemma {:induction false} SessionCountConcat(a: seq<TokenRecord>, b: seq<TokenRecord>, userId: string)
    ensures SessionCount(a + b, userId) == SessionCount(a, userId) + SessionCount(b, userId)
  {
    if |a| > 0 {
      assert (a + b)[1..] == a[1..] + b;
      SessionCountConcat(a[1..], b, userId);
    } else {
      assert a + b == b;
    }
  }

  /** Logout ends exactly one session of the user and none of anyone else's. */
  lemma {:induction false} RemoveFirstCounts(tokens: seq<TokenRecord>, userId: string, other: string)
    requires IndexOfToken(tokens, userId).Some?
    ensures SessionCount(RemoveFirst(tokens, userId), userId) == SessionCount(tokens, userId) - 1
    ensures other != userId ==> SessionCount(RemoveFirst(tokens, userId), other) == SessionCount(tokens, other)
  {
    var i := IndexOfToken(tokens, userId).value;
    var r := RemoveFirst(tokens, userId);
    assert r == tokens[..i] + tokens[i + 1..];
    assert tokens == tokens[..i] + ([tokens[i]] + tokens[i + 1..]);
    assert ([tokens[i]] + tokens[i + 1..])[1..] == tokens[i + 1..];
    SessionCountConcat(tokens[..i], [tokens[i]] + tokens[i + 1..], userId);
    SessionCountConcat(tokens[..i], tokens[i + 1..], userId);
    SessionCountConcat(tokens[..i], [tokens[i]] + tokens[i + 1..], other);
    SessionCountConcat(tokens[..i], tokens[i + 1..], other);
  }

  ghost predicate UniqueUsers(users: seq<User>) {
    forall i, j :: 0 <= i < j < |users| ==> users[i].id != users[j].id && users[i].email != users[j].email
  }

  ghost predicate UniquePosts(posts: seq<Post>) {
    forall i, j :: 0 <= i < j < |posts| ==> posts[i].id != posts[j].id
  }

  /** With unique post ids, `findById` finds the one post that has the id. */
  lemma {:induction false} PostLookupIsExact(posts: seq<Post>, k: nat)
    requires UniquePosts(posts) && k < |posts|
    ensures IndexOfPost(posts, posts[k].id) == Some(k)
  {
    var r := IndexOfPost(posts, posts[k].id);
    assert HasPostId(posts[k].id)(posts[k]);
    assert r.Some? && r.value <= k;
    assert HasPostId(posts[k].id)(posts[r.value]);
  }

  /** With unique users, `findById` and `findOne({ email })` find the one
      user that has the id or the email. */
  lemma {:induction false} UserLookupIsExact(users: seq<User>, k: nat)
    requires UniqueUsers(users) && k < |users|
    ensures IndexOfUser(users, users[k].id) == Some(k)
    ensures IndexOfEmail(users, users[k].email) == Some(k)
  {
    var r := IndexOfUser(users, users[k].id);
    assert HasUserId(users[k].id)(users[k]);
    assert r.Some? && r.value <= k;
    assert HasUserId(users[k].id)(users[r.value]);
    var e := IndexOfEmail(users, users[k].email);
    assert HasEmail(users[k].email)(users[k]);
    assert e.Some? && e.value <= k;
    assert HasEmail(users[k].email)(users[e.value]);
  }

  /** Adding a post whose id is not stored keeps post ids unique. */
  lemma PostAppendKeepsUnique(posts: seq<Post>, p: Post)
    requires UniquePosts(posts) && IndexOfPost(posts, p.id).None?
    ensures UniquePosts(posts + [p])
  {
    forall j | 0 <= j < |posts| ensures posts[j].id != p.id {
      assert !HasPostId(p.id)(posts[j]);
    }
  }

  /** Rewriting a post under its own id keeps post ids unique. */
  lemma PostReplaceKeepsUnique(posts: seq<Post>, i: nat, p: Post)
    requires UniquePosts(posts) && i < |posts| && p.id == posts[i].id
    ensures UniquePosts(posts[i := p])
  {
  }

  /** Removing one post keeps post ids unique. */
  lemma PostRemoveKeepsUnique(posts: seq<Post>, i: nat)
    requires UniquePosts(posts) && i < |posts|
    ensures UniquePosts(posts[..i] + posts[i + 1..])
  {
    var rest := posts[..i] + posts[i + 1..];
    forall k | 0 <= k < |rest| ensures rest[k] == posts[if k < i then k else k + 1] {
    }
  }

  /** Rewriting a user under the same id and email keeps users unique. */
  lemma UserReplaceKeepsUnique(users: seq<User>, i: nat, u: User)
    requires UniqueUsers(users) && i < |users| && u.id == users[i].id && u.email == users[i].email
    ensures UniqueUsers(users[i := u])
  {
  }

  /** The stores, updated in place by the handlers. */
  class Db {
    var users: seq<User>
    var tokens: seq<TokenRecord>
    var posts: seq<Post>
    var blobs: set<string>
    var events: seq<Event>

    /** ObjectIds are unique; signup keeps e-mail addresses unique. */
    ghost predicate Valid()
      reads this
    {
      UniqueUsers(users) && UniquePosts(posts)
    }

    constructor ()
      ensures Valid()
      ensures users == [] && tokens == [] && posts == [] && blobs == {} && events == []
    {
      users, tokens, posts, blobs, events := [], [], [], {}, [];
    }
  }
}
