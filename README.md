# REST feed backend: authentication, refresh-token rotation and post mutations

This project is a Dafny model of the decision logic in a Node/Express social-feed backend. It covers three parts:

- **Account and session handlers** (`controller/userController.js`): signup, status read and update, login, refresh-token rotation and logout. They run over the User collection and the Token collection.
- **Authentication middlewares** (`middleware/auth.js`): `authCheck` and `verifyRefresh`. Both extract the bearer token with `split(' ')[1]`, check it, and hand on the decoded `userId`.
- **Feed handlers** (`controller/feedController.js`): paging, single-post read, create, update and delete. They run over the Post collection, each user's `posts` list, the S3 bucket's key set and the `post` events emitted on the socket.io channel.

How the model is built:

- **Stores.** The stores are the fields of one `Store.Db` object. Each state-changing handler is a method whose `modifies` clause names only the fields it writes. Its `ensures` give the response and the complete new state for every outcome.
- **Read-only handlers** (`getStatus`, `getPosts`, `getPostById`) and the two middlewares are functions.
- **Token collection.** It is a sequence of `(userId, hash)` records, not a map. Login always inserts a new record, the schema (`models/tokens.js`) declares no uniqueness, and `findOne` and `findOneAndDelete` act on the first match.
- **Status codes.** Each handler's catch block sets a default status, and the responder answers with `statusCode || 500` (`app.js:44`). `Http.Caught` and `Http.ResponderStatus` model these two steps. So a `TypeError` from reading a field of a null record ends with the catch default, which is 404, 422 or 500 depending on the handler.
- **Libraries.** bcrypt is `Crypto.Hash` with `Crypto.Compare`. jsonwebtoken is a `Crypto.Jwt` value holding a `sign` and a `verify` function. `verify` returns either the decoded claims or `Refused(message)`, which stands for the library throwing an Error with its own message. The middlewares hand that message on to the client. `Crypto.Sound` is the only assumption about jsonwebtoken: a token verifies to the claims it was signed with, and a token is non-empty and contains no space. It is a premise of the lemmas about genuine tokens (`Crypto.SignInjective`, `Auth.AuthCheckAcceptsSignedToken` and the Sessions lemmas that sign a token) and a precondition of the two client scenarios in `Scenarios`; no handler or middleware requires it.
- **Inputs.** The following come in as inputs:
  - the clock (`iat`, in seconds);
  - the bcrypt salt;
  - the fresh ObjectIds of new users and posts;
  - the bucket key `ISOString + '-' + originalname`;
  - the bucket base URL;
  - the message of the error the database driver throws for a negative `skip` (`driverError`);
  - the express-validator verdict (`validated`). For the feed routes this verdict is the trimmed-length ≥ 5 rule of `app.js:35-36`. The other string inputs are the values after the validators' sanitisers ran.

The code does the following, and the model follows it:

- A user can have several token records.
- Any first word of the `Authorization` header is accepted; it need not be `Bearer`.
- A bad signature gives status 400.
- A failed validation in `updateStatus` gives status 401.
- Every feed route is behind `authCheck`, as in `routes/feed.js`.
- `updatePost` never consults the validation result.
- `deletePost` dereferences the post before testing for its absence. So a missing post gives 500, and the "Post not found!" branch (422) is unreachable.

## Model

| member | source | states |
|---|---|---|
| Crypto.Hash | controller/userController.js:26 | the digest of a password or token is recognised by Compare for that secret and carries the given salt |
| Crypto.CompareIffHashedFrom | controller/userController.js:91 | Compare(p, d) holds exactly when d is the hash of p (with d's salt) |
| Crypto.BcryptInput | middleware/auth.js:69 | bcryptjs reads the first 72 characters of its input (all of it when shorter) |
| Crypto.BcryptCompare | middleware/auth.js:69 | bcryptjs's `bcrypt.compare` reads only the first 72 characters: it accepts every secret the full comparison accepts, and a secret shorter than 72 characters passes only when it is the whole truncated preimage |
| Crypto.BcryptCompareOnShortSecrets | controller/userController.js:91 | for secrets of at most 72 characters the library's truncating comparison equals the full comparison |
| Crypto.BcryptCompareConfusesLongSecrets | middleware/auth.js:69 | two different secrets sharing their first 72 characters are accepted by the truncating comparison and refused by the full one |
| Crypto.SignInjective | controller/userController.js:108-113 | a sound signer gives different claim sets different tokens, so a login token never equals a refresh-issued one |
| Http.NullRead | controller/feedController.js:123 | the TypeError of a field read on null carries no status code |
| Http.Caught | controller/userController.js:39-44 | the catch block keeps a truthy status code and otherwise sets the handler's default, leaving the message alone |
| Http.ResponderStatus | app.js:43-47 | the responder answers with the error's status code when truthy and with 500 when it is absent or 0; the status is never 0 |
| Http.Respond | app.js:43-47 | the response to a failure is an error reply with its message, with its truthy status or else 500 |
| Http.Fail | controller/feedController.js:82-87 | a caught failure ends in its own status when it has one, otherwise in the catch default |
| Store.FirstIndex | controller/userController.js:191 | the query result is the first record matching the filter; None means no record matches |
| Store.SessionCount | models/tokens.js:5-14 | the number of token records of a user is zero exactly when findOne finds none |
| Store.SessionCountConcat | models/tokens.js:5-14 | session counts add up over concatenated token collections |
| Store.SessionCountAppend | controller/userController.js:116-120 | saving a token record raises its user's session count by one and leaves other users' counts alone |
| Store.RehashFirst | controller/userController.js:191-201 | rotation rewrites only the hash of the user's first token record; every other record and the first-match position stay the same |
| Store.RemoveFirst | controller/userController.js:222 | findOneAndDelete removes exactly the first record of the user and keeps the others in order |
| Store.RemoveFirstCounts | controller/userController.js:222-230 | logout lowers the user's session count by exactly one and leaves every other user's count unchanged |
| Store.PostLookupIsExact | controller/feedController.js:121 | in a store with unique post ids, findById on a stored post's id finds exactly that post |
| Store.UserLookupIsExact | controller/userController.js:83 | in a store with unique users, findById and findOne by email on a stored user's id or email find exactly that user |
| Store.Db.constructor | models/tokens.js:5-14 | empty stores satisfy the uniqueness invariant |
| Auth.Fields | middleware/auth.js:15 | split(' ') always yields at least one field |
| Auth.FieldsNoSpace | middleware/auth.js:15 | no field of split(' ') contains a space |
| Auth.JoinFields | middleware/auth.js:15 | joining the fields with single spaces gives back the header |
| Auth.FieldsOfWord | middleware/auth.js:15 | a space-free word is one field, and a space after it starts the next field |
| Auth.FieldsOfJoin | middleware/auth.js:53 | splitting space-joined space-free words gives back the words |
| Auth.ExtractToken | middleware/auth.js:15-21 | an extracted token is non-empty and space-free: field 1 of the split, refused when missing or empty |
| Auth.ExtractAfterAnyWord | middleware/auth.js:15 | any first word followed by a space and a token yields that token; the first word is never checked |
| Auth.ExtractedTokenPosition | middleware/auth.js:53-59 | an extracted token sits right after the first space and runs to the next space or the end |
| Auth.ExtractTokenNeedsTwoFields | middleware/auth.js:16-21 | a header without a space, or with nothing after its only space, gives no token |
| Auth.AuthCheck | middleware/auth.js:5-39 | gives 401 without a header and 401 "Invalid token" without a field-1 token. A token that fails access-secret verification gives 400 with jsonwebtoken's own message. Otherwise it passes on the decoded userId |
| Auth.AuthCheckAcceptsSignedToken | middleware/auth.js:23-32 | a genuine access token after any first word passes and hands on the identity it was signed for |
| Auth.VerifyRefresh | middleware/auth.js:41-93 | gives 401 for a missing body field, a missing token, no record for the path's user or a hash mismatch, with the hash compared before the signature. A failed signature gives 400 with jsonwebtoken's own message. Otherwise it passes on the decoded userId. The hash step uses the full comparison, the corrected behaviour of Findings |
| Auth.VerifyRefreshAsWritten | middleware/auth.js:41-93 | the code as written differs from VerifyRefresh only where the truncating comparison and the full one disagree |
| UserController.NewUser | controller/userController.js:27-32 | the new user has the given email and name, status 'User', no posts, and a password digest that Compare recognises |
| UserController.Signup | controller/userController.js:7-45 | a failed validation gives 400 before any lookup. A taken email gives 401 with users unchanged. Otherwise exactly one user with the hashed password is appended, with response 201 |
| UserController.GetStatus | controller/userController.js:47-67 | returns 200 with the user's status, or 404 for an unknown user |
| UserController.LoginClaims | controller/userController.js:100-113 | the payload login signs carries the user's id, the user's e-mail and the clock's issue time |
| UserController.Login | controller/userController.js:69-135 | unknown email and wrong password give the same 404 "Authentication failed" with no token written. Success appends exactly one record holding the hash of the returned refresh token and keeps every existing record |
| UserController.UpdateStatus | controller/userController.js:137-169 | a failed validation gives 401 and an unknown user 404, both without writes. Otherwise only that user's status changes, with response 201 |
| UserController.StatusReadBack | controller/userController.js:155 | after a status update getStatus returns the new status |
| UserController.RefreshClaims | controller/userController.js:175-187 | the payload a refresh signs carries the user id and no e-mail, so it never equals a login payload |
| UserController.GenerateNewAccessToken | controller/userController.js:171-216 | with no record for the user it gives 401 and writes nothing. Otherwise only the first record's hash is replaced, by the hash of the returned new refresh token |
| UserController.Logout | controller/userController.js:218-241 | removes the user's first token record and answers 200, or answers 500 and changes nothing when there is none |
| FeedController.NewestFirst | controller/feedController.js:13 | the newest-first order is the store read backwards |
| FeedController.GetPosts | controller/feedController.js:8-26 | totalItems is the number of posts and at most 3 posts come back. They are the posts at positions (page-1)*3 onward of the newest-first order, with page defaulting to 1. A non-positive page gives 500 with the driver's message |
| FeedController.PagesCoverAllPosts | controller/feedController.js:10-13 | every post appears on page j/3+1 at position j%3 |
| FeedController.GetPostById | controller/feedController.js:90-106 | returns the post with imageUrl = bucket + '/' + stored key and its other fields as stored, or 404 with the TypeError message of reading `imageUrl` of null for a missing post. It is a function, so no store changes |
| FeedController.GetPostByIdFindsEachPost | controller/feedController.js:90-99 | in a store with unique post ids every stored post is returned by its own id, with the bucket URL in place of its key |
| FeedController.AllowedMime | controller/feedController.js:33-34 | the allow-list is exactly image/png, image/jpg, image/jpeg and image/JPG, compared case-sensitively: every allowed type starts with `image/`, and image/PNG and image/JPEG are refused |
| FeedController.CreatePostPrecheck | controller/feedController.js:33-53 | checks in order the exact MIME allow-list (an absent file is a status-less TypeError), then validation, then userId; every refusal is 422 |
| FeedController.CreatePost | controller/feedController.js:28-88 | every precheck failure is answered with its own message and status 422, with no write. An unknown user gives 404 after the blob is added. Success adds the blob, saves one post with creator and key, appends its id to the owner's posts and emits one create event, with response 201 |
| FeedController.UpdatePost | controller/feedController.js:108-159 | a missing post gives 422 with the TypeError of reading `creator` of null, and a post whose creator is not a stored user gives 422 with the TypeError of reading `_id` of null. A non-owner gives 401 and a disallowed MIME on a new key gives 404, all without changes. Otherwise title and content are overwritten, the image is replaced only for a given file, no blob is removed and one update event is emitted |
| FeedController.DeletePost | controller/feedController.js:161-194 | a missing post gives 500 with the TypeError of reading `creator` of null and a non-owner 401, both without changes. The owner's call removes the blob and the post and emits one delete event; users' posts lists are untouched |
| Routes.Refresh | routes/user.js:25 | a verifyRefresh rejection is answered as is and writes nothing. A pass runs generateNewAccessToken with the decoded identity; like VerifyRefresh it uses the corrected comparison |
| Routes.UpdateStatusRoute | routes/user.js:20-23 | authCheck runs first and its rejection is answered as is with no write. After a pass, a failed validation gives 401 and an unknown user 404 with no write; otherwise only the authenticated user's status changes and the 201 body carries the updated user |
| Routes.GetPostsRoute | routes/feed.js:12 | an authCheck rejection is answered as is by the responder (its 401 or 400 and message); a pass gives getPosts' response |
| Routes.GetPostByIdRoute | routes/feed.js:8 | an authCheck rejection is answered as is by the responder (its 401 or 400 and message); a pass gives getPostById's response |
| Routes.CreatePostRoute | routes/feed.js:14 | an authCheck rejection is answered as is and changes nothing. On success the new post belongs to the authenticated user and exactly one create event is appended |
| Routes.UpdatePostRoute | routes/feed.js:10 | an authCheck rejection is answered as is; it and a non-owner change nothing; blobs are never removed |
| Routes.DeletePostRoute | routes/feed.js:16 | an authCheck rejection is answered as is and changes nothing; a non-owner gets 401 and nothing changes |
| Sessions.BearerField | middleware/auth.js:53-59 | `<word> <token>` yields the token from the refresh-token field |
| Sessions.RotationRejectsPreviousToken | middleware/auth.js:69-76 | with the corrected full comparison: once the first record holds the hash of the current token, any other token is refused with 401 "Invalid token" |
| Sessions.RefreshPassesStoredToken | middleware/auth.js:60-86 | a genuine refresh token whose hash is the path user's first record passes, handing on the identity signed into the token, not the path parameter |
| Sessions.LoginThenRefreshRotates | controller/userController.js:189-201 | with the corrected full comparison: after login the login's refresh token passes once. After one refresh it gets 401 and only the new token passes |
| Sessions.SecondLoginCannotRefresh | controller/userController.js:116-120 | two logins at different seconds leave two records; with the corrected full comparison the second login's refresh token is refused with 401, because the first record is compared |
| Sessions.AsWrittenSecondLoginRefreshes | controller/userController.js:116-120 | as written, when the two login tokens share their first 72 characters (as two JWTs of one user do), the second login's refresh token passes the truncating comparison against the first record |
| Sessions.LogoutEndsOnlySession | controller/userController.js:222-230 | after logging out of the only session a refresh for that user gets 401 "Authorization failed!" |
| Sessions.AsWrittenRotationAcceptsPreviousToken | middleware/auth.js:69-86 | as written, a previous refresh token sharing its first 72 characters with the current one still passes. The corrected check refuses it with 401 |

## Findings

| source | as written | input that shows it | evidently intended | confidence | as-written member | corrected member |
|---|---|---|---|---|---|---|
| middleware/auth.js:69 | `bcrypt.compare(token, storedRefreshToken.refreshToken)` with the refresh hash made at controller/userController.js:189 (and at :115). bcryptjs reads only the first 72 bytes of its input | Refresh once, then present the previous refresh token again. An HS256 JWT begins with the fixed 37-character header segment `eyJhbGciOiJIUzI1NiIsInR5cCI6IkpXVCJ9.`. The next 35 characters encode `{"userId":"` followed by the first 15 hex digits of the id. So every refresh token of one user shares its first 72 characters, and the old token passes the comparison and then the signature check | rotation: a refresh token is unusable once it has been exchanged | not executed; high (bcryptjs documents the 72-byte limit; the prefix follows from the JWT layout) | Sessions.AsWrittenRotationAcceptsPreviousToken | Sessions.RotationRejectsPreviousToken |

The rest of the model uses the corrected full comparison (`Crypto.Compare` in `Auth.VerifyRefresh`, `Routes.Refresh` and `UserController.Login`), so `Auth.VerifyRefresh`, `Routes.Refresh` and the Sessions lemmas other than the two `AsWritten` ones describe the corrected behaviour. `Auth.VerifyRefreshAsWritten` is the code with bcryptjs's truncating comparison. The same truncation also lets the second login's refresh token through (`Sessions.AsWrittenSecondLoginRefreshes`), where the corrected check refuses it (`Sessions.SecondLoginCannotRefresh`).

## Left out

- Cryptography: bcrypt cost, salts as randomness, JWT encoding, secrets and expiry are not modelled. `Crypto.Sound` states only the round trip, and a `Refused` from `verify` covers every way the library throws, with its message left free. A token's expiry time therefore never makes a sound token fail.
- Crypto.Compare: compares the whole secret, where bcryptjs compares only the first 72 bytes (see Findings). The model is stricter than the code for passwords longer than 72 characters and for every refresh token, since refresh tokens are always longer than 72 characters. So Auth.VerifyRefresh, Routes.Refresh and the Sessions lemmas other than the two `AsWritten` ones describe the corrected comparison, not the code as written.
- JWT payload extras: the `expiresIn` payload fields and the `tokenExpiration: 1` constant carry no behaviour. They appear only as the constant 1 in the login and refresh bodies.
- Store and network failures: a `save`, `findOne` or S3 call that throws is not modelled. Every store call succeeds, so the catch defaults are reached only through the modelled TypeErrors, jwt errors, the driver's negative-`skip` error and the handlers' own status-less errors (`new Error('User not found!')` in getStatus, `controller/userController.js:53`).
- ObjectId casting: a malformed id string makes Mongoose throw a CastError. Ids here are plain strings compared for equality.
- Mongo `populate`: in `getPosts` the creators are not expanded. In `updatePost` only the effect of a missing creator (a TypeError) is kept.
- Equal `createdAt` values: their order is unspecified in the store and is not modelled.
- The create event's post: it carries the saved post plus the creator's id and name, not Mongo's whole `_doc`. The `deleteFromS3` result is not part of the delete body.
- JavaScript coercion: non-string JSON body values (for example a numeric `refreshToken`, where `split` would throw and give 400) and string `page` values are not modelled. `page` is an optional integer. A non-positive page gives 500 because the store refuses a negative `skip`; the text of that error is an input, not modelled.
- express-validator: the rules are an input flag; the trimming sanitiser is assumed to have run on the inputs.
- Routes without middleware: signup, login, status and logout are the handlers themselves, so they get no route members.
- Routes.CreatePostRoute: states only the guard and the success shape; the complete outcome is FeedController.CreatePost's contract.
- Routes.UpdatePostRoute: states only the guard, ownership and blob monotonicity; the complete outcome is FeedController.UpdatePost's contract.
- Routes.DeletePostRoute: states only the guard and ownership; the complete outcome is FeedController.DeletePost's contract.
- Realtime delivery: socket delivery, connected clients and the notifier's initialisation are out of scope; emitted events are an append-only sequence.
- Signed URLs (`getObjectSignedUrl`) are unused by the handlers.
- Other app.js pieces: CORS, helmet, compression, multer, static files and the database connection are not part of this model.
- Concurrency: requests are modelled one at a time, so races between concurrent requests are not modelled.
- Console logging is not modelled.
- Unicode: tokens and passwords are treated as ASCII, so bcrypt's byte limit is a character limit.
