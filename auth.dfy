/**
 * The two middlewares of middleware/auth.js. Each extracts a token with
 * `authData.split(' ')[1]`, checks it and, on success, hands the decoded
 * `userId` to the next handler (`req.userId = …; next()`); on failure the
 * error goes to the responder. Both catch blocks default to status 400.
 */
module Auth {
  import opened Wrappers
  import opened Crypto
  import opened Http
  import opened Store

  /** JavaScript's `s.split(' ')`: the maximal space-free runs between
      single spaces, empty runs included. */
  function Fields(s: string): (r: seq<string>)
    ensures |r| >= 1
  {
    if |s| == 0 then [""]
    else
      var rest := Fields(s[1..]);
      if s[0] == ' ' then [""] + rest else [[s[0]] + rest[0]] + rest[1..]
  }

  /** The inverse of `split(' ')`: `parts.join(' ')`. */
  function Join(parts: seq<string>): string
    requires |parts| >= 1
  {
    if |parts| == 1 then parts[0] else parts[0] + " " + Join(parts[1..])
  }

  lemma {:induction false} FieldsNoSpace(s: string)
    ensures forall k :: 0 <= k < |Fields(s)| ==> ' ' !in Fields(s)[k]
  {
    if |s| > 0 {
      FieldsNoSpace(s[1..]);
    }
  }

  lemma {:induction false} JoinFields(s: string)
    ensures Join(Fields(s)) == s
  {
    if |s| > 0 {
      var rest := Fields(s[1..]);
      JoinFields(s[1..]);
      if s[0] == ' ' {
        assert ([""] + rest)[1..] == rest;
      } else {
        var r := [[s[0]] + rest[0]] + rest[1..];
        if |rest| > 1 {
          assert r[1..] == rest[1..];
          assert Join(rest) == rest[0] + " " + Join(rest[1..]);
        }
      }
    }
  }

  /** A space-free word followed by a space starts a new field. */
  lemma {:induction false} FieldsOfWord(w: string, s: string)
    requires ' ' !in w
    ensures Fields(w) == [w]
    ensures Fields(w + " " + s) == [w] + Fields(s)
  {
    if |w| > 0 {
      assert (w + " " + s)[1..] == w[1..] + " " + s;
      FieldsOfWord(w[1..], s);
      assert [w[0]] + w[1..] == w;
    } else {
      assert w + " " + s == " " + s;
      assert (" " + s)[1..] == s;
    }
  }

  lemma {:induction false} FieldsOfJoin(parts: seq<string>)
    requires |parts| >= 1
    requires forall k :: 0 <= k < |parts| ==> ' ' !in parts[k]
    ensures Fields(Join(parts)) == parts
  {
    if |parts| == 1 {
      FieldsOfWord(parts[0], "");
    } else {
      var rest := parts[1..];
      assert forall k :: 0 <= k < |rest| ==> rest[k] == parts[k + 1];
      FieldsOfJoin(rest);
      assert Join(parts) == parts[0] + " " + Join(rest);
      FieldsOfWord(parts[0], Join(rest));
      assert [parts[0]] + rest == parts;
    }
  }

  /** `const token = authData.split(' ')[1]; if (!token) …`: field 1, when
      it exists and is not empty. The first field is never looked at. */
  function ExtractToken(authData: string): (r: Option<string>)
    ensures r.Some? ==> r.value != "" && ' ' !in r.value
  {
    var f := Fields(authData);
    FieldsNoSpace(authData);
    if |f| > 1 && f[1] != "" then Some(f[1]) else None
  }

  /** Any first word is accepted: `<word> <token>`, optionally followed by
      more space-separated text, yields the token. */
  lemma {:induction false} ExtractAfterAnyWord(word: string, token: string, more: seq<string>)
    requires ' ' !in word && ' ' !in token && token != ""
    requires forall k :: 0 <= k < |more| ==> ' ' !in more[k]
    ensures ExtractToken(Join([word, token] + more)) == Some(token)
  {
    var parts := [word, token] + more;
    forall k | 0 <= k < |parts| ensures ' ' !in parts[k] {
      if k >= 2 { assert parts[k] == more[k - 2]; }
    }
    FieldsOfJoin(parts);
    assert Fields(Join(parts)) == parts;
    assert parts[1] == token && |parts| > 1;
  }

  /** Whatever ExtractToken returns sits right after the first space of the
      header and runs up to the next space or the end. */
  lemma {:induction false} ExtractedTokenPosition(authData: string) returns (word: string, tail: string)
    requires ExtractToken(authData).Some?
    ensures ' ' !in word && (tail == "" || tail[0] == ' ')
    ensures authData == word + " " + ExtractToken(authData).value + tail
  {
    var f := Fields(authData);
    var t := f[1];
    JoinFields(authData);
    FieldsNoSpace(authData);
    word := f[0];
    tail := if |f| == 2 then "" else " " + Join(f[2..]);
    assert f[1..][1..] == f[2..];
    assert Join(f[1..]) == t + tail;
    assert authData == f[0] + " " + t + tail;
    assert ExtractToken(authData).value == t;
    assert ' ' !in f[0] && (tail == "" || tail[0] == ' ');
  }

  /** A header without the field-1 token is refused. */
  lemma {:induction false} ExtractTokenNeedsTwoFields(authData: string)
    ensures ' ' !in authData ==> ExtractToken(authData).None?
    ensures ExtractToken(authData + " ").None? || ' ' in authData
  {
    if ' ' !in authData {
      FieldsOfWord(authData, "");
      assert Fields(authData) == [authData];
      assert authData + " " == authData + " " + "";
      assert Fields(authData + " ") == [authData, ""];
    }
  }

  /** The outcome of a middleware: the identity it hands on, or the error,
      already caught (its status set), that it hands to the responder. */
  datatype Gate = Pass(userId: string) | Reject(error: Failure)

  /** Truthiness of a string value that may be absent. */
  predicate Present(v: Option<string>) {
    v.Some? && v.value != ""
  }

  /** `authCheck`, with the `Authorization` header as input. */
  function AuthCheck(authorization: Option<string>, jwt: Jwt): (g: Gate)
    ensures !Present(authorization) ==> g == Reject(Throw(401, "Authorization failed!"))
    ensures Present(authorization) && ExtractToken(authorization.value).None?
      ==> g == Reject(Throw(401, "Invalid token"))
    ensures Present(authorization) && ExtractToken(authorization.value).Some? ==>
      var verdict := jwt.verify(ExtractToken(authorization.value).value, AccessSecret);
      && (verdict.Refused? ==> g == Reject(Throw(400, verdict.message)))
      && (verdict.Decoded? ==> g == Pass(verdict.claims.userId))
    ensures g.Reject? ==> HasStatus(g.error)
  {
    if !Present(authorization) then Reject(Caught(Throw(401, "Authorization failed!"), 400))
    else match ExtractToken(authorization.value)
      case None => Reject(Caught(Throw(401, "Invalid token"), 400))
      case Some(token) =>
        match jwt.verify(token, AccessSecret)
        case Refused(message) => Reject(Caught(Failure(None, Some(message)), 400))
        case Decoded(decoded) => Pass(decoded.userId)
  }

  /** A genuine access token behind any first word passes, and the identity
      handed on is the one it was signed for. */
  lemma {:induction false} AuthCheckAcceptsSignedToken(jwt: Jwt, word: string, claims: Claims)
    requires Sound(jwt) && ' ' !in word
    ensures AuthCheck(Some(Join([word, jwt.sign(claims, AccessSecret)])), jwt) == Pass(claims.userId)
  {
    var t := jwt.sign(claims, AccessSecret);
    assert jwt.verify(t, AccessSecret) == Decoded(claims) && t != "" && ' ' !in t;
    ExtractAfterAnyWord(word, t, []);
    assert [word, t] + [] == [word, t];
  }

  /** `verifyRefresh`, with `req.body.refreshToken` and `req.params.userId` as
      inputs and the Token collection as it stands. The stored hash is
      compared before the signature is verified. */
  function VerifyRefresh(tokens: seq<TokenRecord>, pathUserId: string, refreshToken: Option<string>, jwt: Jwt): (g: Gate)
    ensures !Present(refreshToken) ==> g == Reject(Throw(401, "Authorization failed!"))
    ensures Present(refreshToken) && ExtractToken(refreshToken.value).None?
      ==> g == Reject(Throw(401, "Invalid token"))
    ensures Present(refreshToken) && ExtractToken(refreshToken.value).Some? ==>
      var token := ExtractToken(refreshToken.value).value;
      match IndexOfToken(tokens, pathUserId)
      case None => g == Reject(Throw(401, "Authorization failed!"))
      case Some(i) =>
        if !Compare(token, tokens[i].refreshToken) then g == Reject(Throw(401, "Invalid token"))
        else match jwt.verify(token, RefreshSecret)
          case Refused(message) => g == Reject(Throw(400, message))
          case Decoded(decoded) => g == Pass(decoded.userId)
  {
    if !Present(refreshToken) then Reject(Caught(Throw(401, "Authorization failed!"), 400))
    else match ExtractToken(refreshToken.value)
      case None => Reject(Caught(Throw(401, "Invalid token"), 400))
      case Some(token) =>
        match IndexOfToken(tokens, pathUserId)
        case None => Reject(Caught(Throw(401, "Authorization failed!"), 400))
        case Some(i) =>
          if !Compare(token, tokens[i].refreshToken) then Reject(Caught(Throw(401, "Invalid token"), 400))
          else match jwt.verify(token, RefreshSecret)
            case Refused(message) => Reject(Caught(Failure(None, Some(message)), 400))
            case Decoded(decoded) => Pass(decoded.userId)
  }

  /** `verifyRefresh` exactly as written, with bcryptjs's comparison, which
      reads only the first 72 characters of the presented token and of the
      stored preimage. It differs from VerifyRefresh in that step alone. */
  function VerifyRefreshAsWritten(tokens: seq<TokenRecord>, pathUserId: string, refreshToken: Option<string>, jwt: Jwt): (g: Gate)
    ensures Present(refreshToken) && ExtractToken(refreshToken.value).Some? ==>
      var token := ExtractToken(refreshToken.value).value;
      match IndexOfToken(tokens, pathUserId)
      case None => g == VerifyRefresh(tokens, pathUserId, refreshToken, jwt)
      case Some(i) =>
        (BcryptCompare(token, tokens[i].refreshToken) <==> Compare(token, tokens[i].refreshToken))
          ==> g == VerifyRefresh(tokens, pathUserId, refreshToken, jwt)
    ensures !(Present(refreshToken) && ExtractToken(refreshToken.value).Some?) ==>
      g == VerifyRefresh(tokens, pathUserId, refreshToken, jwt)
  {
    if !Present(refreshToken) then Reject(Caught(Throw(401, "Authorization failed!"), 400))
    else match ExtractToken(refreshToken.value)
      case None => Reject(Caught(Throw(401, "Invalid token"), 400))
      case Some(token) =>
        match IndexOfToken(tokens, pathUserId)
        case None => Reject(Caught(Throw(401, "Authorization failed!"), 400))
        case Some(i) =>
          if !BcryptCompare(token, tokens[i].refreshToken) then Reject(Caught(Throw(401, "Invalid token"), 400))
          else match jwt.verify(token, RefreshSecret)
            case Refused(message) => Reject(Caught(Failure(None, Some(message)), 400))
            case Decoded(decoded) => Pass(decoded.userId)
  }
}
