/**
 * The two cryptographic libraries the handlers call, kept uninterpreted:
 * bcryptjs (`hash`, `compare`) and jsonwebtoken (`sign`, `verify`).
 * Nothing cryptographic is proved; only the functional contracts the
 * handlers rely on are stated.
 */
module Crypto {
  import opened Wrappers

  /** What `bcrypt.hash(p, 14)` returns: a salted digest. The model keeps the
      preimage inside so that comparison can be defined; the salt is random
      in the library and an input here. */
  datatype Digest = Digest(preimage: string, salt: nat)

  function Hash(p: string, salt: nat): (d: Digest)
    ensures Compare(p, d)
    ensures d.salt == salt
  {
    Digest(p, salt)
  }

  /** Comparison of a presented secret with a stored digest over the WHOLE
      secret: true exactly when the digest was made from that secret. This is
      the behaviour the refresh-token rotation needs, and the one the rest of
      the model uses (see BcryptCompare for what bcryptjs actually does). */
  predicate Compare(p: string, d: Digest) {
    d.preimage == p
  }

  lemma CompareIffHashedFrom(p: string, d: Digest)
    ensures Compare(p, d) <==> d == Hash(p, d.salt)
  {
  }

  /** bcrypt reads at most 72 bytes of its input; bcryptjs silently drops
      the rest. Tokens and passwords here are ASCII, so bytes are chars. */
  const BcryptMaxInput: nat := 72

  function BcryptInput(p: string): (q: string)
    ensures |q| == if |p| <= BcryptMaxInput then |p| else BcryptMaxInput
    ensures q == p[..|q|]
  {
    if |p| <= BcryptMaxInput then p else p[..BcryptMaxInput]
  }

  /** `bcrypt.compare(p, d)` as bcryptjs computes it: only the first 72
      bytes of the secret and of the preimage take part. */
  predicate BcryptCompare(p: string, d: Digest)
    ensures Compare(p, d) ==> BcryptCompare(p, d)
    ensures BcryptCompare(p, d) ==> |p| >= BcryptMaxInput || p == BcryptInput(d.preimage)
  {
    BcryptInput(d.preimage) == BcryptInput(p)
  }

  /** The truncating comparison agrees with the full one on short secrets
      (passwords of at most 72 characters). */
  lemma BcryptCompareOnShortSecrets(p: string, d: Digest)
    requires |p| <= BcryptMaxInput && |d.preimage| <= BcryptMaxInput
    ensures BcryptCompare(p, d) <==> Compare(p, d)
  {
  }

  /** Two different secrets that agree on their first 72 characters are
      confused by the truncating comparison, but not by the full one. */
  lemma {:induction false} BcryptCompareConfusesLongSecrets(prefix: string, a: string, b: string, salt: nat)
    requires |prefix| == BcryptMaxInput && a != b
    ensures prefix + a != prefix + b
    ensures BcryptCompare(prefix + a, Hash(prefix + b, salt))
    ensures !Compare(prefix + a, Hash(prefix + b, salt))
  {
    assert (prefix + a)[..BcryptMaxInput] == prefix;
    assert (prefix + b)[..BcryptMaxInput] == prefix;
    assert (prefix + a)[|prefix|..] == a && (prefix + b)[|prefix|..] == b;
  }

  /** The two signing secrets, ACCESS_TOKEN_SECRET and REFRESH_TOKEN_SECRET. */
  datatype SecretKind = AccessSecret | RefreshSecret

  /** The payload fields the handlers read back: `userId`, and `email` where
      the signer put one, plus the issue time jsonwebtoken adds (`iat`, in
      seconds, taken from the clock). */
  datatype Claims = Claims(userId: string, email: Option<string>, iat: nat)

  /** The outcome of `jwt.verify`: the decoded payload, or the Error the
      library throws, with the library's own message for the reason
      (a bad signature, a wrong secret, an expired or malformed token). */
  datatype Verdict = Decoded(claims: Claims) | Refused(message: string)

  /** jsonwebtoken as a value. */
  datatype Jwt = Jwt(sign: (Claims, SecretKind) -> string, verify: (string, SecretKind) -> Verdict)

  /** What the handlers rely on from jsonwebtoken: a token verifies, with the
      secret it was signed with, to the claims it was signed with (expiry is
      not modelled), and a compact JWT is non-empty and contains no space. */
  ghost predicate Sound(jwt: Jwt) {
    forall c: Claims, k: SecretKind ::
      && jwt.verify(jwt.sign(c, k), k) == Decoded(c)
      && jwt.sign(c, k) != ""
      && ' ' !in jwt.sign(c, k)
  }

  /** A sound signer never gives two different claim sets the same token. */
  lemma SignInjective(jwt: Jwt, c1: Claims, c2: Claims, k: SecretKind)
    requires Sound(jwt)
    requires c1 != c2
    ensures jwt.sign(c1, k) != jwt.sign(c2, k)
  {
  }
}
