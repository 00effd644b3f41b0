/** The JSON Web Token service (RFC 7519) the server uses through `jsonwebtoken`:
    which claims a token carries (`generateToken`) and the laws signing and
    verification obey. The cryptography itself is not modelled: signing and
    verifying are the two functions of a `TokenService` value, and `Sound`
    states the laws the model assumes of them. */
module Tokens {
  import opened Wrappers
  import opened CredentialStore

  /** The signing secret (`JWT_SECRET`, or its fallback). */
  type Key = string

  /** `expiresIn: '1h'`, in seconds. */
  const TokenLifetime: int := 3600

  /** A decoded token: the payload `{id, username, role}` plus the registered
      claims `iat` (issued at) and `exp` (expiration time, section 4.1.4 of RFC 7519),
      both in seconds. */
  datatype Claims = Claims(id: int, username: string, role: string, iat: int, exp: int)

  /** `jwt.sign(claims, key)` and `jwt.verify(token, key)` at clock time `now`
      (seconds); verification yields the decoded claims or fails. */
  datatype TokenService = TokenService(
    sign: (Claims, Key) -> string,
    verify: (string, Key, int) -> Option<Claims>)

  /** The laws assumed of the token service:
      - a token signed with a key verifies under that key to exactly the signed
        claims until its expiry, and fails from the expiry second on;
      - (idealised) a token that verifies is the server's own signature of the claims
        it yields, under that very key, and is not yet expired: the key is secret and
        the server is its only signer;
      - the empty string never verifies. */
  ghost predicate Sound(ts: TokenService)
  {
    && (forall c, k, now :: ts.verify(ts.sign(c, k), k, now) == if now < c.exp then Some(c) else None)
    && (forall t, k, now, c :: ts.verify(t, k, now) == Some(c) ==> t == ts.sign(c, k) && now < c.exp)
    && (forall k, now :: ts.verify([], k, now) == None)
  }

  /** The claims `generateToken(user)` signs at time `now`: identity and role of the
      user, issued now, expiring one hour later. Neither the password hash nor the
      one-time-code secret is carried. */
  function TokenClaims(user: User, now: int): (c: Claims)
    ensures c.id == user.id && c.username == user.username && c.role == user.role
    ensures c.iat == now && c.exp - c.iat == TokenLifetime
  {
    Claims(user.id, user.username, user.role, now, now + TokenLifetime)
  }

  /** `generateToken(user)` at time `now` under `key`. */
  function GenerateToken(ts: TokenService, key: Key, now: int, user: User): (token: string)
    ensures Sound(ts) ==> token != [] && ts.verify(token, key, now) == Some(TokenClaims(user, now))
  {
    var c := TokenClaims(user, now);
    var t := ts.sign(c, key);
    assert Sound(ts) ==> ts.verify(t, key, now) == Some(c) && ts.verify([], key, now) == None;
    t
  }

  /** A token generated for a user decodes, for its whole one-hour validity window,
      to exactly that user's id, username and role, and fails verification from the
      expiry second on. */
  lemma GeneratedTokenVerifies(ts: TokenService, key: Key, issuedAt: int, user: User, now: int)
    requires Sound(ts)
    ensures var r := ts.verify(GenerateToken(ts, key, issuedAt, user), key, now);
      && (r.Some? <==> now < issuedAt + TokenLifetime)
      && (r.Some? ==> r.value.id == user.id && r.value.username == user.username &&
                      r.value.role == user.role && r.value.iat == issuedAt &&
                      r.value.exp == issuedAt + 3600)
  {
  }
}
