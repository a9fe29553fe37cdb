/** bcrypt and JSON Web Tokens, kept abstract: a PIN hash can only be checked
    against the PIN it was made from, and a signed token verifies with the
    secret it was signed with, to the claims it was signed with, until it
    expires. Times are integer millisecond timestamps. */
module Crypto {
  import opened Common

  type UserId = nat
  type TokenId = nat

  /** `bcrypt.hash(pin, 10)`; the salt and the hashing itself are not modelled. */
  datatype PinHash = Bcrypt(secret: string)

  function Hash(pin: string): (h: PinHash)
    ensures Compare(pin, h)
  {
    Bcrypt(pin)
  }

  /** `bcrypt.compare(pin, hash)`. */
  predicate Compare(pin: string, h: PinHash) {
    h.secret == pin
  }

  /** A hash accepts exactly the PIN it was made from. */
  lemma {:induction false} CompareHash(pin: string, other: string)
    ensures Compare(other, Hash(pin)) <==> other == pin
  {
  }

  /** The two signing secrets, `JWT_ACCESS_SECRET` and `JWT_REFRESH_SECRET`. */
  datatype Secret = AccessSecret | RefreshSecret

  /** The payload of a token. The handlers use different keys for the
      subject: `id` (userController.js) and `sub` (authController.js);
      refresh tokens carry only `jti`. */
  datatype Claims = Claims(
    id: Option<UserId>,
    sub: Option<UserId>,
    role: Option<string>,
    phone: Option<string>,
    jti: Option<TokenId>)

  /** A token as a client presents it: either signed by `jwt.sign`, or any
      other text (garbage, tampered or empty). */
  datatype Token = Signed(secret: Secret, claims: Claims, exp: int) | Unsigned(text: string)

  /** Lifetime of an access token ("6m"). */
  const AccessLifetime: int := 6 * 60 * 1000

  /** Lifetime of a refresh token and of its store record ("30d"). */
  const RefreshLifetime: int := 30 * 24 * 60 * 60 * 1000

  /** `jwt.sign(claims, secret, { expiresIn })` at time `now`. */
  function Sign(secret: Secret, claims: Claims, now: int, lifetime: int): Token {
    Signed(secret, claims, now + lifetime)
  }

  /** `jwt.verify(token, secret)` at time `now`: the claims, or `None` where
      the library throws (bad signature, garbage, or `now` at or past `exp`). */
  function Verify(t: Token, secret: Secret, now: int): (r: Option<Claims>)
    ensures r.Some? ==> t.Signed? && t.secret == secret && now < t.exp
  {
    if t.Signed? && t.secret == secret && now < t.exp then Some(t.claims) else None
  }

  /** What `jwt.sign` signs `jwt.verify` returns, with the same secret, until
      it expires, and never after or with the other secret. */
  lemma {:induction false} SignThenVerify(secret: Secret, claims: Claims, now: int, lifetime: int, later: int, other: Secret)
    ensures Verify(Sign(secret, claims, now, lifetime), secret, later) == if later < now + lifetime then Some(claims) else None
    ensures other != secret ==> Verify(Sign(secret, claims, now, lifetime), other, later) == None
  {
  }
}
