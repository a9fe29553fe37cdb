/** The request gates: auth.js (`verifyAccessToken`), authorizeClient.js and
    authorizeContractor.js. Each either answers the request or passes it on
    to `next` with the identity it carries; none does both. */
module Middleware {
  import opened Common
  import opened Crypto

  datatype Gate = Reject(status: int, message: string) | Next(user: Claims)

  const BearerPrefix: string := "Bearer "

  /** `authHeader.split(" ")[1]`: the text between the first and the second
      space. */
  function BearerToken(header: string): (token: string)
    requires StartsWith(header, BearerPrefix)
    ensures ' ' !in token
    ensures |BearerPrefix| + |token| <= |header| && header[..|BearerPrefix| + |token|] == BearerPrefix + token
    ensures |BearerPrefix| + |token| == |header| || header[|BearerPrefix| + |token|] == ' '
  {
    var rest := header[|BearerPrefix|..];
    assert header == "Bearer" + [' '] + rest;
    SplitPrefix("Bearer", rest, ' ');
    SplitFirst(rest, ' ');
    Split(header, ' ')[1]
  }

  /** A string with a separator at position `k` splits into at least two parts. */
  lemma {:induction false} SplitHasSecond(s: string, sep: char, k: nat)
    requires k < |s| && s[k] == sep
    ensures |Split(s, sep)| >= 2
  {
    if k > 0 && s[0] != sep {
      SplitHasSecond(s[1..], sep, k - 1);
    }
  }

  /** `verifyAccessToken`, with `jwt.verify(token, JWT_ACCESS_SECRET)` at the
      current time given as `verify` (`None` where it throws). A missing
      header or one not starting with exactly "Bearer " is 401, so is an
      empty second field; any verification failure, expired or tampered
      alike, is one 403; otherwise the request proceeds with `req.user` set
      to exactly the decoded claims. */
  function VerifyAccessToken(header: Option<string>, verify: string -> Option<Claims>): (g: Gate)
    ensures g.Reject? ==> g.status == 401 || g.status == 403
    ensures g.Reject? && g.status == 401 <==>
      !Truthy(header) || !StartsWith(header.value, BearerPrefix) || BearerToken(header.value) == ""
    ensures g.Next? <==>
      Truthy(header) && StartsWith(header.value, BearerPrefix) && BearerToken(header.value) != ""
      && verify(BearerToken(header.value)).Some?
    ensures g.Next? ==> g.user == verify(BearerToken(header.value)).value
    ensures g.Reject? && g.status == 403 ==> g.message == "Invalid or expired token"
  {
    if !Truthy(header) || !StartsWith(header.value, BearerPrefix) then
      Reject(401, "Authorization header missing or malformed")
    else
      var token := BearerToken(header.value);
      if token == "" then Reject(401, "No token provided")
      else match verify(token)
        case None => Reject(403, "Invalid or expired token")
        case Some(decoded) => Next(decoded)
  }

  /** The token of "Bearer <t>" is `t` itself when `t` has no space. */
  lemma {:induction false} BearerTokenOf(t: string)
    requires ' ' !in t
    ensures StartsWith(BearerPrefix + t, BearerPrefix)
    ensures BearerToken(BearerPrefix + t) == t
  {
    var h := BearerPrefix + t;
    assert h == "Bearer" + [' '] + t;
    SplitPrefix("Bearer", t, ' ');
    SplitNoSeparator(t, ' ');
  }

  /** "Bearer " carries an empty token: 401. */
  lemma {:induction false} BearerWithoutToken(verify: string -> Option<Claims>)
    ensures VerifyAccessToken(Some("Bearer "), verify) == Reject(401, "No token provided")
  {
    var h := "Bearer ";
    assert h == "Bearer" + [' '] + "";
    SplitPrefix("Bearer", "", ' ');
    assert Split(h, ' ') == ["Bearer", ""];
  }

  /** "Bearer  x" (two spaces) carries an empty token too: 401, not 403. */
  lemma {:induction false} BearerDoubleSpace(verify: string -> Option<Claims>)
    ensures VerifyAccessToken(Some("Bearer  x"), verify) == Reject(401, "No token provided")
  {
    assert "Bearer  x" == BearerPrefix + " x";
    BearerThenSpace(" x");
  }

  /** A second space right after "Bearer " leaves the token empty. */
  lemma {:induction false} BearerThenSpace(rest: string)
    requires rest != [] && rest[0] == ' '
    ensures StartsWith(BearerPrefix + rest, BearerPrefix)
    ensures BearerToken(BearerPrefix + rest) == ""
  {
    var h := BearerPrefix + rest;
    assert h[..|BearerPrefix|] == BearerPrefix;
  }

  /** A request presenting a token that verifies gets through, carrying
      exactly that token's claims. */
  lemma {:induction false} AcceptsVerifiedBearer(t: string, claims: Claims, verify: string -> Option<Claims>)
    requires t != "" && ' ' !in t && verify(t) == Some(claims)
    ensures VerifyAccessToken(Some(BearerPrefix + t), verify) == Next(claims)
  {
    BearerTokenOf(t);
  }

  /** `authorizeClient`: only a role of exactly "client" proceeds; any other
      role, or no `req.user` at all, is 403. The identity is passed on as it
      is. */
  function AuthorizeClient(user: Option<Claims>): (g: Gate)
    ensures g.Next? <==> user.Some? && user.value.role == Some("client")
    ensures g.Next? ==> g.user == user.value
    ensures g.Reject? ==> g.status == 403
  {
    if user.None? || user.value.role != Some("client") then
      Reject(403, "Only clients are allowed to access this resource")
    else Next(user.value)
  }

  /** `authorizeContractor`: the same gate for exactly "contractor". */
  function AuthorizeContractor(user: Option<Claims>): (g: Gate)
    ensures g.Next? <==> user.Some? && user.value.role == Some("contractor")
    ensures g.Next? ==> g.user == user.value
    ensures g.Reject? ==> g.status == 403
  {
    if user.None? || user.value.role != Some("contractor") then
      Reject(403, "Only contractor are allowed to access this route")
    else Next(user.value)
  }

  /** No identity passes both role gates. */
  lemma {:induction false} RoleGatesExclusive(user: Option<Claims>)
    ensures !(AuthorizeClient(user).Next? && AuthorizeContractor(user).Next?)
  {
  }
}
