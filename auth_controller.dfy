/** authController.js: `refreshAccessToken`, `logout` and `loginUser` as
    transitions of the refresh-token store, reading the user collection. */
module AuthController {
  import opened Common
  import opened Crypto
  import opened UserModel
  import opened RefreshTokens
  import opened Credentials

  /** The access-token claims this controller signs: `{ sub, role }`. */
  function SubClaims(u: User): (c: Claims)
    ensures c.sub == Some(u.id) && c.id == None && c.role == Some(RoleName(u.role))
  {
    Claims(None, Some(u.id), Some(RoleName(u.role)), None, None)
  }

  /** `req.cookies?.refreshToken` when it is truthy. */
  function PresentedToken(cookie: Option<Token>): (t: Option<Token>)
    ensures t.Some? <==> cookie.Some? && cookie.value != Unsigned("")
    ensures t.Some? ==> t == cookie
  {
    if cookie.Some? && cookie.value != Unsigned("") then cookie else None
  }

  /** The `jti` of a presented cookie whose signature verifies, if any. */
  function PresentedJti(cookie: Option<Token>, now: int): (jti: Option<TokenId>)
    ensures jti.Some? ==> (cookie.Some? && Verify(cookie.value, RefreshSecret, now).Some?
                           && Verify(cookie.value, RefreshSecret, now).value.jti == jti)
  {
    match PresentedToken(cookie)
    case None => None
    case Some(t) =>
      match Verify(t, RefreshSecret, now)
      case None => None
      case Some(payload) => payload.jti
  }

  /** Which of its exits `refreshAccessToken` takes, checks in source order. */
  datatype RefreshStage =
    | NoCookie
    | BadSignature
    | NoJti
    | RevokedOrMissing(jti: TokenId)
    | Expired(jti: TokenId)
    | UserGone(jti: TokenId)
    | Rotate(jti: TokenId, user: User)

  function RefreshStageOf(tokens: map<TokenId, RefreshRecord>, users: map<UserId, User>, cookie: Option<Token>, now: int): (st: RefreshStage)
    ensures st == NoCookie <==> PresentedToken(cookie).None?
    ensures PresentedJti(cookie, now).Some? && (PresentedJti(cookie, now).value !in tokens || tokens[PresentedJti(cookie, now).value].revoked)
      ==> st == RevokedOrMissing(PresentedJti(cookie, now).value)
    ensures st == BadSignature <==>
      PresentedToken(cookie).Some? && Verify(PresentedToken(cookie).value, RefreshSecret, now).None?
    ensures st == NoJti <==>
      PresentedToken(cookie).Some? && Verify(PresentedToken(cookie).value, RefreshSecret, now).Some?
      && Verify(PresentedToken(cookie).value, RefreshSecret, now).value.jti.None?
    ensures st.RevokedOrMissing? <==>
      PresentedJti(cookie, now).Some? && (PresentedJti(cookie, now).value !in tokens || tokens[PresentedJti(cookie, now).value].revoked)
    ensures st.Expired? ==> (PresentedJti(cookie, now) == Some(st.jti) && st.jti in tokens
                             && !tokens[st.jti].revoked && tokens[st.jti].expiresAt < now)
    ensures PresentedJti(cookie, now).Some? && PresentedJti(cookie, now).value in tokens
      && !tokens[PresentedJti(cookie, now).value].revoked && tokens[PresentedJti(cookie, now).value].expiresAt < now
      ==> st == Expired(PresentedJti(cookie, now).value)
    ensures st.UserGone? ==> (PresentedJti(cookie, now) == Some(st.jti) && st.jti in tokens
                              && !tokens[st.jti].revoked && now <= tokens[st.jti].expiresAt
                              && tokens[st.jti].userId !in users)
    ensures PresentedJti(cookie, now).Some? && PresentedJti(cookie, now).value in tokens
      && !tokens[PresentedJti(cookie, now).value].revoked && now <= tokens[PresentedJti(cookie, now).value].expiresAt
      && tokens[PresentedJti(cookie, now).value].userId !in users
      ==> st == UserGone(PresentedJti(cookie, now).value)
    ensures st.Rotate? <==>
      PresentedJti(cookie, now).Some? && PresentedJti(cookie, now).value in tokens
      && !tokens[PresentedJti(cookie, now).value].revoked
      && now <= tokens[PresentedJti(cookie, now).value].expiresAt
      && tokens[PresentedJti(cookie, now).value].userId in users
    ensures st.Rotate? ==> st.jti == PresentedJti(cookie, now).value && st.user == users[tokens[st.jti].userId]
  {
    match PresentedToken(cookie)
    case None => NoCookie
    case Some(t) =>
      match Verify(t, RefreshSecret, now)
      case None => BadSignature
      case Some(payload) =>
        match payload.jti
        case None => NoJti
        case Some(jti) =>
          if jti !in tokens || tokens[jti].revoked then RevokedOrMissing(jti)
          else if tokens[jti].expiresAt < now then Expired(jti)
          else if tokens[jti].userId !in users then UserGone(jti)
          else Rotate(jti, users[tokens[jti].userId])
  }

  /** The message of each refusal; only a rotation has none. */
  function StageMessage(st: RefreshStage): (m: string)
    ensures m == "" <==> st.Rotate?
  {
    match st
    case NoCookie => "No refresh token provided"
    case BadSignature => "Invalid refresh token"
    case NoJti => "Invalid token payload"
    case RevokedOrMissing(_) => "Refresh token revoked or missing"
    case Expired(_) => "Refresh token expired"
    case UserGone(_) => "User not found"
    case Rotate(_, _) => ""
  }

  /** The store after a rotation: a fresh unrevoked record for the user, and
      the presented record revoked and pointing at it; nothing else moves. */
  function Rotated(tokens: map<TokenId, RefreshRecord>, jti: TokenId, newId: TokenId, userId: UserId, now: int): (t: map<TokenId, RefreshRecord>)
    requires jti in tokens && newId !in tokens
    ensures t.Keys == tokens.Keys + {newId}
    ensures t[newId] == NewRecord(newId, userId, now + RefreshLifetime, now) && !t[newId].revoked
    ensures t[jti] == tokens[jti].(revoked := true, replacedBy := Some(newId))
    ensures forall id :: id in tokens && id != jti ==> t[id] == tokens[id]
  {
    Revoked(tokens[newId := NewRecord(newId, userId, now + RefreshLifetime, now)], Some(jti), Some(newId))
  }

  /** Replay of a rotated refresh token fails: whoever presents the same
      cookie again, at any later time and whatever the users, is refused —
      with "revoked or missing", or with a bad signature once the token
      itself has expired. */
  lemma {:induction false} ReplayAfterRotationFails(
    tokens: map<TokenId, RefreshRecord>, users: map<UserId, User>, cookie: Option<Token>, now: int,
    newId: TokenId, users': map<UserId, User>, later: int)
    requires RefreshStageOf(tokens, users, cookie, now).Rotate?
    requires newId !in tokens
    ensures var st := RefreshStageOf(tokens, users, cookie, now);
      var st' := RefreshStageOf(Rotated(tokens, st.jti, newId, st.user.id, now), users', cookie, later);
      st' == BadSignature || st' == RevokedOrMissing(st.jti)
  {
    var st := RefreshStageOf(tokens, users, cookie, now);
    var t' := Rotated(tokens, st.jti, newId, st.user.id, now);
    if PresentedJti(cookie, later).Some? {
      assert PresentedJti(cookie, later) == PresentedJti(cookie, now);
      assert t'[st.jti].revoked;
    }
  }

  /** `refreshAccessToken`: the checks in order (cookie, signature, `jti`,
      record present and unrevoked, not expired, user exists), every refusal
      a 401; an expired record is revoked before the refusal, every other
      refusal leaves the store as it was. On success the presented record is
      rotated and the reply carries a new access token `{ sub, role }` and a
      new refresh cookie. */
  method RefreshAccessToken(store: SessionStore, users: map<UserId, User>, cookie: Option<Token>, now: int)
    returns (reply: Reply)
    requires store.Valid()
    modifies store
    ensures store.Valid()
    ensures reply.status == 200 || reply.status == 401
    ensures var st := RefreshStageOf(old(store.tokens), users, cookie, now);
      match st
      case Rotate(jti, user) =>
        var newId := old(store.nextTokenId);
        && reply == Reply(200, "", Some(Sign(AccessSecret, SubClaims(user), now, AccessLifetime)), None,
                          SetCookie(Sign(RefreshSecret, JtiClaims(newId), now, RefreshLifetime)))
        && store.tokens == Rotated(old(store.tokens), jti, newId, user.id, now)
        && store.nextTokenId == newId + 1
      case Expired(jti) =>
        && reply == Failure(401, StageMessage(st))
        && store.tokens == Revoked(old(store.tokens), Some(jti), None)
        && store.nextTokenId == old(store.nextTokenId)
      case _ =>
        && reply == Failure(401, StageMessage(st))
        && store.tokens == old(store.tokens)
        && store.nextTokenId == old(store.nextTokenId)
  {
    ghost var st := RefreshStageOf(store.tokens, users, cookie, now);
    var tokenFromCookie := PresentedToken(cookie);
    if tokenFromCookie.None? {
      assert st == NoCookie;
      return Failure(401, "No refresh token provided");
    }
    var payload := Verify(tokenFromCookie.value, RefreshSecret, now);
    if payload.None? {
      assert st == BadSignature;
      return Failure(401, "Invalid refresh token");
    }
    var tokenId := payload.value.jti;
    if tokenId.None? {
      assert st == NoJti;
      return Failure(401, "Invalid token payload");
    }
    var record := store.FindRefreshTokenRecord(tokenId.value);
    if record.None? || record.value.revoked {
      assert st == RevokedOrMissing(tokenId.value);
      return Failure(401, "Refresh token revoked or missing");
    }
    if record.value.expiresAt < now {
      assert st == Expired(tokenId.value);
      store.RevokeRefreshToken(tokenId, None);
      return Failure(401, "Refresh token expired");
    }
    var userId := record.value.userId;
    if userId !in users {
      assert st == UserGone(tokenId.value);
      return Failure(401, "User not found");
    }
    var user := users[userId];
    assert st == Rotate(tokenId.value, user);
    var newAccessToken := Sign(AccessSecret, SubClaims(user), now, AccessLifetime);
    var newRefreshJwt, newTokenId, newExpiresAt := store.GenerateRefreshToken(user.id, now);
    store.RevokeRefreshToken(tokenId, Some(newTokenId));
    reply := Reply(200, "", Some(newAccessToken), None, SetCookie(newRefreshJwt));
  }

  /** `logout`: always 200 and the cookie cleared; the presented record is
      revoked only when the cookie verifies and carries a `jti`, and an
      absent or unverifiable cookie changes nothing. */
  method Logout(store: SessionStore, cookie: Option<Token>, now: int) returns (reply: Reply)
    requires store.Valid()
    modifies store`tokens
    ensures store.Valid()
    ensures reply == Reply(200, "Logged out", None, None, ClearCookie)
    ensures store.tokens == Revoked(old(store.tokens), PresentedJti(cookie, now), None)
  {
    var tokenFromCookie := PresentedToken(cookie);
    if tokenFromCookie.Some? {
      var payload := Verify(tokenFromCookie.value, RefreshSecret, now);
      if payload.Some? {
        store.RevokeRefreshToken(payload.value.jti, None);
      }
    }
    reply := Reply(200, "Logged out", None, None, ClearCookie);
  }

  /** `loginUser` of this controller: the shared ladder, then one new
      session record and a reply with access token `{ sub, role }`, the user
      without its PIN hash, and the refresh cookie. A refusal adds nothing. */
  method LoginUser(store: SessionStore, users: map<UserId, User>, phone: Option<string>, pin: Option<string>, now: int)
    returns (reply: Reply)
    requires store.Valid() && WellKeyed(users) && UniquePhones(users)
    modifies store
    ensures store.Valid()
    ensures match CheckCredentials(users, phone, pin)
      case Refused(status, message) =>
        && reply == Failure(status, message)
        && store.tokens == old(store.tokens) && store.nextTokenId == old(store.nextTokenId)
      case Accepted(u) =>
        var id := old(store.nextTokenId);
        && reply == Reply(200, "Login successful", Some(Sign(AccessSecret, SubClaims(u), now, AccessLifetime)),
                          Some(Sanitize(u)), SetCookie(Sign(RefreshSecret, JtiClaims(id), now, RefreshLifetime)))
        && store.tokens == old(store.tokens)[id := NewRecord(id, u.id, now + RefreshLifetime, now)]
        && store.nextTokenId == id + 1
  {
    var check := CheckCredentials(users, phone, pin);
    if check.Refused? {
      return Failure(check.status, check.message);
    }
    var user := check.user;
    var accessToken := Sign(AccessSecret, SubClaims(user), now, AccessLifetime);
    var refreshTokenJwt, tokenId, expiresAt := store.GenerateRefreshToken(user.id, now);
    reply := Reply(200, "Login successful", Some(accessToken), Some(Sanitize(user)), SetCookie(refreshTokenJwt));
  }

  /** Login, then refresh with the cookie it set, then present that cookie
      again: the refresh succeeds and the replay is refused with the store
      left as the refresh made it. */
  method LoginRefreshReplay(store: SessionStore, users: map<UserId, User>, phone: string, pin: string, now: int)
    returns (login: Reply, first: Reply, replay: Reply)
    requires store.Valid() && WellKeyed(users) && UniquePhones(users)
    requires CheckCredentials(users, Some(phone), Some(pin)).Accepted?
    modifies store
    ensures login.status == 200 && first.status == 200
    ensures replay == Failure(401, "Refresh token revoked or missing")
  {
    login := LoginUser(store, users, Some(phone), Some(pin), now);
    var cookie := Some(login.cookie.token);
    first := RefreshAccessToken(store, users, cookie, now);
    replay := RefreshAccessToken(store, users, cookie, now);
  }
}
