/** The routers that put the gates in front of the handlers:
    clientJobPostRoutes.js (`verifyAccessToken, authorizeClient` before
    every client route) and userRoutes.js (`verifyAccessToken` before the
    profile routes). The identity a handler sees is whatever claims the
    access token carries, and the two login handlers sign different ones:
    userController.js signs `{ id, role }`, authController.js `{ sub, role }`.
    The handlers read `req.user.id`, so a token from authController.js passes
    both gates and is then refused by every one of them. */
module Routes {
  import opened Common
  import opened Crypto
  import opened UserModel
  import opened RefreshTokens
  import opened Credentials
  import opened Middleware
  import AuthController
  import UserController
  import opened ClientJobPosts

  /** `verifyAccessToken, authorizeClient`: the token's verdict, then the
      role check on the claims it decoded to. */
  function ClientGate(header: Option<string>, verify: string -> Option<Claims>): (g: Gate)
    ensures VerifyAccessToken(header, verify).Reject? ==> g == VerifyAccessToken(header, verify)
    ensures g.Next? <==>
      VerifyAccessToken(header, verify).Next? && VerifyAccessToken(header, verify).user.role == Some("client")
    ensures g.Next? ==> g.user == VerifyAccessToken(header, verify).user
    ensures VerifyAccessToken(header, verify).Next? && g.Reject? ==> g.status == 403
  {
    match VerifyAccessToken(header, verify)
    case Reject(status, message) => Reject(status, message)
    case Next(user) => AuthorizeClient(Some(user))
  }

  /** POST /create. */
  method CreateJobPostRoute(store: JobStore, header: Option<string>, verify: string -> Option<Claims>, body: JobPostBody)
    returns (reply: JobReply)
    requires store.Valid()
    modifies store
    ensures store.Valid()
    ensures ClientGate(header, verify).Reject? ==>
      reply == JobReply(ClientGate(header, verify).status, ClientGate(header, verify).message, None) && unchanged(store)
    ensures ClientGate(header, verify).Next? && ClientGate(header, verify).user.id.None? ==>
      reply == JobReply(401, "Unauthorized: user not found in token", None) && unchanged(store)
    ensures ClientGate(header, verify).Next? && ClientGate(header, verify).user.id.Some? && CreateCheck(body).Err? ==>
      reply == JobReply(400, CreateCheck(body).error, None) && unchanged(store)
  {
    var g := ClientGate(header, verify);
    if g.Reject? {
      return JobReply(g.status, g.message, None);
    }
    reply := CreateJobPost(store, g.user, body);
  }

  /** POST /my-posts/update/:id. */
  method UpdateJobPostRoute(store: JobStore, header: Option<string>, verify: string -> Option<Claims>, jobId: JobIdParam, body: JobPostBody)
    returns (reply: JobReply)
    requires store.Valid()
    modifies store
    ensures store.Valid()
    ensures ClientGate(header, verify).Reject? ==>
      reply == JobReply(ClientGate(header, verify).status, ClientGate(header, verify).message, None) && unchanged(store)
    ensures ClientGate(header, verify).Next? && ClientGate(header, verify).user.id.None? ==>
      reply == JobReply(401, "Unauthorized", None) && unchanged(store)
  {
    var g := ClientGate(header, verify);
    if g.Reject? {
      return JobReply(g.status, g.message, None);
    }
    reply := UpdateJobPostById(store, g.user, jobId, body);
  }

  /** DELETE /my-posts/delete/:id. */
  method DeleteJobPostRoute(store: JobStore, header: Option<string>, verify: string -> Option<Claims>, jobId: JobIdParam)
    returns (reply: JobReply)
    requires store.Valid()
    modifies store
    ensures store.Valid()
    ensures ClientGate(header, verify).Reject? ==>
      reply == JobReply(ClientGate(header, verify).status, ClientGate(header, verify).message, None) && unchanged(store)
    ensures ClientGate(header, verify).Next? && ClientGate(header, verify).user.id.None? ==>
      reply == JobReply(401, "Unauthorized", None) && unchanged(store)
  {
    var g := ClientGate(header, verify);
    if g.Reject? {
      return JobReply(g.status, g.message, None);
    }
    reply := DeleteClientJobPostById(store, g.user, jobId);
  }

  /** GET /my-posts with the listing handler behind the gates. */
  function ListJobPostsRoute(store: JobStore, header: Option<string>, verify: string -> Option<Claims>, q: ListQuery): (r: ListReply)
    reads store
    requires store.Valid()
    ensures ClientGate(header, verify).Reject? ==>
      r == ListReply(ClientGate(header, verify).status, ClientGate(header, verify).message, None, None)
    ensures ClientGate(header, verify).Next? ==>
      (r.status == 200 <==> ClientGate(header, verify).user.id.Some?)
  {
    match ClientGate(header, verify)
    case Reject(status, message) => ListReply(status, message, None, None)
    case Next(user) => GetClientJobPosts(store, user, q)
  }

  /** PUT /profile/update: `verifyAccessToken`, then the handler with
      `req.user?.id`. */
  method UpdateProfileRoute(db: UserStore, header: Option<string>, verify: string -> Option<Claims>, name: Option<string>, phone: Option<string>)
    returns (reply: UserController.ProfileReply)
    requires db.Valid()
    modifies db`users
    ensures db.Valid()
    ensures VerifyAccessToken(header, verify).Reject? ==>
      && reply == UserController.ProfileReply(VerifyAccessToken(header, verify).status, VerifyAccessToken(header, verify).message, None)
      && unchanged(db)
    ensures VerifyAccessToken(header, verify).Next? && VerifyAccessToken(header, verify).user.id.None? ==>
      reply == UserController.ProfileReply(401, "Not authenticated", None) && unchanged(db)
  {
    var g := VerifyAccessToken(header, verify);
    if g.Reject? {
      return UserController.ProfileReply(g.status, g.message, None);
    }
    reply := UserController.UpdateUserProfile(db, g.user.id, name, phone);
  }

  /** POST /profile/update/pin. */
  method ChangePinRoute(db: UserStore, header: Option<string>, verify: string -> Option<Claims>, oldPin: Option<string>, pin: Option<string>)
    returns (reply: UserController.UserReply)
    requires db.Valid()
    modifies db`users
    ensures db.Valid()
    ensures VerifyAccessToken(header, verify).Reject? ==>
      && reply == UserController.UserReply(VerifyAccessToken(header, verify).status, VerifyAccessToken(header, verify).message, None)
      && unchanged(db)
    ensures VerifyAccessToken(header, verify).Next? && VerifyAccessToken(header, verify).user.id.None? ==>
      reply == UserController.UserReply(401, "Not authenticated", None) && unchanged(db)
  {
    var g := VerifyAccessToken(header, verify);
    if g.Reject? {
      return UserController.UserReply(g.status, g.message, None);
    }
    reply := UserController.ChangeUserPin(db, g.user.id, oldPin, pin);
  }

  /** GET /profile. */
  function ProfileRoute(db: UserStore, header: Option<string>, verify: string -> Option<Claims>): (r: (int, Option<UserController.ProfileInfo>))
    reads db
    ensures VerifyAccessToken(header, verify).Reject? ==> r == (VerifyAccessToken(header, verify).status, None)
    ensures VerifyAccessToken(header, verify).Next? && VerifyAccessToken(header, verify).user.id.None? ==> r == (404, None)
    ensures r.0 == 200 ==> r.1.Some? && r.1.value.id == VerifyAccessToken(header, verify).user.id.value
  {
    match VerifyAccessToken(header, verify)
    case Reject(status, _) => (status, None)
    case Next(user) => UserController.GetProfileInfo(db, user)
  }

  /** The bearer header carrying token text `t`, where `jwt.verify` reads `t`
      as `token`: `verify` maps `t` to what verifying `token` at `now` gives. */
  function TokenReader(t: string, token: Token, now: int): (verify: string -> Option<Claims>)
    ensures verify(t) == Verify(token, AccessSecret, now)
  {
    s => if s == t then Verify(token, AccessSecret, now) else None
  }

  /** A client's fresh access token from authController.js passes both gates
      with `{ sub, role }` and no `id`, while one from userController.js
      passes with its `id`. */
  lemma {:induction false} GatesPassClaimsAsSigned(u: User, t: string, now: int, later: int)
    requires u.role == Client && t != "" && ' ' !in t && now <= later < now + AccessLifetime
    ensures var g := ClientGate(Some(BearerPrefix + t), TokenReader(t, Sign(AccessSecret, AuthController.SubClaims(u), now, AccessLifetime), later));
      g.Next? && g.user.id.None? && g.user.sub == Some(u.id)
    ensures var g := ClientGate(Some(BearerPrefix + t), TokenReader(t, Sign(AccessSecret, UserController.IdClaims(u), now, AccessLifetime), later));
      g.Next? && g.user.id == Some(u.id)
  {
    var sub := AuthController.SubClaims(u);
    var ids := UserController.IdClaims(u);
    SignThenVerify(AccessSecret, sub, now, AccessLifetime, later, RefreshSecret);
    SignThenVerify(AccessSecret, ids, now, AccessLifetime, later, RefreshSecret);
    AcceptsVerifiedBearer(t, sub, TokenReader(t, Sign(AccessSecret, sub, now, AccessLifetime), later));
    AcceptsVerifiedBearer(t, ids, TokenReader(t, Sign(AccessSecret, ids, now, AccessLifetime), later));
  }

  /** A client who logs in through authController.js and presents the access
      token it returned, before it expires, cannot create a job post: the
      request passes both gates and the handler answers 401, storing nothing. */
  method AuthLoginThenCreate(sessions: SessionStore, users: map<UserId, User>, jobs: JobStore,
                             phone: string, pin: string, now: int, later: int, t: string, body: JobPostBody)
    returns (login: Reply, created: JobReply)
    requires sessions.Valid() && WellKeyed(users) && UniquePhones(users) && jobs.Valid()
    requires CheckCredentials(users, Some(phone), Some(pin)).Accepted?
    requires CheckCredentials(users, Some(phone), Some(pin)).user.role == Client
    requires t != "" && ' ' !in t && now <= later < now + AccessLifetime
    modifies sessions, jobs
    ensures login.status == 200
    ensures created == JobReply(401, "Unauthorized: user not found in token", None)
    ensures unchanged(jobs)
  {
    login := AuthController.LoginUser(sessions, users, Some(phone), Some(pin), now);
    GatesPassClaimsAsSigned(CheckCredentials(users, Some(phone), Some(pin)).user, t, now, later);
    created := CreateJobPostRoute(jobs, Some(BearerPrefix + t), TokenReader(t, login.accessToken.value, later), body);
  }

  /** The same token at GET /profile: verified, then 404 as if the user did
      not exist. */
  lemma {:induction false} AuthTokenProfileNotFound(db: UserStore, u: User, t: string, now: int, later: int)
    requires t != "" && ' ' !in t && now <= later < now + AccessLifetime
    ensures ProfileRoute(db, Some(BearerPrefix + t),
                         TokenReader(t, Sign(AccessSecret, AuthController.SubClaims(u), now, AccessLifetime), later)) == (404, None)
  {
    var sub := AuthController.SubClaims(u);
    SignThenVerify(AccessSecret, sub, now, AccessLifetime, later, RefreshSecret);
    AcceptsVerifiedBearer(t, sub, TokenReader(t, Sign(AccessSecret, sub, now, AccessLifetime), later));
  }
}
