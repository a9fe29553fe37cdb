/** What the two login handlers (authController.js and userController.js)
    share: the ladder of checks on phone and PIN, and the shape of the replies
    the session handlers send. */
module Credentials {
  import opened Common
  import opened Crypto
  import opened UserModel

  /** What a session handler does to the `refreshToken` cookie. */
  datatype CookieEffect = KeepCookie | SetCookie(token: Token) | ClearCookie

  /** A reply: status code, message, and the parts of the body and headers
      the handlers fill in. */
  datatype Reply = Reply(
    status: int,
    message: string,
    accessToken: Option<Token>,
    user: Option<PublicUser>,
    cookie: CookieEffect)

  /** An error reply: no token, no user, cookie untouched. */
  function Failure(status: int, message: string): Reply {
    Reply(status, message, None, None, KeepCookie)
  }

  datatype LoginCheck = Accepted(user: User) | Refused(status: int, message: string)

  /** The login ladder: 400 when phone or PIN is missing, 404 for an unknown
      phone, 403 for an unapproved user (before the PIN is looked at), 401 for
      a wrong PIN. A user without a stored PIN makes `bcrypt.compare` throw,
      which the handler's catch turns into 500. */
  function CheckCredentials(users: map<UserId, User>, phone: Option<string>, pin: Option<string>): (r: LoginCheck)
    requires WellKeyed(users) && UniquePhones(users)
    ensures !Truthy(phone) || !Truthy(pin) ==> r == Refused(400, "Phone and PIN are required")
    ensures Truthy(phone) && Truthy(pin) && !PhoneTaken(users, phone.value) ==> r == Refused(404, "User not found")
    ensures r == Refused(403, "User not approved yet") <==>
      Truthy(phone) && Truthy(pin) && (exists id :: id in users && users[id].phone == phone.value && !users[id].isApproved)
    ensures r == Refused(401, "Invalid PIN") <==>
      Truthy(phone) && Truthy(pin) && (exists id :: id in users && users[id].phone == phone.value && users[id].isApproved
                                                && users[id].pin.Some? && !Compare(pin.value, users[id].pin.value))
    ensures r == Refused(500, "Failed to login") <==>
      Truthy(phone) && Truthy(pin) && (exists id :: id in users && users[id].phone == phone.value && users[id].isApproved
                                                && users[id].pin.None?)
    ensures r.Accepted? <==>
      Truthy(phone) && Truthy(pin) && (exists id :: id in users && users[id].phone == phone.value && users[id].isApproved
                                                && users[id].pin.Some? && Compare(pin.value, users[id].pin.value))
    ensures r.Accepted? ==> r.user.id in users && users[r.user.id] == r.user && r.user.phone == phone.value
  {
    if !Truthy(phone) || !Truthy(pin) then Refused(400, "Phone and PIN are required")
    else match FindByPhone(users, phone.value)
      case None => Refused(404, "User not found")
      case Some(u) =>
        if !u.isApproved then Refused(403, "User not approved yet")
        else if u.pin.None? then Refused(500, "Failed to login")
        else if !Compare(pin.value, u.pin.value) then Refused(401, "Invalid PIN")
        else Accepted(u)
  }

  /** An unapproved user is refused with 403 whatever PIN is offered, the
      right one included. */
  lemma {:induction false} UnapprovedRefusedWhateverPin(users: map<UserId, User>, id: UserId, pin: string)
    requires WellKeyed(users) && UniquePhones(users)
    requires id in users && !users[id].isApproved && users[id].phone != "" && pin != ""
    ensures CheckCredentials(users, Some(users[id].phone), Some(pin)) == Refused(403, "User not approved yet")
  {
  }

  /** An approved user with a PIN logs in with that PIN and with no other. */
  lemma {:induction false} ApprovedLoginIffPinMatches(users: map<UserId, User>, id: UserId, pin: string, candidate: string)
    requires WellKeyed(users) && UniquePhones(users)
    requires id in users && users[id].isApproved && users[id].pin == Some(Hash(pin)) && users[id].phone != ""
    requires candidate != ""
    ensures CheckCredentials(users, Some(users[id].phone), Some(candidate)) ==
      if candidate == pin then Accepted(users[id]) else Refused(401, "Invalid PIN")
  {
  }
}
