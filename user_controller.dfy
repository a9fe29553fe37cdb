/** userController.js: registration, the mounted login handler, profile and
    PIN updates, and the profile projection, over the user store. */
module UserController {
  import opened Common
  import opened Crypto
  import opened UserModel
  import opened RefreshTokens
  import opened Credentials

  /** `/^\d{6}$/.test(pin)`. */
  predicate IsSixDigitPin(pin: string) {
    |pin| == 6 && AllDigits(pin)
  }

  datatype UserReply = UserReply(status: int, message: string, user: Option<PublicUser>)

  /** The 400 ladder of `createUser`, in source order: name and phone, then
      PIN, then role, then PIN format. */
  function RegistrationError(name: Option<string>, phone: Option<string>, role: Option<string>, pin: Option<string>): (e: Option<string>)
    ensures e.None? <==>
      Truthy(name) && Truthy(phone) && Truthy(pin) && role.Some? && RoleFromName(role.value).Some?
      && IsSixDigitPin(pin.value)
    ensures !Truthy(name) || !Truthy(phone) ==> e == Some("Name and phone are required")
    ensures Truthy(name) && Truthy(phone) && !Truthy(pin) ==> e == Some("PIN is required")
    ensures Truthy(name) && Truthy(phone) && Truthy(pin) && (role.None? || RoleFromName(role.value).None?)
      ==> e == Some("Invalid role")
    ensures (Truthy(name) && Truthy(phone) && Truthy(pin) && role.Some? && RoleFromName(role.value).Some?
             && !IsSixDigitPin(pin.value)) ==> e == Some("PIN must be exactly 6 digits")
  {
    if !Truthy(name) || !Truthy(phone) then Some("Name and phone are required")
    else if !Truthy(pin) then Some("PIN is required")
    else if role.None? || RoleFromName(role.value).None? then Some("Invalid role")
    else if !IsSixDigitPin(pin.value) then Some("PIN must be exactly 6 digits")
    else None
  }

  /** The document `createUser` inserts: the schema's new document with the
      PIN hashed, status "active" and approved. */
  function RegisteredUser(id: UserId, name: string, phone: string, role: Role, pin: string): (u: User)
    ensures u.status == Active && u.isApproved
    ensures u.pin == Some(Hash(pin)) && Compare(pin, u.pin.value)
    ensures u.id == id && u.name == Trim(name) && u.phone == phone && u.role == role
  {
    NewUser(id, name, phone, role).(pin := Some(Hash(pin)), status := Active, isApproved := true)
  }

  /** `createUser`: 400s from the ladder, 409 when the phone is already on
      file, otherwise one new user (201) whose reply omits the PIN hash. A
      name of white space only passes the `!name` check but is stored trimmed
      and fails the schema's `required`: the `User.create` error becomes 500.
      Every refusal inserts nothing. */
  method CreateUser(db: UserStore, name: Option<string>, phone: Option<string>, role: Option<string>, pin: Option<string>)
    returns (reply: UserReply)
    requires db.Valid()
    modifies db
    ensures db.Valid()
    ensures RegistrationError(name, phone, role, pin).Some? ==>
      reply == UserReply(400, RegistrationError(name, phone, role, pin).value, None) && unchanged(db)
    ensures RegistrationError(name, phone, role, pin).None? && PhoneTaken(old(db.users), phone.value) ==>
      reply == UserReply(409, "User already exists", None) && unchanged(db)
    ensures (RegistrationError(name, phone, role, pin).None? && !PhoneTaken(old(db.users), phone.value)
             && Trim(name.value) == "") ==>
      reply == UserReply(500, "Server error", None) && unchanged(db)
    ensures (RegistrationError(name, phone, role, pin).None? && !PhoneTaken(old(db.users), phone.value)
             && Trim(name.value) != "") ==>
      var id := old(db.nextUserId);
      var u := RegisteredUser(id, name.value, phone.value, RoleFromName(role.value).value, pin.value);
      && reply == UserReply(201, "User created", Some(Sanitize(u)))
      && db.users == old(db.users)[id := u] && db.nextUserId == id + 1
  {
    var e := RegistrationError(name, phone, role, pin);
    if e.Some? {
      return UserReply(400, e.value, None);
    }
    if PhoneTaken(db.users, phone.value) {
      return UserReply(409, "User already exists", None);
    }
    var id := db.nextUserId;
    var user := RegisteredUser(id, name.value, phone.value, RoleFromName(role.value).value, pin.value);
    if !SchemaValid(user) {
      return UserReply(500, "Server error", None);
    }
    db.users := db.users[id := user];
    db.nextUserId := id + 1;
    reply := UserReply(201, "User created", Some(Sanitize(user)));
  }

  /** The access-token claims this controller signs: `{ id, role }`. */
  function IdClaims(u: User): (c: Claims)
    ensures c.id == Some(u.id) && c.sub == None && c.role == Some(RoleName(u.role))
  {
    Claims(Some(u.id), None, Some(RoleName(u.role)), None, None)
  }

  /** `loginUser` (the handler mounted under /api/user): the shared ladder,
      then one new session record; the access token carries exactly
      `{ id, role }`. A refusal adds nothing. */
  method LoginUser(store: SessionStore, users: map<UserId, User>, phone: Option<string>, pin: Option<string>, now: int)
    returns (reply: Reply)
    requires store.Valid() && WellKeyed(users) && UniquePhones(users)
    modifies store
    ensures store.Valid()
    ensures match CheckCredentials(users, phone, pin)
      case Refused(status, message) =>
        && reply == Failure(status, message)
        && store.tokens == old(store.tokens) && store.nextTokenId == old(store.nextTokenId)
      case Accepted(u) =>
        var id := old(store.nextTokenId);
        && reply == Reply(200, "Login successful", Some(Sign(AccessSecret, IdClaims(u), now, AccessLifetime)),
                          Some(Sanitize(u)), SetCookie(Sign(RefreshSecret, JtiClaims(id), now, RefreshLifetime)))
        && store.tokens == old(store.tokens)[id := NewRecord(id, u.id, now + RefreshLifetime, now)]
        && store.nextTokenId == id + 1
  {
    var check := CheckCredentials(users, phone, pin);
    if check.Refused? {
      return Failure(check.status, check.message);
    }
    var user := check.user;
    var accessToken := Sign(AccessSecret, IdClaims(user), now, AccessLifetime);
    var refreshTokenJwt, tokenId, expiresAt := store.GenerateRefreshToken(user.id, now);
    reply := Reply(200, "Login successful", Some(accessToken), Some(Sanitize(user)), SetCookie(refreshTokenJwt));
  }

  /** The phone normalisation of `updateUserProfile`: "+" followed by the
      input's digits, which must number 10 to 15. */
  function NormalizePhone(phone: string): (r: Option<string>)
    ensures r.Some? <==> 10 <= |DigitsOf(phone)| <= 15
    ensures r.Some? ==> |r.value| >= 11 && r.value[0] == '+' && AllDigits(r.value[1..])
    ensures r.Some? ==> r.value[1..] == DigitsOf(phone)
  {
    var digits := DigitsOf(phone);
    if |digits| < 10 || |digits| > 15 then None else Some("+" + digits)
  }

  /** Normalising a normalised phone gives it back unchanged. */
  lemma {:induction false} NormalizePhoneIdempotent(phone: string)
    requires NormalizePhone(phone).Some?
    ensures NormalizePhone(NormalizePhone(phone).value) == NormalizePhone(phone)
  {
    var n := NormalizePhone(phone).value;
    assert n[1..] == DigitsOf(phone);
    assert DigitsOf(n) == DigitsOf(n[1..]);
  }

  predicate PhoneHeldByOther(users: map<UserId, User>, phone: string, self: UserId) {
    exists id :: id in users && id != self && users[id].phone == phone
  }

  /** The reply data of a profile update: the user without id and PIN. */
  datatype ProfileData = ProfileData(name: string, phone: string, role: Role, status: Status, isApproved: bool)

  datatype ProfileReply = ProfileReply(status: int, message: string, data: Option<ProfileData>)

  /** What `updateUserProfile` decides once the user is found. */
  datatype ProfileEdit = Unchanged | Changed(user: User) | Refuse(status: int, message: string)

  /** The name the update assigns, if it changes: the trimmed input, when
      that is not empty and differs from the stored name. */
  function NameChange(current: string, name: Option<string>): (r: Option<string>)
    ensures r.Some? ==> name.Some? && r.value != "" && r.value != current && r.value == Trim(name.value)
    ensures r.None? ==> name.None? || Trim(name.value) == "" || Trim(name.value) == current
  {
    if name.Some? && Trim(name.value) != "" && Trim(name.value) != current then Some(Trim(name.value)) else None
  }

  predicate PhoneRequested(phone: Option<string>) {
    phone.Some? && Trim(phone.value) != ""
  }

  function EditProfile(users: map<UserId, User>, uid: UserId, name: Option<string>, phone: Option<string>): (r: ProfileEdit)
    requires uid in users
    ensures r.Refuse? ==> PhoneRequested(phone)
    ensures r == Refuse(400, "Phone must be 10-15 digits") <==> PhoneRequested(phone) && NormalizePhone(phone.value).None?
    ensures r == Refuse(409, "Phone is already in use") <==>
      PhoneRequested(phone) && NormalizePhone(phone.value).Some?
      && NormalizePhone(phone.value).value != users[uid].phone
      && PhoneHeldByOther(users, NormalizePhone(phone.value).value, uid)
    ensures r.Changed? ==> r.user != users[uid] && r.user.(name := users[uid].name, phone := users[uid].phone) == users[uid]
    ensures r.Changed? && r.user.name != users[uid].name ==> Some(r.user.name) == NameChange(users[uid].name, name)
    ensures r.Changed? && r.user.phone != users[uid].phone ==>
      PhoneRequested(phone) && Some(r.user.phone) == NormalizePhone(phone.value)
      && !PhoneHeldByOther(users, r.user.phone, uid)
    ensures r == Unchanged ==>
      (NameChange(users[uid].name, name).None?
       && (!PhoneRequested(phone) || NormalizePhone(phone.value) == Some(users[uid].phone)))
  {
    var cur := users[uid];
    var newName := match NameChange(cur.name, name) case Some(n) => n case None => cur.name;
    if PhoneRequested(phone) && NormalizePhone(phone.value).None? then Refuse(400, "Phone must be 10-15 digits")
    else
      var newPhone := if PhoneRequested(phone) then NormalizePhone(phone.value).value else cur.phone;
      if newPhone != cur.phone && PhoneHeldByOther(users, newPhone, uid) then Refuse(409, "Phone is already in use")
      else if newName == cur.name && newPhone == cur.phone then Unchanged
      else Changed(cur.(name := newName, phone := newPhone))
  }

  /** The outcomes of an edit: the only refusals are the bad phone (400) and
      the phone held by another user (409), and a change applies every
      requested edit at once, the trimmed new name when it differs and the
      normalised phone when one is sent. */
  lemma {:induction false} EditOutcome(users: map<UserId, User>, uid: UserId, name: Option<string>, phone: Option<string>)
    requires uid in users
    ensures var r := EditProfile(users, uid, name, phone);
      r.Refuse? ==> r == Refuse(400, "Phone must be 10-15 digits") || r == Refuse(409, "Phone is already in use")
    ensures var r := EditProfile(users, uid, name, phone); var cur := users[uid];
      r.Changed? ==>
        r.user == cur.(name := if NameChange(cur.name, name).Some? then NameChange(cur.name, name).value else cur.name,
                       phone := if PhoneRequested(phone) then NormalizePhone(phone.value).value else cur.phone)
  {
    var r := EditProfile(users, uid, name, phone);
    assert r.Changed? && PhoneRequested(phone) ==> NormalizePhone(phone.value).Some?;
  }

  /** `updateUserProfile`: 401 without an authenticated `id`, 400 when
      neither field is given, 404 for an unknown user; then the decision of
      `EditProfile`. The record is saved only at the end, so every refusal,
      and "No changes detected", leaves the store as it was even when the
      name had already been assigned in memory. */
  method UpdateUserProfile(db: UserStore, userId: Option<UserId>, name: Option<string>, phone: Option<string>)
    returns (reply: ProfileReply)
    requires db.Valid()
    modifies db`users
    ensures db.Valid()
    ensures userId.None? ==> reply == ProfileReply(401, "Not authenticated", None) && unchanged(db)
    ensures userId.Some? && !Truthy(name) && !Truthy(phone) ==>
      reply == ProfileReply(400, "No fields to update", None) && unchanged(db)
    ensures userId.Some? && (Truthy(name) || Truthy(phone)) && userId.value !in old(db.users) ==>
      reply == ProfileReply(404, "User not found", None) && unchanged(db)
    ensures userId.Some? && (Truthy(name) || Truthy(phone)) && userId.value in old(db.users) ==>
      match EditProfile(old(db.users), userId.value, name, phone)
      case Refuse(status, message) => reply == ProfileReply(status, message, None) && unchanged(db)
      case Unchanged => reply == ProfileReply(200, "No changes detected", None) && unchanged(db)
      case Changed(u) =>
        && reply == ProfileReply(200, "Profile updated successfully", Some(ProfileData(u.name, u.phone, u.role, u.status, u.isApproved)))
        && db.users == old(db.users)[userId.value := u]
  {
    if userId.None? {
      return ProfileReply(401, "Not authenticated", None);
    }
    if !Truthy(name) && !Truthy(phone) {
      return ProfileReply(400, "No fields to update", None);
    }
    var uid := userId.value;
    if uid !in db.users {
      return ProfileReply(404, "User not found", None);
    }
    ghost var edit := EditProfile(db.users, uid, name, phone);
    var user := db.users[uid];
    var updated := false;
    if name.Some? && Trim(name.value) != "" && Trim(name.value) != user.name {
      user := user.(name := Trim(name.value));
      updated := true;
    }
    if phone.Some? && Trim(phone.value) != "" {
      var normalized := NormalizePhone(phone.value);
      if normalized.None? {
        return ProfileReply(400, "Phone must be 10-15 digits", None);
      }
      if normalized.value != user.phone {
        if PhoneHeldByOther(db.users, normalized.value, uid) {
          return ProfileReply(409, "Phone is already in use", None);
        }
        user := user.(phone := normalized.value);
        updated := true;
      }
    }
    if !updated {
      assert edit == Unchanged;
      return ProfileReply(200, "No changes detected", None);
    }
    assert edit == Changed(user);
    ChangedKeepsStoreValid(db.users, db.nextUserId, uid, name, phone);
    db.users := db.users[uid := user];
    reply := ProfileReply(200, "Profile updated successfully", Some(ProfileData(user.name, user.phone, user.role, user.status, user.isApproved)));
  }

  /** A profile edit keeps the store's invariant: the new name is non-empty,
      the new phone is non-empty and held by nobody else. */
  lemma {:induction false} ChangedKeepsStoreValid(users: map<UserId, User>, next: UserId, uid: UserId, name: Option<string>, phone: Option<string>)
    requires uid in users && EditProfile(users, uid, name, phone).Changed?
    requires WellKeyed(users) && UniquePhones(users)
    requires forall id :: id in users ==> id < next && SchemaValid(users[id])
    ensures var users' := users[uid := EditProfile(users, uid, name, phone).user];
      && WellKeyed(users') && UniquePhones(users')
      && (forall id :: id in users' ==> id < next && SchemaValid(users'[id]))
  {
    var u := EditProfile(users, uid, name, phone).user;
    assert u.id == uid && u.name != "" && u.phone != "" by {
      if u.phone != users[uid].phone {
        assert Some(u.phone) == NormalizePhone(phone.value);
      }
    }
    ReplaceKeepsStoreValid(users, next, uid, u);
  }

  /** Filing `u` under its own id keeps the invariant when `u` is valid and
      keeps the phone on file or takes one that nobody else holds. */
  lemma {:induction false} ReplaceKeepsStoreValid(users: map<UserId, User>, next: UserId, uid: UserId, u: User)
    requires uid in users && u.id == uid && SchemaValid(u)
    requires u.phone == users[uid].phone || !PhoneHeldByOther(users, u.phone, uid)
    requires WellKeyed(users) && UniquePhones(users)
    requires forall id :: id in users ==> id < next && SchemaValid(users[id])
    ensures var users' := users[uid := u];
      && WellKeyed(users') && UniquePhones(users')
      && (forall id :: id in users' ==> id < next && SchemaValid(users'[id]))
  {
    var users' := users[uid := u];
    forall a, b | a in users' && b in users' && a != b
      ensures users'[a].phone != users'[b].phone
    {
      if a == uid || b == uid {
        var other := if a == uid then b else a;
        assert other in users && other != uid;
        if u.phone == users[uid].phone {
          assert users[other].phone != users[uid].phone;
        }
      }
    }
  }

  /** `changeUserPin`: 401 without an authenticated `id`, 400 unless the new
      PIN is exactly six digits, 404 for an unknown user; when a PIN is on
      file the current one is required (400) and must match (401). Success
      stores the new PIN's hash and approves the user; nothing else changes. */
  method ChangeUserPin(db: UserStore, userId: Option<UserId>, oldPin: Option<string>, pin: Option<string>)
    returns (reply: UserReply)
    requires db.Valid()
    modifies db`users
    ensures db.Valid()
    ensures reply.status != 200 ==> unchanged(db)
    ensures userId.None? ==> reply == UserReply(401, "Not authenticated", None)
    ensures userId.Some? && (!Truthy(pin) || !IsSixDigitPin(pin.value)) ==>
      reply == UserReply(400, "New PIN must be exactly 6 digits", None)
    ensures userId.Some? && Truthy(pin) && IsSixDigitPin(pin.value) ==>
      if userId.value !in old(db.users) then reply == UserReply(404, "User not found", None)
      else
        var cur := old(db.users)[userId.value];
        if cur.pin.Some? && !Truthy(oldPin) then reply == UserReply(400, "Current PIN is required", None)
        else if cur.pin.Some? && !Compare(oldPin.value, cur.pin.value) then reply == UserReply(401, "Incorrect current PIN", None)
        else
          && reply == UserReply(200, "PIN updated successfully", None)
          && db.users == old(db.users)[userId.value := cur.(pin := Some(Hash(pin.value)), isApproved := true)]
  {
    if userId.None? {
      return UserReply(401, "Not authenticated", None);
    }
    if !Truthy(pin) || !IsSixDigitPin(pin.value) {
      return UserReply(400, "New PIN must be exactly 6 digits", None);
    }
    var uid := userId.value;
    if uid !in db.users {
      return UserReply(404, "User not found", None);
    }
    var user := db.users[uid];
    if user.pin.Some? {
      if !Truthy(oldPin) {
        return UserReply(400, "Current PIN is required", None);
      }
      if !Compare(oldPin.value, user.pin.value) {
        return UserReply(401, "Incorrect current PIN", None);
      }
    }
    user := user.(pin := Some(Hash(pin.value)), isApproved := true);
    db.users := db.users[uid := user];
    reply := UserReply(200, "PIN updated successfully", None);
  }

  /** After a PIN change the user can log in with the new PIN, and only with it. */
  lemma {:induction false} PinChangeEnablesLogin(users: map<UserId, User>, uid: UserId, pin: string, candidate: string)
    requires WellKeyed(users) && UniquePhones(users)
    requires uid in users && users[uid].phone != "" && pin != "" && candidate != ""
    ensures var users' := users[uid := users[uid].(pin := Some(Hash(pin)), isApproved := true)];
      WellKeyed(users') && UniquePhones(users')
      && CheckCredentials(users', Some(users[uid].phone), Some(candidate)) ==
           if candidate == pin then Accepted(users'[uid]) else Refused(401, "Invalid PIN")
  {
    var users' := users[uid := users[uid].(pin := Some(Hash(pin)), isApproved := true)];
    assert WellKeyed(users') && UniquePhones(users');
    ApprovedLoginIffPinMatches(users', uid, pin, candidate);
  }

  /** The projection `getProfileInfo` returns. */
  datatype ProfileInfo = ProfileInfo(id: UserId, name: string, phone: string, role: Role, status: Status)

  /** `getProfileInfo` for the authenticated claims: the user named by the
      `id` claim, or 404 (also when the token carries `sub` instead). */
  function GetProfileInfo(db: UserStore, user: Claims): (r: (int, Option<ProfileInfo>))
    reads db
    ensures r.0 == 200 <==> user.id.Some? && user.id.value in db.users
    ensures r.0 != 200 ==> r == (404, None)
    ensures r.0 == 200 ==>
      (var u := db.users[user.id.value];
       r.1 == Some(ProfileInfo(user.id.value, u.name, u.phone, u.role, u.status)))
  {
    if user.id.None? || user.id.value !in db.users then (404, None)
    else
      var u := db.users[user.id.value];
      (200, Some(ProfileInfo(user.id.value, u.name, u.phone, u.role, u.status)))
  }
}
