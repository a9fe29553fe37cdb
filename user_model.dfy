/** The `User` collection: the record shape of userSchema.js, its enums and
    defaults, and the store that keeps phone numbers unique. */
module UserModel {
  import opened Common
  import opened Crypto

  datatype Role = Client | Contractor

  datatype Status = Pending | Active | Inactive | Banned

  function RoleName(r: Role): string {
    match r
    case Client => "client"
    case Contractor => "contractor"
  }

  /** The role enum check: which strings name a role. */
  function RoleFromName(s: string): (r: Option<Role>)
    ensures r.Some? <==> s == "client" || s == "contractor"
    ensures r.Some? ==> RoleName(r.value) == s
  {
    if s == "client" then Some(Client)
    else if s == "contractor" then Some(Contractor)
    else None
  }

  lemma {:induction false} RoleNameRoundTrip(r: Role)
    ensures RoleFromName(RoleName(r)) == Some(r)
  {
  }

  /** A user document. `name` is required and stored trimmed, `phone` is
      required and unique, `pin` is optional and only ever holds a hash.
      `email` and `address` play no part in the handlers and are left out. */
  datatype User = User(
    id: UserId,
    name: string,
    phone: string,
    role: Role,
    status: Status,
    isApproved: bool,
    pin: Option<PinHash>)

  /** A new document as the schema creates it from the required fields:
      status "pending", not approved, no PIN. */
  function NewUser(id: UserId, name: string, phone: string, role: Role): (u: User)
    ensures u.status == Pending && !u.isApproved && u.pin == None
    ensures u.name == Trim(name) && u.phone == phone && u.role == role && u.id == id
  {
    User(id, Trim(name), phone, role, Pending, false, None)
  }

  /** The mongoose `required` validators on a document about to be saved. */
  predicate SchemaValid(u: User) {
    u.name != "" && u.phone != ""
  }

  /** A new document passes the `required` validators exactly when its name
      is not blank once trimmed and its phone is not empty. */
  lemma {:induction false} NewUserSchemaValid(id: UserId, name: string, phone: string, role: Role)
    ensures SchemaValid(NewUser(id, name, phone, role)) <==>
      (exists i :: 0 <= i < |name| && !IsJsSpace(name[i])) && phone != ""
  {
  }

  /** The user projection handlers return: everything but the PIN hash. */
  datatype PublicUser = PublicUser(
    id: UserId,
    name: string,
    phone: string,
    role: Role,
    status: Status,
    isApproved: bool)

  function Sanitize(u: User): (p: PublicUser)
    ensures p.id == u.id && p.name == u.name && p.phone == u.phone
    ensures p.role == u.role && p.status == u.status && p.isApproved == u.isApproved
  {
    PublicUser(u.id, u.name, u.phone, u.role, u.status, u.isApproved)
  }

  predicate PhoneTaken(users: map<UserId, User>, phone: string) {
    exists id :: id in users && users[id].phone == phone
  }

  /** Every document is filed under its own `_id`. */
  ghost predicate WellKeyed(users: map<UserId, User>) {
    forall id :: id in users ==> users[id].id == id
  }

  /** The unique index on `phone`. */
  ghost predicate UniquePhones(users: map<UserId, User>) {
    forall a, b :: a in users && b in users && a != b ==> users[a].phone != users[b].phone
  }

  /** `User.findOne({ phone })`. */
  function FindByPhone(users: map<UserId, User>, phone: string): (r: Option<User>)
    requires WellKeyed(users) && UniquePhones(users)
    ensures r.Some? <==> PhoneTaken(users, phone)
    ensures r.Some? ==> r.value.id in users && users[r.value.id] == r.value && r.value.phone == phone
  {
    if PhoneTaken(users, phone) then
      var id :| id in users && users[id].phone == phone;
      Some(users[id])
    else None
  }

  /** Under the unique index, looking a stored user's phone up finds that user. */
  lemma {:induction false} PhoneLookupFindsHolder(users: map<UserId, User>, id: UserId)
    requires WellKeyed(users) && UniquePhones(users) && id in users
    ensures FindByPhone(users, users[id].phone) == Some(users[id])
  {
  }

  class UserStore {
    var users: map<UserId, User>
    var nextUserId: UserId

    /** Every document is filed under its own `_id`, ids come from a counter
        that has not yet reached them, documents pass the schema validators,
        and no two documents share a phone number. */
    ghost predicate Valid()
      reads this
      ensures Valid() ==> nextUserId !in users
    {
      && WellKeyed(users)
      && (forall id :: id in users ==> id < nextUserId && SchemaValid(users[id]))
      && UniquePhones(users)
    }

    constructor ()
      ensures Valid() && users == map[]
    {
      users := map[];
      nextUserId := 0;
    }
  }
}
