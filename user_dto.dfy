/**
 * Data-transfer objects for users (internal/domain/dto/user.go): the
 * response built from a stored row, the rows built from the two sign-up
 * requests, and the partial update that overwrites only the fields it
 * carries.
 */
module UserDto {
  import opened Wrappers
  import opened Clock
  import opened Roles
  import opened Uuid
  import opened Users

  /** What the API returns for a user; it carries no password. */
  datatype UserResponse = UserResponse(
    id: Id,
    firstName: string,
    lastName: string,
    middleName: string,
    phone: string,
    role: Role,
    photo: string,
    isActive: bool,
    createdAt: Time,
    updatedAt: Time,
    deletedAt: Option<Time>)

  /** A response as freshly declared: every field at its zero value. */
  const EmptyResponse: UserResponse := UserResponse(Nil, "", "", "", "", "", "", false, ZeroTime, ZeroTime, None)

  /** The dashboard sign-up form, which may name a role. */
  datatype UserDashboard = UserDashboard(firstName: string, lastName: string, middleName: string, password: string, phone: string, role: Role, photo: string)

  /** The public sign-up form, which has no role. */
  datatype UserRequest = UserRequest(firstName: string, lastName: string, middleName: string, password: string, phone: string, photo: string)

  /** A partial update: `None` leaves the field as it is. */
  datatype UserUpdate = UserUpdate(
    firstName: Option<string>,
    lastName: Option<string>,
    middleName: Option<string>,
    phone: Option<string>,
    role: Option<Role>,
    photo: Option<string>,
    isActive: Option<bool>)

  const NoChange: UserUpdate := UserUpdate(None, None, None, None, None, None, None)

  /** FromModel: every field of the response is overwritten from the row; whatever the response held before is gone. */
  function FromModel(dto: UserResponse, u: UserRecord): (r: UserResponse)
    ensures r.id == u.id && r.role == u.role && r.phone == u.phone && r.isActive == u.isActive
    ensures r.firstName == u.firstName && r.lastName == u.lastName && r.middleName == u.middleName && r.photo == u.photo
    ensures r.createdAt == u.createdAt && r.updatedAt == u.updatedAt && r.deletedAt == u.deletedAt
  {
    UserResponse(u.id, u.firstName, u.lastName, u.middleName, u.phone, u.role, u.photo, u.isActive, u.createdAt, u.updatedAt, u.deletedAt)
  }

  /** FromModelUser: as FromModel, except that the response keeps the role it already had. */
  function FromModelUser(dto: UserResponse, u: UserRecord): (r: UserResponse)
    ensures r.role == dto.role
    ensures r.id == u.id && r.phone == u.phone && r.isActive == u.isActive
    ensures r.firstName == u.firstName && r.lastName == u.lastName && r.middleName == u.middleName && r.photo == u.photo
    ensures r.createdAt == u.createdAt && r.updatedAt == u.updatedAt && r.deletedAt == u.deletedAt
  {
    UserResponse(u.id, u.firstName, u.lastName, u.middleName, u.phone, dto.role, u.photo, u.isActive, u.createdAt, u.updatedAt, u.deletedAt)
  }

  /** The response depends only on the row, and two rows give the same response exactly when they differ at most in the password. */
  lemma FromModelForgetsOnlyPassword(d1: UserResponse, d2: UserResponse, u1: UserRecord, u2: UserRecord)
    ensures FromModel(d1, u1) == FromModel(d2, u2) <==> u1.(password := u2.password) == u2
  {
    if FromModel(d1, u1) == FromModel(d2, u2) {
      assert u1.id == u2.id && u1.role == u2.role && u1.deletedAt == u2.deletedAt;
    }
  }

  /** FromModelUser differs from FromModel in the role only; on a fresh response that role is empty. */
  lemma FromModelUserKeepsRole(dto: UserResponse, u: UserRecord)
    ensures FromModelUser(dto, u) == FromModel(dto, u).(role := dto.role)
    ensures FromModelUser(EmptyResponse, u).role == ""
  {
  }

  /**
   * ToModel: a new row from the dashboard form. The role is copied
   * without validation, an empty one defaulting to "user"; the password
   * is the form's own, and `hashedPassword` is not used.
   */
  function ToModel(d: UserDashboard, hashedPassword: string): (r: UserRecord)
    ensures r.password == d.password
    ensures r.role == (if d.role == "" then Roles.User else d.role)
    ensures r.isActive && r.id == Nil && r.deletedAt.None?
    ensures r.firstName == d.firstName && r.lastName == d.lastName && r.middleName == d.middleName
    ensures r.phone == d.phone && r.photo == d.photo
  {
    var role := if d.role == "" then Roles.User else d.role;
    UserRecord(Nil, d.firstName, d.lastName, d.middleName, d.phone, d.password, role, d.photo, true, ZeroTime, ZeroTime, None)
  }

  /** ToModelUser: a new row from the public form, always with role "user". */
  function ToModelUser(d: UserRequest, hashedPassword: string): (r: UserRecord)
    ensures r.role == Roles.User && IsValid(r.role)
    ensures r.password == d.password && r.isActive && r.id == Nil
  {
    UserRecord(Nil, d.firstName, d.lastName, d.middleName, d.phone, d.password, Roles.User, d.photo, true, ZeroTime, ZeroTime, None)
  }

  /** The public form is the dashboard form with no role. */
  lemma ToModelUserIsToModelWithoutRole(d: UserRequest, hashedPassword: string)
    ensures ToModelUser(d, hashedPassword)
      == ToModel(UserDashboard(d.firstName, d.lastName, d.middleName, d.password, d.phone, "", d.photo), hashedPassword)
  {
  }

  /** The `hashedPassword` argument never matters. */
  lemma ToModelIgnoresHash(d: UserDashboard, h1: string, h2: string, q: UserRequest)
    ensures ToModel(d, h1) == ToModel(d, h2)
    ensures ToModelUser(q, h1) == ToModelUser(q, h2)
  {
  }

  /**
   * A row built by ToModel is created with the digest of the form's
   * password when that password has at least 8 characters, and the create
   * fails on the role exactly when a non-empty, invalid role was given.
   */
  lemma ToModelThenCreate(d: UserDashboard, hashedPassword: string, freshId: Id, h: Hasher)
    requires |d.password| >= 8
    ensures var (after, err) := CreateHook(ToModel(d, hashedPassword), freshId, h);
      after.password == h.digest(d.password) && after.id == freshId
      && (err.None? <==> d.role == "" || IsValid(d.role))
  {
  }

  /** The row a partial update produces: id, password and the three timestamps are out of its reach. */
  function Patched(u: UserRecord, p: UserUpdate): (v: UserRecord)
    ensures v.id == u.id && v.password == u.password
    ensures v.createdAt == u.createdAt && v.updatedAt == u.updatedAt && v.deletedAt == u.deletedAt
  {
    u.(firstName := p.firstName.GetOr(u.firstName),
       lastName := p.lastName.GetOr(u.lastName),
       middleName := p.middleName.GetOr(u.middleName),
       phone := p.phone.GetOr(u.phone),
       role := p.role.GetOr(u.role),
       photo := p.photo.GetOr(u.photo),
       isActive := p.isActive.GetOr(u.isActive))
  }

  /**
   * ApplyToModel: overwrites, field by field, exactly the fields the update carries;
   * a field it does not carry is written back as it was.
   */
  method ApplyToModel(p: UserUpdate, user: User)
    modifies user
    ensures user.Snapshot() == Patched(old(user.Snapshot()), p)
  {
    user.firstName := p.firstName.GetOr(user.firstName);
    user.lastName := p.lastName.GetOr(user.lastName);
    user.middleName := p.middleName.GetOr(user.middleName);
    user.phone := p.phone.GetOr(user.phone);
    user.role := p.role.GetOr(user.role);
    user.photo := p.photo.GetOr(user.photo);
    user.isActive := p.isActive.GetOr(user.isActive);
  }

  /** A field the patch carries takes the patch's value; a field it does not carry keeps the row's. */
  lemma PatchOverwritesCarried(u: UserRecord, p: UserUpdate)
    ensures var v := Patched(u, p);
      (p.phone.Some? ==> v.phone == p.phone.value) && (p.phone.None? ==> v.phone == u.phone)
      && (p.role.Some? ==> v.role == p.role.value) && (p.role.None? ==> v.role == u.role)
      && (p.isActive.Some? ==> v.isActive == p.isActive.value) && (p.isActive.None? ==> v.isActive == u.isActive)
      && (p.firstName.Some? ==> v.firstName == p.firstName.value) && (p.firstName.None? ==> v.firstName == u.firstName)
      && (p.lastName.Some? ==> v.lastName == p.lastName.value) && (p.lastName.None? ==> v.lastName == u.lastName)
      && (p.middleName.Some? ==> v.middleName == p.middleName.value) && (p.middleName.None? ==> v.middleName == u.middleName)
      && (p.photo.Some? ==> v.photo == p.photo.value) && (p.photo.None? ==> v.photo == u.photo)
  {
  }

  /** The empty patch changes nothing. */
  lemma PatchIdentity(u: UserRecord)
    ensures Patched(u, NoChange) == u
  {
  }

  /** Applying the same patch twice is applying it once. */
  lemma PatchIdempotent(u: UserRecord, p: UserUpdate)
    ensures Patched(Patched(u, p), p) == Patched(u, p)
  {
  }

  /**
   * Two patches merged into one: the later one's fields, and the earlier
   * one's where the later carries none. It has no counterpart in the
   * program; PatchesComposeLaterWins gives it its meaning.
   */
  function Merged(p: UserUpdate, q: UserUpdate): (m: UserUpdate)
    ensures m == NoChange <==> p == NoChange && q == NoChange
  {
    UserUpdate(
      if q.firstName.Some? then q.firstName else p.firstName,
      if q.lastName.Some? then q.lastName else p.lastName,
      if q.middleName.Some? then q.middleName else p.middleName,
      if q.phone.Some? then q.phone else p.phone,
      if q.role.Some? then q.role else p.role,
      if q.photo.Some? then q.photo else p.photo,
      if q.isActive.Some? then q.isActive else p.isActive)
  }

  /** Of two patches in a row, the later one wins on the fields it carries; the earlier one's other changes stay. */
  lemma PatchesComposeLaterWins(u: UserRecord, p: UserUpdate, q: UserUpdate)
    ensures Patched(Patched(u, p), q) == Patched(u, Merged(p, q))
    ensures q.role.None? && p.role.Some? ==> Patched(Patched(u, p), q).role == p.role.value
  {
  }
}
