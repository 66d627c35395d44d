/**
 * The user entity (internal/domain/entities/user.go) and the hooks the ORM
 * runs on it before an insert and before an update. Both hooks overwrite
 * the entity's fields in place. Password hashing is an abstract Hasher.
 */
module Users {
  import opened Wrappers
  import opened Clock
  import opened Errors
  import opened Roles
  import opened Uuid

  /** A stored user row; `deletedAt` is the soft-delete time when set. */
  datatype UserRecord = UserRecord(
    id: Id,
    firstName: string,
    lastName: string,
    middleName: string,
    phone: string,
    password: string,
    role: Role,
    photo: string,
    isActive: bool,
    createdAt: Time,
    updatedAt: Time,
    deletedAt: Option<Time>)

  /** bcrypt seen from outside: a digest of a password, and whether a candidate matches a digest. */
  datatype Hasher = Hasher(digest: string -> string, matches: (string, string) -> bool)

  const ShortPassword: Error := Text("password must be at least 8 characters long")
  const PasswordMismatch: Error := Text("crypto/bcrypt: hashedPassword is not the hash of the given password")

  /** crypto.HashPassword: refuses passwords under 8 characters, otherwise digests. */
  function HashPassword(h: Hasher, password: string): (r: Result<string, Error>)
    ensures r.Err? <==> |password| < 8
    ensures r.Err? ==> r.error == ShortPassword
    ensures r.Ok? ==> r.value == h.digest(password)
  {
    if |password| < 8 then Err(ShortPassword) else Ok(h.digest(password))
  }

  /**
   * What BeforeCreate does to a row: a nil id gets `freshId`; a non-empty
   * password is replaced by its digest, and a hashing failure stops the
   * hook there; an empty role becomes "user"; a role that is not valid
   * fails with ErrInvalidUserRole. Steps already taken stay taken.
   */
  function CreateHook(r: UserRecord, freshId: Id, h: Hasher): (res: (UserRecord, Option<Error>))
    ensures res.1 == Some(ShortPassword) <==> r.password != "" && |r.password| < 8
    ensures res.1 == Some(Sentinel(InvalidUserRole)) <==> (r.password == "" || |r.password| >= 8) && r.role != "" && !IsValid(r.role)
    ensures res.1.None? <==> (r.password == "" || |r.password| >= 8) && (r.role == "" || IsValid(r.role))
  {
    var withId := r.(id := if r.id == Nil then freshId else r.id);
    if r.password != "" && HashPassword(h, r.password).Err? then
      (withId, Some(HashPassword(h, r.password).error))
    else
      var hashed := withId.(password := if r.password == "" then "" else HashPassword(h, r.password).value);
      var defaulted := hashed.(role := if r.role == "" then Roles.User else r.role);
      (defaulted, if IsValid(defaulted.role) then None else Some(Sentinel(InvalidUserRole)))
  }

  /**
   * What BeforeUpdate does to a row: the password is re-hashed only when
   * the update changes it and it is not empty; the role is checked only
   * when the update changes it. Which fields changed is the ORM's answer.
   */
  function UpdateHook(r: UserRecord, passwordChanged: bool, roleChanged: bool, h: Hasher): (res: (UserRecord, Option<Error>))
    ensures res.1 == Some(ShortPassword) <==> passwordChanged && r.password != "" && |r.password| < 8
    ensures res.1 == Some(Sentinel(InvalidUserRole)) <==>
      !(passwordChanged && r.password != "" && |r.password| < 8) && roleChanged && !IsValid(r.role)
    ensures res.1.None? <==> !(passwordChanged && r.password != "" && |r.password| < 8) && (!roleChanged || IsValid(r.role))
  {
    if passwordChanged && r.password != "" && HashPassword(h, r.password).Err? then
      (r, Some(HashPassword(h, r.password).error))
    else
      var hashed := r.(password := if passwordChanged && r.password != "" then HashPassword(h, r.password).value else r.password);
      (hashed, if roleChanged && !IsValid(r.role) then Some(Sentinel(InvalidUserRole)) else None)
  }

  /** A hasher whose digests verify the passwords they were made from. */
  ghost predicate SoundHasher(h: Hasher) {
    forall p :: h.matches(h.digest(p), p)
  }

  /** Only id, password and role can change on create; the id is kept unless nil. */
  lemma CreateHookTouches(r: UserRecord, freshId: Id, h: Hasher)
    ensures var (after, _) := CreateHook(r, freshId, h);
      after.(id := r.id, password := r.password, role := r.role) == r
      && after.id == (if r.id == Nil then freshId else r.id)
  {
  }

  /** A successful create leaves a valid role, "user" when none was given. */
  lemma CreateHookRole(r: UserRecord, freshId: Id, h: Hasher)
    ensures var (after, err) := CreateHook(r, freshId, h);
      err.None? ==> IsValid(after.role) && (r.role == "" ==> after.role == Roles.User) && (r.role != "" ==> after.role == r.role)
  {
  }

  /** A short non-empty password stops the create before the role is looked at. */
  lemma CreateHookShortPassword(r: UserRecord, freshId: Id, h: Hasher)
    requires r.password != "" && |r.password| < 8
    ensures CreateHook(r, freshId, h) == (r.(id := if r.id == Nil then freshId else r.id), Some(ShortPassword))
  {
  }

  /** After a successful create with a sound hasher, the original password checks against the stored one. */
  lemma CreateHookPasswordVerifies(r: UserRecord, freshId: Id, h: Hasher)
    requires SoundHasher(h) && r.password != ""
    requires CreateHook(r, freshId, h).1.None?
    ensures h.matches(CreateHook(r, freshId, h).0.password, r.password)
  {
    assert CreateHook(r, freshId, h).0.password == h.digest(r.password);
  }

  /** An update that changes neither password nor role leaves the row as it is and succeeds. */
  lemma UpdateHookUntouched(r: UserRecord, h: Hasher)
    ensures UpdateHook(r, false, false, h) == (r, None)
  {
  }

  /**
   * Only the password can change on update: it is replaced by its digest
   * when the update changes it and it has at least 8 characters, and left
   * as it is otherwise. An unchanged role is never refused.
   */
  lemma UpdateHookTouches(r: UserRecord, passwordChanged: bool, roleChanged: bool, h: Hasher)
    ensures var (after, err) := UpdateHook(r, passwordChanged, roleChanged, h);
      after.(password := r.password) == r
      && (after.password != r.password ==> passwordChanged && r.password != "" && after.password == h.digest(r.password))
      && (passwordChanged && |r.password| >= 8 ==> after.password == h.digest(r.password))
      && (!passwordChanged || |r.password| < 8 ==> after.password == r.password)
      && (!roleChanged ==> err != Some(Sentinel(InvalidUserRole)))
  {
  }

  class User {
    var id: Id
    var firstName: string
    var lastName: string
    var middleName: string
    var phone: string
    var password: string
    var role: Role
    var photo: string
    var isActive: bool
    var createdAt: Time
    var updatedAt: Time
    var deletedAt: Option<Time>

    /** The row this object holds. */
    function Snapshot(): UserRecord
      reads this
    {
      UserRecord(id, firstName, lastName, middleName, phone, password, role, photo, isActive, createdAt, updatedAt, deletedAt)
    }

    /** Loads a row into a fresh object. */
    constructor (r: UserRecord)
      ensures Snapshot() == r
    {
      id, firstName, lastName, middleName := r.id, r.firstName, r.lastName, r.middleName;
      phone, password, role, photo := r.phone, r.password, r.role, r.photo;
      isActive, createdAt, updatedAt, deletedAt := r.isActive, r.createdAt, r.updatedAt, r.deletedAt;
    }

    /** BeforeCreate: the row is rewritten as CreateHook says, step by step. */
    method BeforeCreate(freshId: Id, h: Hasher) returns (err: Option<Error>)
      modifies this
      ensures (Snapshot(), err) == CreateHook(old(Snapshot()), freshId, h)
    {
      if id == Nil {
        id := freshId;
      }
      if password != "" {
        var hashed := HashPassword(h, password);
        match hashed {
          case Err(e) => return Some(e);
          case Ok(digest) => password := digest;
        }
      }
      if role == "" {
        role := Roles.User;
      }
      if !IsValid(role) {
        return Some(Sentinel(InvalidUserRole));
      }
      err := None;
    }

    /** BeforeUpdate: the row is rewritten as UpdateHook says. */
    method BeforeUpdate(passwordChanged: bool, roleChanged: bool, h: Hasher) returns (err: Option<Error>)
      modifies this
      ensures (Snapshot(), err) == UpdateHook(old(Snapshot()), passwordChanged, roleChanged, h)
    {
      if passwordChanged && password != "" {
        var hashed := HashPassword(h, password);
        match hashed {
          case Err(e) => return Some(e);
          case Ok(digest) => password := digest;
        }
      }
      if roleChanged && !IsValid(role) {
        return Some(Sentinel(InvalidUserRole));
      }
      err := None;
    }

    /** CheckPassword: exactly the hasher's verdict on (stored digest, candidate). */
    function CheckPassword(h: Hasher, candidate: string): (r: Option<Error>)
      reads this
      ensures r == None <==> h.matches(password, candidate)
      ensures r != None ==> r == Some(PasswordMismatch)
    {
      if h.matches(password, candidate) then None else Some(PasswordMismatch)
    }
  }
}
