/**
 * The user service (internal/domain/services/user_service.go): listing and
 * fetching users as responses, the partial update with an optional photo,
 * and deletion, over the user table. The photo upload is given as its
 * outcome: `None` when no file came with the request.
 */
module UserService {
  import opened Wrappers
  import opened Clock
  import opened Errors
  import opened Uuid
  import opened Users
  import opened UserDto
  import opened Repository

  const PhotoFailed: string := "ошибка при сохранении фото"

  /** saveUserPhoto for a file that is present: the stored path, or the upload's error wrapped. */
  function SaveUserPhoto(upload: Result<string, Error>): (r: Result<string, Error>)
    ensures r.Ok? <==> upload.Ok?
    ensures r.Ok? ==> r.value == upload.value
    ensures r.Err? ==> r.error == Wrapped(PhotoFailed, upload.error) && Describe(r.error) == PhotoFailed + ": " + Describe(upload.error)
  {
    match upload
    case Ok(path) => Ok(path)
    case Err(e) => Err(Wrapped(PhotoFailed, e))
  }

  /** The row Patch hands to the table: the update applied, the new photo if any, and `now` as the update time. */
  function Edited(row: UserRecord, p: UserUpdate, photo: Option<string>, now: Time): (r: UserRecord)
    ensures r.id == row.id && r.password == row.password && r.createdAt == row.createdAt && r.deletedAt == row.deletedAt
    ensures r.updatedAt == now
    ensures r.photo == (if photo.Some? then photo.value else Patched(row, p).photo)
    ensures r == Patched(row, p).(photo := r.photo, updatedAt := now)
  {
    var patched := Patched(row, p);
    patched.(photo := if photo.Some? then photo.value else patched.photo, updatedAt := now)
  }

  /** GetAll: one response per visible row, in table order; a failed query reads as ErrUserNotFound. */
  method GetAll(repo: UserRepository, fault: Option<Error>) returns (r: Result<seq<UserResponse>, Error>)
    ensures fault.Some? ==> r == Err(Sentinel(UserNotFound))
    ensures fault.None? ==> (r.Ok? && |r.value| == |LiveRows(repo.rows)|
      && forall i :: 0 <= i < |r.value| ==> r.value[i] == FromModel(EmptyResponse, LiveRows(repo.rows)[i]))
  {
    var users := repo.Get(fault);
    if users.Err? {
      return Err(Sentinel(UserNotFound));
    }
    var response: seq<UserResponse> := [];
    for k := 0 to |users.value|
      invariant |response| == k
      invariant forall i :: 0 <= i < k ==> response[i] == FromModel(EmptyResponse, users.value[i])
    {
      response := response + [FromModel(EmptyResponse, users.value[k])];
    }
    r := Ok(response);
  }

  /** UserID: the response for the row with the id; any failure reads as ErrUserNotFound. */
  method UserId(repo: UserRepository, id: Id, fault: Option<Error>) returns (r: Result<UserResponse, Error>)
    ensures r == match ById(repo.rows, id, fault)
                 case Err(_) => Err(Sentinel(UserNotFound))
                 case Ok(row) => Ok(FromModel(EmptyResponse, row))
  {
    var user := repo.GetId(id, fault);
    match user {
      case Err(_) => return Err(Sentinel(UserNotFound));
      case Ok(u) => return Ok(FromModel(EmptyResponse, u.Snapshot()));
    }
  }

  /** GetByPhone: the response for the row with the phone; any failure reads as ErrUserNotFound. */
  method GetByPhone(repo: UserRepository, phone: string, fault: Option<Error>) returns (r: Result<UserResponse, Error>)
    ensures r == match ByPhone(repo.rows, phone, fault)
                 case Err(_) => Err(Sentinel(UserNotFound))
                 case Ok(row) => Ok(FromModel(EmptyResponse, row))
  {
    var user := repo.FindByPhone(phone, fault);
    match user {
      case Err(_) => return Err(Sentinel(UserNotFound));
      case Ok(u) => return Ok(FromModel(EmptyResponse, u.Snapshot()));
    }
  }

  /**
   * Patch: the nil id is refused before the table is touched; a missing
   * row is ErrUserNotFound; a failed upload stops before anything is
   * written; otherwise the edited row goes through the table's Update and
   * any failure there reads as ErrUpdateConflict.
   */
  method Patch(repo: UserRepository, id: Id, p: UserUpdate, upload: Option<Result<string, Error>>, now: Time,
               passwordChanged: bool, roleChanged: bool, h: Hasher, readFault: Option<Error>, writeFault: Option<Error>)
    returns (r: Result<UserResponse, Error>)
    requires repo.Valid()
    modifies repo
    ensures repo.Valid()
    ensures id == Nil ==> r == Err(Sentinel(InvalidUuid)) && repo.rows == old(repo.rows)
    ensures id != Nil && ById(old(repo.rows), id, readFault).Err? ==>
      r == Err(Sentinel(UserNotFound)) && repo.rows == old(repo.rows)
    ensures id != Nil && ById(old(repo.rows), id, readFault).Ok? && upload.Some? && upload.value.Err? ==>
      r == Err(Wrapped(PhotoFailed, upload.value.error)) && repo.rows == old(repo.rows)
    ensures id != Nil && ById(old(repo.rows), id, readFault).Ok? && (upload.None? || upload.value.Ok?) ==>
      var photo := if upload.Some? then Some(upload.value.value) else None;
      var (hooked, err, after) := Update(old(repo.rows), Edited(ById(old(repo.rows), id, readFault).value, p, photo, now),
                                         passwordChanged, roleChanged, h, writeFault);
      repo.rows == after && r == (if err.Some? then Err(Sentinel(UpdateConflict)) else Ok(FromModel(EmptyResponse, hooked)))
  {
    if id == Nil {
      return Err(Sentinel(InvalidUuid));
    }
    var found := repo.GetId(id, readFault);
    if found.Err? {
      return Err(Sentinel(UserNotFound));
    }
    var user := found.value;
    ghost var row := user.Snapshot();
    ApplyToModel(p, user);
    if upload.Some? {
      var saved := SaveUserPhoto(upload.value);
      if saved.Err? {
        return Err(saved.error);
      }
      user.photo := saved.value;
    }
    user.updatedAt := now;
    assert user.Snapshot() == Edited(row, p, if upload.Some? then Some(upload.value.value) else None, now);
    var err := repo.Patch(user, passwordChanged, roleChanged, h, writeFault);
    if err.Some? {
      return Err(Sentinel(UpdateConflict));
    }
    r := Ok(FromModel(EmptyResponse, user.Snapshot()));
  }

  /** Delete: the nil id is refused before the table is touched; otherwise the table's answer. */
  method Delete(repo: UserRepository, id: Id, now: Time, fault: Option<Error>) returns (err: Option<Error>)
    requires repo.Valid()
    modifies repo
    ensures repo.Valid()
    ensures id == Nil ==> err == Some(Sentinel(InvalidUuid)) && repo.rows == old(repo.rows)
    ensures id != Nil ==> err == fault && repo.rows == (if fault.Some? then old(repo.rows) else SoftDelete(old(repo.rows), id, now))
  {
    if id == Nil {
      return Some(Sentinel(InvalidUuid));
    }
    err := repo.Delete(id, now, fault);
  }

  /** After a successful patch the row is found again by its id, holding the edited and hooked values. */
  lemma {:induction false} PatchedRowIsFound(rows: seq<UserRecord>, row: UserRecord, p: UserUpdate, photo: Option<string>, now: Time,
                                             passwordChanged: bool, roleChanged: bool, h: Hasher)
    requires ById(rows, row.id, None) == Ok(row)
    requires Update(rows, Edited(row, p, photo, now), passwordChanged, roleChanged, h, None).1.None?
    ensures var (hooked, _, after) := Update(rows, Edited(row, p, photo, now), passwordChanged, roleChanged, h, None);
      ById(after, row.id, None) == Ok(hooked)
  {
    var (hooked, _, after) := Update(rows, Edited(row, p, photo, now), passwordChanged, roleChanged, h, None);
    UpdateHookTouches(Edited(row, p, photo, now), passwordChanged, roleChanged, h);
    assert hooked.id == row.id && Live(hooked);
    var k := First(rows, IdIs(row.id)).value;
    assert after[k] == hooked;
    assert forall j :: 0 <= j < k ==> after[j] == rows[j];
    FirstIsLeast(after, IdIs(row.id), k);
  }
}
