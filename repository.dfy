/**
 * The user table behind internal/domain/repositories/user_repository.go,
 * seen as the ORM presents it: rows in insertion order, soft deletion
 * (a deleted row keeps its place but no query sees it), the entity hooks
 * run on create and update, and the unique id and phone columns.
 * A database failure is a parameter `fault`: when present the call
 * returns it and the table is left as it was.
 */
module Repository {
  import opened Wrappers
  import opened Clock
  import opened Errors
  import opened Uuid
  import opened Users

  const DuplicateKey: Error := Text("duplicate key value violates unique constraint")

  predicate Live(r: UserRecord) {
    r.deletedAt.None?
  }

  /** The condition of a single-row query: the id column or the phone column. */
  datatype Where = IdIs(id: Id) | PhoneIs(phone: string)

  /** A row the query sees (not soft-deleted) and that meets the condition. */
  predicate Selects(w: Where, u: UserRecord) {
    Live(u) && match w
      case IdIs(id) => u.id == id
      case PhoneIs(phone) => u.phone == phone
  }

  /** The position of the first row the query selects, in table order. */
  function First(rows: seq<UserRecord>, w: Where): (r: Option<nat>)
    ensures r.Some? ==> r.value < |rows| && Selects(w, rows[r.value])
    ensures r.Some? ==> forall j :: 0 <= j < r.value ==> !Selects(w, rows[j])
    ensures r.None? ==> forall j :: 0 <= j < |rows| ==> !Selects(w, rows[j])
  {
    if |rows| == 0 then None
    else if Selects(w, rows[0]) then Some(0)
    else match First(rows[1..], w)
      case None => None
      case Some(k) => Some(k + 1)
  }

  /** What a query by id returns: the row, ErrUserNotFound, or the database's error. */
  function ById(rows: seq<UserRecord>, id: Id, fault: Option<Error>): (r: Result<UserRecord, Error>)
    ensures fault.Some? ==> r == Err(fault.value)
    ensures fault.None? && r.Err? ==> r.error == Sentinel(UserNotFound)
    ensures r.Ok? ==> r.value in rows && Live(r.value) && r.value.id == id
    ensures fault.None? ==> (r.Ok? <==> exists j :: 0 <= j < |rows| && Selects(IdIs(id), rows[j]))
  {
    if fault.Some? then Err(fault.value)
    else match First(rows, IdIs(id))
      case None => Err(Sentinel(UserNotFound))
      case Some(k) => Ok(rows[k])
  }

  /** What a query by phone returns: the row, ErrUserNotFound, or the database's error. */
  function ByPhone(rows: seq<UserRecord>, phone: string, fault: Option<Error>): (r: Result<UserRecord, Error>)
    ensures fault.Some? ==> r == Err(fault.value)
    ensures fault.None? && r.Err? ==> r.error == Sentinel(UserNotFound)
    ensures r.Ok? ==> r.value in rows && Live(r.value) && r.value.phone == phone
    ensures fault.None? ==> (r.Ok? <==> exists j :: 0 <= j < |rows| && Selects(PhoneIs(phone), rows[j]))
  {
    if fault.Some? then Err(fault.value)
    else match First(rows, PhoneIs(phone))
      case None => Err(Sentinel(UserNotFound))
      case Some(k) => Ok(rows[k])
  }

  /** The rows a query sees, in table order. */
  function LiveRows(rows: seq<UserRecord>): (r: seq<UserRecord>)
    ensures |r| <= |rows|
    ensures forall u :: u in r <==> u in rows && Live(u)
  {
    if |rows| == 0 then []
    else (if Live(rows[0]) then [rows[0]] else []) + LiveRows(rows[1..])
  }

  /** A write of `u` over the live row with its id. */
  function Overwrite(rows: seq<UserRecord>, u: UserRecord): (r: seq<UserRecord>)
    ensures |r| == |rows|
    ensures forall i :: 0 <= i < |rows| ==> r[i] == (if Live(rows[i]) && rows[i].id == u.id then u else rows[i])
  {
    seq(|rows|, i requires 0 <= i < |rows| => if Live(rows[i]) && rows[i].id == u.id then u else rows[i])
  }

  /** A soft delete at `now` of the live rows with the id. */
  function SoftDelete(rows: seq<UserRecord>, id: Id, now: Time): (r: seq<UserRecord>)
    ensures |r| == |rows|
    ensures forall i :: 0 <= i < |rows| ==> r[i] == (if Live(rows[i]) && rows[i].id == id then rows[i].(deletedAt := Some(now)) else rows[i])
  {
    seq(|rows|, i requires 0 <= i < |rows| => if Live(rows[i]) && rows[i].id == id then rows[i].(deletedAt := Some(now)) else rows[i])
  }

  /** The unique columns: no two rows, deleted or not, share an id or a phone. */
  ghost predicate Unique(rows: seq<UserRecord>) {
    forall i, j :: 0 <= i < j < |rows| ==> rows[i].id != rows[j].id && rows[i].phone != rows[j].phone
  }

  /** A row the query selects, preceded by none it selects, is the one First finds. */
  lemma {:induction false} FirstIsLeast(rows: seq<UserRecord>, w: Where, k: nat)
    requires k < |rows| && Selects(w, rows[k])
    requires forall j :: 0 <= j < k ==> !Selects(w, rows[j])
    ensures First(rows, w) == Some(k)
  {
    if k > 0 {
      FirstIsLeast(rows[1..], w, k - 1);
    }
  }

  /** With unique columns a query selects at most one row, so which row comes first never matters. */
  lemma UniqueSelectsOne(rows: seq<UserRecord>, w: Where, k: nat)
    requires Unique(rows) && k < |rows| && Selects(w, rows[k])
    ensures First(rows, w) == Some(k)
  {
    FirstIsLeast(rows, w, k);
  }

  /** A soft delete changes no id and no phone, so it keeps the columns unique. */
  lemma SoftDeleteKeepsUnique(rows: seq<UserRecord>, id: Id, now: Time)
    requires Unique(rows)
    ensures Unique(SoftDelete(rows, id, now))
  {
  }

  /** After a soft delete no query by that id finds a row. */
  lemma DeletedNotFound(rows: seq<UserRecord>, id: Id, now: Time)
    ensures ById(SoftDelete(rows, id, now), id, None) == Err(Sentinel(UserNotFound))
  {
    var after := SoftDelete(rows, id, now);
    assert forall j :: 0 <= j < |after| ==> !(Live(after[j]) && after[j].id == id);
  }

  /** Overwriting a row with a row of the same id and phone keeps the columns unique. */
  lemma OverwriteKeepsUnique(rows: seq<UserRecord>, u: UserRecord)
    requires Unique(rows)
    requires forall j :: 0 <= j < |rows| && rows[j].id != u.id ==> rows[j].phone != u.phone
    ensures Unique(Overwrite(rows, u))
  {
  }

  /** Whether some row, deleted or not, already has `u`'s id or `u`'s phone. */
  predicate Taken(rows: seq<UserRecord>, u: UserRecord) {
    exists j :: 0 <= j < |rows| && (rows[j].id == u.id || rows[j].phone == u.phone)
  }

  /** Whether a row with another id already has `u`'s phone. */
  predicate PhoneTaken(rows: seq<UserRecord>, u: UserRecord) {
    exists j :: 0 <= j < |rows| && rows[j].id != u.id && rows[j].phone == u.phone
  }

  /**
   * An insert: the BeforeCreate hook first, whose failure stops it; then
   * a database failure; then a clash on the id or phone column; otherwise
   * the hooked row is appended. Gives the object's new row, the error and
   * the new table.
   */
  function Insert(rows: seq<UserRecord>, u: UserRecord, freshId: Id, h: Hasher, fault: Option<Error>)
    : (r: (UserRecord, Option<Error>, seq<UserRecord>))
    ensures r.0 == CreateHook(u, freshId, h).0
    ensures r.1.None? <==> CreateHook(u, freshId, h).1.None? && fault.None? && !Taken(rows, r.0)
    ensures r.1.Some? ==> r.2 == rows
    ensures r.1.None? ==> r.2 == rows + [r.0]
  {
    var (hooked, hookErr) := CreateHook(u, freshId, h);
    if hookErr.Some? then (hooked, hookErr, rows)
    else if fault.Some? then (hooked, fault, rows)
    else if Taken(rows, hooked) then (hooked, Some(DuplicateKey), rows)
    else (hooked, None, rows + [hooked])
  }

  /**
   * An update: the BeforeUpdate hook first (which fields changed is the
   * ORM's answer); then a database failure or a phone held by another
   * row; otherwise the live row with the object's id is overwritten. No
   * row with that id is not an error.
   */
  function Update(rows: seq<UserRecord>, u: UserRecord, passwordChanged: bool, roleChanged: bool, h: Hasher, fault: Option<Error>)
    : (r: (UserRecord, Option<Error>, seq<UserRecord>))
    ensures r.0 == UpdateHook(u, passwordChanged, roleChanged, h).0
    ensures r.1.None? <==> UpdateHook(u, passwordChanged, roleChanged, h).1.None? && fault.None? && !PhoneTaken(rows, r.0)
    ensures r.1.Some? ==> r.2 == rows
    ensures r.1.None? ==> r.2 == Overwrite(rows, r.0)
  {
    var (hooked, hookErr) := UpdateHook(u, passwordChanged, roleChanged, h);
    if hookErr.Some? then (hooked, hookErr, rows)
    else if fault.Some? then (hooked, fault, rows)
    else if PhoneTaken(rows, hooked) then (hooked, Some(DuplicateKey), rows)
    else (hooked, None, Overwrite(rows, hooked))
  }

  /** A failed write leaves the table as it was; a successful one keeps the columns unique. */
  lemma InsertKeepsUnique(rows: seq<UserRecord>, u: UserRecord, freshId: Id, h: Hasher, fault: Option<Error>)
    requires Unique(rows)
    ensures var (hooked, err, after) := Insert(rows, u, freshId, h, fault);
      Unique(after) && (err.Some? ==> after == rows) && (err.None? ==> after == rows + [hooked])
  {
  }

  /** A failed update leaves the table as it was; a successful one keeps the columns unique and changes no row count. */
  lemma UpdateKeepsUnique(rows: seq<UserRecord>, u: UserRecord, passwordChanged: bool, roleChanged: bool, h: Hasher, fault: Option<Error>)
    requires Unique(rows)
    ensures var (hooked, err, after) := Update(rows, u, passwordChanged, roleChanged, h, fault);
      Unique(after) && |after| == |rows| && (err.Some? ==> after == rows)
  {
    var (hooked, err, after) := Update(rows, u, passwordChanged, roleChanged, h, fault);
    if err.None? {
      OverwriteKeepsUnique(rows, hooked);
    }
  }

  /** A successful insert of a row not deleted is found again by its id and by its phone. */
  lemma InsertedIsFound(rows: seq<UserRecord>, u: UserRecord, freshId: Id, h: Hasher)
    requires u.deletedAt.None?
    requires Insert(rows, u, freshId, h, None).1.None?
    ensures var (hooked, _, after) := Insert(rows, u, freshId, h, None);
      ById(after, hooked.id, None) == Ok(hooked) && ByPhone(after, hooked.phone, None) == Ok(hooked)
  {
    var (hooked, _, after) := Insert(rows, u, freshId, h, None);
    assert after[|rows|] == hooked;
    assert forall j :: 0 <= j < |rows| ==> after[j] == rows[j] && rows[j].id != hooked.id && rows[j].phone != hooked.phone;
  }

  class UserRepository {
    var rows: seq<UserRecord>

    /** The table's unique indexes hold. */
    ghost predicate Valid()
      reads this
    {
      Unique(rows)
    }

    constructor ()
      ensures rows == [] && Valid()
    {
      rows := [];
    }

    /** Create: the object is rewritten by the hook and the table as Insert says. */
    method Create(user: User, freshId: Id, h: Hasher, fault: Option<Error>) returns (err: Option<Error>)
      requires Valid()
      modifies this, user
      ensures (user.Snapshot(), err, rows) == Insert(old(rows), old(user.Snapshot()), freshId, h, fault)
      ensures Valid()
    {
      InsertKeepsUnique(rows, user.Snapshot(), freshId, h, fault);
      err := user.BeforeCreate(freshId, h);
      if err.Some? {
        return;
      }
      if fault.Some? {
        return fault;
      }
      var u := user.Snapshot();
      if Taken(rows, u) {
        return Some(DuplicateKey);
      }
      rows := rows + [u];
    }

    /** Get: every row a query sees, in table order. */
    method Get(fault: Option<Error>) returns (r: Result<seq<UserRecord>, Error>)
      ensures r == if fault.Some? then Err(fault.value) else Ok(LiveRows(rows))
    {
      if fault.Some? {
        return Err(fault.value);
      }
      r := Ok(LiveRows(rows));
    }

    /** GetID: a fresh object holding the first live row with the id. */
    method GetId(id: Id, fault: Option<Error>) returns (r: Result<User, Error>)
      ensures r.Err? <==> ById(rows, id, fault).Err?
      ensures r.Err? ==> r.error == ById(rows, id, fault).error
      ensures r.Ok? ==> fresh(r.value) && r.value.Snapshot() == ById(rows, id, fault).value
    {
      match ById(rows, id, fault) {
        case Err(e) => return Err(e);
        case Ok(row) =>
          var u := new User(row);
          return Ok(u);
      }
    }

    /** FindByPhone: a fresh object holding the first live row with the phone. */
    method FindByPhone(phone: string, fault: Option<Error>) returns (r: Result<User, Error>)
      ensures r.Err? <==> ByPhone(rows, phone, fault).Err?
      ensures r.Err? ==> r.error == ByPhone(rows, phone, fault).error
      ensures r.Ok? ==> fresh(r.value) && r.value.Snapshot() == ByPhone(rows, phone, fault).value
    {
      match ByPhone(rows, phone, fault) {
        case Err(e) => return Err(e);
        case Ok(row) =>
          var u := new User(row);
          return Ok(u);
      }
    }

    /** Patch (gorm Updates): the object is rewritten by the hook and the table as Update says. */
    method Patch(user: User, passwordChanged: bool, roleChanged: bool, h: Hasher, fault: Option<Error>) returns (err: Option<Error>)
      requires Valid()
      modifies this, user
      ensures (user.Snapshot(), err, rows) == Update(old(rows), old(user.Snapshot()), passwordChanged, roleChanged, h, fault)
      ensures Valid()
    {
      UpdateKeepsUnique(rows, user.Snapshot(), passwordChanged, roleChanged, h, fault);
      err := user.BeforeUpdate(passwordChanged, roleChanged, h);
      if err.Some? {
        return;
      }
      if fault.Some? {
        return fault;
      }
      var u := user.Snapshot();
      if PhoneTaken(rows, u) {
        return Some(DuplicateKey);
      }
      rows := Overwrite(rows, u);
    }

    /** Delete: a soft delete at `now` of the row with the id; deleting what is not there is not an error. */
    method Delete(id: Id, now: Time, fault: Option<Error>) returns (err: Option<Error>)
      requires Valid()
      modifies this
      ensures err == fault
      ensures rows == if fault.Some? then old(rows) else SoftDelete(old(rows), id, now)
      ensures Valid()
    {
      SoftDeleteKeepsUnique(rows, id, now);
      if fault.Some? {
        return fault;
      }
      rows := SoftDelete(rows, id, now);
      err := None;
    }
  }
}
