/**
 * User roles (internal/domain/entities/role.go): a role is any string; four
 * of them are known, and each known role has a privilege level.
 */
module Roles {

  type Role = string

  const SuperUser: Role := "superuser"
  const Admin: Role := "admin"
  const Manager: Role := "manager"
  const User: Role := "user"

  /** The four roles the application knows. */
  predicate IsValid(r: Role)
    ensures IsValid(r) <==> r in {SuperUser, Admin, Manager, User}
  {
    r == SuperUser || r == Admin || r == User || r == Manager
  }

  /** Privilege level: superuser 4, admin 3, manager 2, user 1, anything else 0. */
  function Level(r: Role): (l: int)
    ensures 0 <= l <= 4
    ensures l >= 1 <==> IsValid(r)
  {
    if r == SuperUser then 4
    else if r == Admin then 3
    else if r == Manager then 2
    else if r == User then 1
    else 0
  }

  /** Whether a role meets a minimum level: any role meets 0 or less, only a known role meets 1 or more, none meets 5. */
  predicate HasLevel(r: Role, minLevel: int)
    ensures minLevel <= 0 ==> HasLevel(r, minLevel)
    ensures minLevel >= 1 && HasLevel(r, minLevel) ==> IsValid(r)
    ensures minLevel > 4 ==> !HasLevel(r, minLevel)
  {
    Level(r) >= minLevel
  }

  lemma LevelTable()
    ensures Level(SuperUser) == 4 && Level(Admin) == 3
    ensures Level(Manager) == 2 && Level(User) == 1
    ensures Level("") == 0
  {
  }

  /** The order of privilege is strict, and every unknown role sits below "user". */
  lemma LevelsStrictlyOrdered(unknown: Role)
    requires !IsValid(unknown)
    ensures Level(SuperUser) > Level(Admin) > Level(Manager) > Level(User) > Level(unknown) == 0
  {
  }

  /** Distinct known roles have distinct levels, so a level names one role. */
  lemma LevelIdentifiesRole(a: Role, b: Role)
    requires IsValid(a) && Level(a) == Level(b)
    ensures a == b
  {
  }

  /** Meeting a level implies meeting every lower one. */
  lemma HasLevelDownwardClosed(r: Role, lower: int, higher: int)
    requires lower <= higher && HasLevel(r, higher)
    ensures HasLevel(r, lower)
  {
  }
}
