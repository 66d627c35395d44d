/**
 * UUIDs in their canonical text form (36 characters, lower-case hex,
 * dashes at 8, 13, 18 and 23), which is what `uuid.UUID.String` prints.
 */
module Uuid {
  import opened Wrappers

  predicate IsLowerHex(c: char) {
    '0' <= c <= '9' || 'a' <= c <= 'f'
  }

  predicate IsHex(c: char) {
    IsLowerHex(c) || 'A' <= c <= 'F'
  }

  predicate DashAt(i: int) {
    i == 8 || i == 13 || i == 18 || i == 23
  }

  predicate Canonical(s: string) {
    |s| == 36 && forall i :: 0 <= i < 36 ==> if DashAt(i) then s[i] == '-' else IsLowerHex(s[i])
  }

  type Id = s: string | Canonical(s) witness "00000000-0000-0000-0000-000000000000"

  /** uuid.Nil. */
  const Nil: Id := "00000000-0000-0000-0000-000000000000"

  function ToLower(c: char): (l: char)
    requires IsHex(c)
    ensures IsLowerHex(l)
    ensures IsLowerHex(c) ==> l == c
  {
    if 'A' <= c <= 'F' then (c as int - 'A' as int + 'a' as int) as char else c
  }

  /** The 36-character text form uuid.Parse reads: dashes in place and hex digits of either case elsewhere. */
  predicate Readable(s: string) {
    |s| == 36 && forall i :: 0 <= i < 36 ==> if DashAt(i) then s[i] == '-' else IsHex(s[i])
  }

  /**
   * uuid.Parse on the 36-character form: exactly the readable texts parse,
   * and the result is the canonical id, every hex digit lower-cased.
   */
  function Parse(s: string): (r: Option<Id>)
    ensures r.Some? <==> Readable(s)
    ensures r.Some? ==> forall i :: 0 <= i < 36 && !DashAt(i) ==> r.value[i] == ToLower(s[i])
    ensures Canonical(s) ==> r == Some(s)
  {
    if Readable(s) then
      var lowered := seq(36, i requires 0 <= i < 36 => if DashAt(i) then '-' else ToLower(s[i]));
      assert Canonical(s) ==> lowered == s;
      Some(lowered)
    else None
  }
}
