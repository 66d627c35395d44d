/**
 * The application's sentinel errors (internal/errors/errors.go) and the
 * shape of the errors built around them: a plain message, or a message
 * wrapping a cause the way `fmt.Errorf("...: %w", err)` does.
 */
module Errors {

  datatype AppError =
    | InvalidUserRole
    | UserNotFound
    | Unauthorized
    | UserExists
    | UserPhoneExists
    | InvalidUuid
    | UpdateConflict
    | InvalidUserId
    | AccountBlocked
    | InvalidCredentials
    | InvalidToken
    | Exp
    | Jti
    | TokenConfig

  /** The text each sentinel carries. */
  function Message(e: AppError): string {
    match e
    case InvalidUserRole => "invalid user role"
    case UserNotFound => "user not found"
    case Unauthorized => "unauthorized"
    case UserExists => "user already exists"
    case UserPhoneExists => "user phone already exists"
    case InvalidUuid => "invalid uuid"
    case UpdateConflict => "update conflict"
    case InvalidUserId => "invalid user id"
    case AccountBlocked => "account blocked"
    case InvalidCredentials => "invalid credentials"
    case InvalidToken => "invalid token"
    case Exp => "expired token"
    case Jti => "invalid jti"
    case TokenConfig => "token config error"
  }

  datatype Error =
    | Sentinel(kind: AppError)
    | Text(msg: string)
    | Wrapped(context: string, cause: Error)

  /** `err.Error()`: a wrapped error prints its context, ": " and its cause. */
  function Describe(e: Error): (s: string)
    ensures e.Wrapped? ==> |s| >= |e.context| + 2 && s[..|e.context| + 2] == e.context + ": "
  {
    match e
    case Sentinel(k) => Message(k)
    case Text(m) => m
    case Wrapped(c, cause) => c + ": " + Describe(cause)
  }

  /** `errors.Is(e, k)`: the sentinel occurs somewhere along the wrap chain. */
  predicate Is(e: Error, k: AppError) {
    match e
    case Sentinel(k') => k' == k
    case Text(_) => false
    case Wrapped(_, cause) => Is(cause, k)
  }

  /** `t` ends `s`. */
  predicate EndsWith(s: string, t: string) {
    |t| <= |s| && s[|s| - |t|..] == t
  }

  /** A sentinel that `errors.Is` finds in the chain ends the error's text: wrapping only adds in front. */
  lemma {:induction false} SentinelEndsText(e: Error, k: AppError)
    requires Is(e, k)
    ensures EndsWith(Describe(e), Message(k))
  {
    match e
    case Sentinel(_) =>
    case Wrapped(c, cause) =>
      SentinelEndsText(cause, k);
      assert Describe(e) == (c + ": ") + Describe(cause);
      EndsWithAfterPrefix(c + ": ", Describe(cause), Message(k));
  }

  /** Text in front does not change how a string ends. */
  lemma EndsWithAfterPrefix(a: string, d: string, t: string)
    requires EndsWith(d, t)
    ensures EndsWith(a + d, t)
  {
    var s := a + d;
    assert s[|s| - |t|..] == d[|d| - |t|..];
  }
}
