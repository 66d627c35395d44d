/**
 * TokenBlacklistMiddleware (internal/api/middleware/token_blacklist.go):
 * the request is stopped when the token of its Authorization header is
 * blacklisted. Only that header is looked at; the model shows that a
 * token AuthMiddleware takes from the cookie is never checked, and gives
 * the gate that checks the token AuthMiddleware actually used.
 */
module BlacklistGate {
  import opened Wrappers
  import opened Clock
  import opened Errors
  import opened Jwt
  import opened Cache
  import opened TokenService
  import opened Users
  import opened AuthService
  import opened Middleware

  /** `strings.Split(s, string(sep))`: the pieces between separators, one more than there are separators. */
  function Split(s: string, sep: char): (parts: seq<string>)
    ensures |parts| >= 1
    ensures forall k :: 0 <= k < |parts| ==> sep !in parts[k]
  {
    if |s| == 0 then [""]
    else
      var rest := Split(s[1..], sep);
      if s[0] == sep then [""] + rest else [[s[0]] + rest[0]] + rest[1..]
  }

  /** `strings.Join(parts, string(sep))`. */
  function Join(parts: seq<string>, sep: char): string
    requires |parts| >= 1
  {
    if |parts| == 1 then parts[0] else parts[0] + [sep] + Join(parts[1..], sep)
  }

  /** Joining the pieces gives back the split string. */
  lemma {:induction false} JoinSplit(s: string, sep: char)
    ensures Join(Split(s, sep), sep) == s
  {
    if |s| > 0 {
      var rest := Split(s[1..], sep);
      JoinSplit(s[1..], sep);
      if s[0] != sep {
        if |rest| == 1 {
          assert Join(Split(s, sep), sep) == [s[0]] + rest[0];
        } else {
          assert rest == [rest[0]] + rest[1..];
          assert Join(rest, sep) == rest[0] + [sep] + Join(rest[1..], sep);
        }
      }
    }
  }

  /** A string without the separator is one piece. */
  lemma {:induction false} SplitWhole(s: string, sep: char)
    requires sep !in s
    ensures Split(s, sep) == [s]
  {
    if |s| > 0 {
      SplitWhole(s[1..], sep);
      assert [s[0]] + s[1..] == s;
    }
  }

  /** A first piece without the separator, then the separator, splits off exactly that piece. */
  lemma {:induction false} SplitFirst(w: string, t: string, sep: char)
    requires sep !in w
    ensures Split(w + [sep] + t, sep) == [w] + Split(t, sep)
  {
    if |w| > 0 {
      assert (w + [sep] + t)[1..] == w[1..] + [sep] + t;
      SplitFirst(w[1..], t, sep);
      assert [w[0]] + w[1..] == w;
    } else {
      assert w + [sep] + t == [sep] + t;
    }
  }

  /**
   * The token the middleware looks up: an empty header, or one that does
   * not split on " " into exactly "Bearer" and one more piece, gives none.
   */
  function HeaderToken(header: string): (r: Option<string>)
    ensures r.Some? ==> header != "" && ' ' !in r.value
  {
    if header == "" then None
    else
      var parts := Split(header, ' ');
      if |parts| != 2 || parts[0] != "Bearer" then None else Some(parts[1])
  }

  /** The header carries a token exactly when it is "Bearer ", then a token without a space (possibly empty). */
  lemma HeaderTokenExact(header: string, t: string)
    ensures HeaderToken(header) == Some(t) <==> header == "Bearer " + t && ' ' !in t
  {
    if HeaderToken(header) == Some(t) {
      var parts := Split(header, ' ');
      JoinSplit(header, ' ');
      assert parts == [parts[0], parts[1]];
      assert Join(parts[1..], ' ') == parts[1];
    }
    if header == "Bearer " + t && ' ' !in t {
      assert header == "Bearer" + [' '] + t;
      SplitFirst("Bearer", t, ' ');
      SplitWhole(t, ' ');
    }
  }

  /** What the gate does with a request. */
  datatype Verdict =
    | Continue
    | Failed    // 500: the blacklist could not be consulted
    | Refused   // 401: the token is blacklisted

  /** The decision as written: only the header's token is looked up; an empty one cannot be, and fails. */
  function GateVerdict(header: string, store: map<string, Item>, now: Time): (v: Verdict)
    ensures HeaderToken(header).None? ==> v == Continue
    ensures v == Refused <==> HeaderToken(header).Some? && HeaderToken(header).value != "" && Revoked(store, HeaderToken(header).value, now)
    ensures v == Failed <==> HeaderToken(header) == Some("")
  {
    match HeaderToken(header)
    case None => Continue
    case Some(t) =>
      if t == "" then Failed
      else if Revoked(store, t, now) then Refused
      else Continue
  }

  /** TokenBlacklistMiddleware: the verdict is GateVerdict's; the lookup drops an expired entry it meets. */
  method TokenBlacklistMiddleware(cache: MemoryCache, header: string, now: Time) returns (v: Verdict)
    modifies cache
    ensures v == GateVerdict(header, old(cache.store), now)
    ensures cache.store == if HeaderToken(header).Some? && HeaderToken(header).value != ""
                           then DropIfExpired(old(cache.store), BlacklistKey(HeaderToken(header).value), now)
                           else old(cache.store)
  {
    var token := HeaderToken(header);
    if token.None? {
      return Continue;
    }
    var blacklisted, err := IsTokenBlacklisted(cache, token.value, now);
    if err.Some? {
      return Failed;
    }
    if blacklisted {
      return Refused;
    }
    v := Continue;
  }

  /** A header with a token starts with "Bearer " and has no space after it. */
  lemma BearerShape(header: string)
    ensures HeaderToken(header).Some? ==> |header| >= 7 && header[..7] == "Bearer " && ' ' !in header[7..]
  {
    if HeaderToken(header).Some? {
      HeaderTokenExact(header, HeaderToken(header).value);
    }
  }

  /** "bearer t", "Bearer a b" and "Bearer  t" all pass unchecked. */
  lemma MalformedHeadersPass(store: map<string, Item>, now: Time)
    ensures GateVerdict("bearer t", store, now) == Continue
    ensures GateVerdict("Bearer a b", store, now) == Continue
    ensures GateVerdict("Bearer  t", store, now) == Continue
  {
    BearerShape("bearer t");
    assert "bearer t"[..7][0] == 'b';
    BearerShape("Bearer a b");
    assert "Bearer a b"[7..][1] == ' ';
    BearerShape("Bearer  t");
    assert "Bearer  t"[7..][0] == ' ';
  }

  /** A protected route as wired: AuthMiddleware, then this gate on the header. */
  predicate AdmittedAsWritten(rows: seq<UserRecord>, c: Codec, secret: string, cookie: Option<string>, header: string,
                              store: map<string, Item>, now: Time, fault: Option<Error>) {
    Authenticate(rows, c, secret, cookie, header, now, fault).Authenticated? && GateVerdict(header, store, now) == Continue
  }

  /**
   * As written, a blacklisted token sent as the access_token cookie gets
   * through: AuthMiddleware authenticates with the cookie, and the gate,
   * finding no header, looks nothing up.
   */
  lemma RevokedCookieAdmitted(rows: seq<UserRecord>, c: Codec, secret: string, t: string,
                              store: map<string, Item>, now: Time, fault: Option<Error>)
    requires t != "" && Revoked(store, t, now)
    requires Authenticate(rows, c, secret, Some(t), "", now, fault).Authenticated?
    ensures TokenSource(Some(t), "") == Some(t)
    ensures AdmittedAsWritten(rows, c, secret, Some(t), "", store, now, fault)
  {
  }

  /** Concretely: the very token Logout has just blacklisted is admitted as a cookie right up to its expiry. */
  lemma LoggedOutCookieAdmitted(rows: seq<UserRecord>, c: Codec, secret: string, t: string,
                                store: map<string, Item>, now: Time, later: Time, fault: Option<Error>)
    requires LogoutExpiry(c, secret, t, now).Ok? && now <= later <= LogoutExpiry(c, secret, t, now).value
    requires Authenticate(rows, c, secret, Some(t), "", later, fault).Authenticated?
    ensures var after := store[BlacklistKey(t) := Item(BlacklistMarker, now + BlacklistTtl(LogoutExpiry(c, secret, t, now).value, now))];
      Revoked(after, t, later) && AdmittedAsWritten(rows, c, secret, Some(t), "", after, later, fault)
  {
    LogoutRevokesUntilExpiry(c, secret, t, store, now, later);
  }

  /** The corrected decision: look up the token AuthMiddleware used, wherever it came from. */
  function CheckedVerdict(cookie: Option<string>, header: string, store: map<string, Item>, now: Time): (v: Verdict)
    ensures v != Failed
    ensures v == Refused <==> TokenSource(cookie, header).Some? && Revoked(store, TokenSource(cookie, header).value, now)
  {
    match TokenSource(cookie, header)
    case None => Continue
    case Some(t) => if Revoked(store, t, now) then Refused else Continue
  }

  /** The corrected gate: the token of TokenSource is the one looked up. */
  method CheckedBlacklistMiddleware(cache: MemoryCache, cookie: Option<string>, header: string, now: Time) returns (v: Verdict)
    modifies cache
    ensures v == CheckedVerdict(cookie, header, old(cache.store), now)
    ensures cache.store == if TokenSource(cookie, header).Some?
                           then DropIfExpired(old(cache.store), BlacklistKey(TokenSource(cookie, header).value), now)
                           else old(cache.store)
  {
    var token := TokenSource(cookie, header);
    if token.None? {
      return Continue;
    }
    var blacklisted, err := IsTokenBlacklisted(cache, token.value, now);
    if err.Some? {
      return Failed;
    }
    if blacklisted {
      return Refused;
    }
    v := Continue;
  }

  /** A protected route with the corrected gate. */
  predicate AdmittedChecked(rows: seq<UserRecord>, c: Codec, secret: string, cookie: Option<string>, header: string,
                            store: map<string, Item>, now: Time, fault: Option<Error>) {
    Authenticate(rows, c, secret, cookie, header, now, fault).Authenticated? && CheckedVerdict(cookie, header, store, now) == Continue
  }

  /** With the corrected gate, no request is admitted on a blacklisted token, whether cookie or header carried it. */
  lemma CheckedRefusesRevoked(rows: seq<UserRecord>, c: Codec, secret: string, cookie: Option<string>, header: string,
                              store: map<string, Item>, now: Time, fault: Option<Error>)
    requires TokenSource(cookie, header).Some? && Revoked(store, TokenSource(cookie, header).value, now)
    ensures !AdmittedChecked(rows, c, secret, cookie, header, store, now, fault)
  {
  }

  /** With the corrected gate, a logged-out token is refused until its expiry, as the cookie or in the header. */
  lemma {:induction false} LoggedOutRefusedChecked(c: Codec, secret: string, t: string, store: map<string, Item>, now: Time, later: Time)
    requires LogoutExpiry(c, secret, t, now).Ok? && now <= later <= LogoutExpiry(c, secret, t, now).value
    ensures var after := store[BlacklistKey(t) := Item(BlacklistMarker, now + BlacklistTtl(LogoutExpiry(c, secret, t, now).value, now))];
      CheckedVerdict(Some(t), "", after, later) == Refused
      && CheckedVerdict(None, BearerSchema + t, after, later) == Refused
  {
    LogoutRevokesUntilExpiry(c, secret, t, store, now, later);
    BearerRoundTrip(t);
  }

  /** On a well-formed bearer header and no cookie, the corrected gate decides as the original. */
  lemma {:induction false} CheckedAgreesOnHeader(t: string, store: map<string, Item>, now: Time)
    requires t != "" && ' ' !in t
    ensures CheckedVerdict(None, BearerSchema + t, store, now) == GateVerdict(BearerSchema + t, store, now)
  {
    HeaderTokenExact(BearerSchema + t, t);
    BearerRoundTrip(t);
  }
}
