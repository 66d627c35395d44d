/**
 * The token blacklist (internal/domain/services/token_service.go): a token
 * is revoked by storing the key "blacklist:" + token in the cache until the
 * token itself expires, or for one hour when it already has.
 */
module TokenService {
  import opened Wrappers
  import opened Clock
  import opened Errors
  import opened Jwt
  import opened Cache

  const BlacklistPrefix: string := "blacklist:"
  const BlacklistMarker: string := "blacklisted"
  const TokenRequired: Error := Text("token string is required")

  /** The cache key of a token: the prefix followed by the token itself. */
  function BlacklistKey(token: string): (k: string)
    ensures |k| == |BlacklistPrefix| + |token|
    ensures k[..|BlacklistPrefix|] == BlacklistPrefix && k[|BlacklistPrefix|..] == token
  {
    BlacklistPrefix + token
  }

  /** Distinct tokens never share a blacklist entry. */
  lemma BlacklistKeyInjective(a: string, b: string)
    requires BlacklistKey(a) == BlacklistKey(b)
    ensures a == b
  {
    assert a == BlacklistKey(a)[|BlacklistPrefix|..];
  }

  /**
   * How long a revocation is kept: the token's remaining life, or exactly
   * one hour when nothing remains. The entry covers the whole remaining
   * life and outlives the token by at most an hour.
   */
  function BlacklistTtl(expiry: Time, now: Time): (ttl: Duration)
    ensures ttl > 0
    ensures now + ttl >= expiry
    ensures expiry - now > 0 ==> now + ttl == expiry
    ensures expiry - now <= 0 ==> ttl == Hour
  {
    var remaining := expiry - now;
    if remaining <= 0 then Hour else remaining
  }

  /** A token is revoked at `now` when its blacklist entry is alive. */
  predicate Revoked(store: map<string, Item>, token: string, now: Time) {
    LiveValue(store, BlacklistKey(token), now).Some?
  }

  /** How the service reports a cache failure: wrapped in its own context, the sentinel still visible. */
  function StoreFailure(context: string, reply: Option<Error>): (r: Option<Error>)
    ensures r.None? <==> reply.None?
    ensures r.Some? ==> forall k :: Is(r.value, k) <==> Is(reply.value, k)
  {
    match reply
    case None => None
    case Some(e) => Some(Wrapped(context, e))
  }

  /** The answer of IsTokenBlacklisted for a cache reply: a failure always reports "not blacklisted". */
  function LookupReply(present: bool, reply: Option<Error>): (r: (bool, Option<Error>))
    ensures r.1.Some? ==> !r.0
    ensures r.1.None? <==> reply.None?
    ensures reply.None? ==> r.0 == present
  {
    match reply
    case None => (present, None)
    case Some(e) => (false, Some(Wrapped("failed to check token blacklist status", e)))
  }

  method BlacklistToken(cache: MemoryCache, token: string, expiry: Time, now: Time) returns (err: Option<Error>)
    modifies cache
    ensures token == "" ==> err == Some(TokenRequired) && cache.store == old(cache.store)
    ensures token != "" ==> (err == None
      && cache.store == old(cache.store)[BlacklistKey(token) := Item(BlacklistMarker, now + BlacklistTtl(expiry, now))])
  {
    if token == "" {
      return Some(TokenRequired);
    }
    var setErr := cache.Set(BlacklistKey(token), BlacklistMarker, BlacklistTtl(expiry, now), now);
    err := StoreFailure("failed to add token to blacklist", setErr);
  }

  method IsTokenBlacklisted(cache: MemoryCache, token: string, now: Time) returns (blacklisted: bool, err: Option<Error>)
    modifies cache
    ensures err.Some? ==> !blacklisted
    ensures token == "" ==> err == Some(TokenRequired) && cache.store == old(cache.store)
    ensures token != "" ==> (err == None && (blacklisted <==> Revoked(old(cache.store), token, now))
      && cache.store == DropIfExpired(old(cache.store), BlacklistKey(token), now))
  {
    if token == "" {
      return false, Some(TokenRequired);
    }
    var present, existsErr := cache.Exists(BlacklistKey(token), now);
    blacklisted, err := LookupReply(present, existsErr).0, LookupReply(present, existsErr).1;
  }

  method RemoveFromBlacklist(cache: MemoryCache, token: string) returns (err: Option<Error>)
    modifies cache
    ensures token == "" ==> err == Some(TokenRequired) && cache.store == old(cache.store)
    ensures token != "" ==> err == None && cache.store == old(cache.store) - {BlacklistKey(token)}
  {
    if token == "" {
      return Some(TokenRequired);
    }
    var deleteErr := cache.Delete(BlacklistKey(token));
    err := StoreFailure("failed to remove token from blacklist", deleteErr);
  }

  /** Once blacklisted at `now`, a token stays revoked until its entry's time is up. */
  lemma RevokedUntilTtlElapses(store: map<string, Item>, token: string, expiry: Time, now: Time, later: Time)
    requires now <= later <= now + BlacklistTtl(expiry, now)
    ensures Revoked(store[BlacklistKey(token) := Item(BlacklistMarker, now + BlacklistTtl(expiry, now))], token, later)
  {
    var key := BlacklistKey(token);
    var after := store[key := Item(BlacklistMarker, now + BlacklistTtl(expiry, now))];
    assert key in after && !Expired(after[key], later);
  }

  /**
   * A blacklisted token stays revoked up to its own expiry; one already
   * expired when blacklisted stays revoked for the hour after. A positive
   * remaining life is not raised to an hour.
   */
  lemma RevokedThroughExpiry(store: map<string, Item>, token: string, expiry: Time, now: Time, later: Time)
    requires now <= later && (later <= expiry || (expiry <= now && later <= now + Hour))
    ensures Revoked(store[BlacklistKey(token) := Item(BlacklistMarker, now + BlacklistTtl(expiry, now))], token, later)
  {
  }

  /** Blacklisting one token changes nothing about any other token. */
  lemma BlacklistIsolated(store: map<string, Item>, token: string, other: string, item: Item, now: Time)
    requires other != token
    ensures Revoked(store[BlacklistKey(token) := item], other, now) == Revoked(store, other, now)
  {
    if BlacklistKey(token) == BlacklistKey(other) {
      BlacklistKeyInjective(token, other);
    }
  }

  /** After removal a token is not revoked, whatever was stored before. */
  lemma NotRevokedAfterRemove(store: map<string, Item>, token: string, now: Time)
    ensures !Revoked(store - {BlacklistKey(token)}, token, now)
  {
  }

  /** Blacklisting the same token twice at the same instant leaves the one entry of the first time. */
  lemma BlacklistTwiceIsOnce(store: map<string, Item>, token: string, expiry: Time, now: Time)
    ensures var item := Item(BlacklistMarker, now + BlacklistTtl(expiry, now));
            var once := store[BlacklistKey(token) := item];
            once[BlacklistKey(token) := item] == once && |once| <= |store| + 1
  {
  }

  datatype TokenInfo = TokenInfo(userId: string, role: string, tokenType: string, expiresAt: Time, issuedAt: Time, jti: string)

  datatype ClaimKind = StrKind | NumKind

  /** The claims TokenInfo needs, in the order they are checked. */
  const InfoFields: seq<(string, ClaimKind)> :=
    [("user_id", StrKind), ("role", StrKind), ("type", StrKind), ("exp", NumKind), ("iat", NumKind), ("jti", StrKind)]

  function InvalidClaim(name: string): Error {
    Text("invalid " + name + " in token")
  }

  predicate HasKind(claims: Claims, field: (string, ClaimKind)) {
    match field.1
    case StrKind => StrClaim(claims, field.0).Some?
    case NumKind => NumClaim(claims, field.0).Some?
  }

  /** InfoFields[i] is the first of the needed claims that is missing or of the wrong type. */
  predicate FirstMissing(claims: Claims, i: int) {
    0 <= i < |InfoFields| && !HasKind(claims, InfoFields[i]) && forall j :: 0 <= j < i ==> HasKind(claims, InfoFields[j])
  }

  /**
   * The claim checks of GetTokenInfo: the first claim of InfoFields that is
   * missing or of the wrong type is reported; when there is none, all six
   * are copied.
   */
  function ExtractInfo(claims: Claims): (r: Result<TokenInfo, Error>)
    ensures r.Ok? <==> forall i :: 0 <= i < |InfoFields| ==> HasKind(claims, InfoFields[i])
    ensures r.Err? ==> (exists i :: FirstMissing(claims, i) && r.error == InvalidClaim(InfoFields[i].0))
    ensures r.Ok? ==> (StrClaim(claims, "user_id") == Some(r.value.userId) && StrClaim(claims, "role") == Some(r.value.role)
      && StrClaim(claims, "type") == Some(r.value.tokenType) && NumClaim(claims, "exp") == Some(r.value.expiresAt)
      && NumClaim(claims, "iat") == Some(r.value.issuedAt) && StrClaim(claims, "jti") == Some(r.value.jti))
  {
    match StrClaim(claims, "user_id")
    case None => assert FirstMissing(claims, 0); Err(InvalidClaim("user_id"))
    case Some(userId) =>
      match StrClaim(claims, "role")
      case None => assert FirstMissing(claims, 1); Err(InvalidClaim("role"))
      case Some(role) =>
        match StrClaim(claims, "type")
        case None => assert FirstMissing(claims, 2); Err(InvalidClaim("type"))
        case Some(tokenType) =>
          match NumClaim(claims, "exp")
          case None => assert FirstMissing(claims, 3); Err(InvalidClaim("exp"))
          case Some(exp) =>
            match NumClaim(claims, "iat")
            case None => assert FirstMissing(claims, 4); Err(InvalidClaim("iat"))
            case Some(iat) =>
              match StrClaim(claims, "jti")
              case None => assert FirstMissing(claims, 5); Err(InvalidClaim("jti"))
              case Some(jti) => Ok(TokenInfo(userId, role, tokenType, exp, iat, jti))
  }

  /**
   * GetTokenInfo: empty token, then parsing, then the blacklist, then the
   * claim checks of ExtractInfo.
   */
  method GetTokenInfo(cache: MemoryCache, codec: Codec, secret: string, token: string, now: Time)
    returns (r: Result<TokenInfo, Error>)
    modifies cache
    ensures token == "" ==> r == Err(TokenRequired) && cache.store == old(cache.store)
    ensures token != "" && ParseToken(codec, secret, token, now).Err? ==>
      r == Err(Wrapped("failed to parse token", ParseToken(codec, secret, token, now).error)) && cache.store == old(cache.store)
    ensures token != "" && ParseToken(codec, secret, token, now).Ok? ==>
      cache.store == DropIfExpired(old(cache.store), BlacklistKey(token), now)
      && r == if Revoked(old(cache.store), token, now) then Err(Text("token is blacklisted"))
              else ExtractInfo(ParseToken(codec, secret, token, now).value.claims)
  {
    if token == "" {
      return Err(TokenRequired);
    }
    var parsed := ParseToken(codec, secret, token, now);
    if parsed.Err? {
      return Err(Wrapped("failed to parse token", parsed.error));
    }
    var blacklisted, err := IsTokenBlacklisted(cache, token, now);
    match err {
      case Some(e) => return Err(Wrapped("failed to check blacklist status", e));
      case None =>
    }
    if blacklisted {
      return Err(Text("token is blacklisted"));
    }
    r := ExtractInfo(parsed.value.claims);
  }
}
