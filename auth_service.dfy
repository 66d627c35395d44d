/**
 * The authentication service (internal/domain/services/auth_service.go):
 * issuing access and refresh tokens, checking them, login, logout through
 * the blacklist, refresh, and the two registration paths with their
 * duplicate-phone guard. The clock, fresh uuids (token ids and user ids)
 * and photo uploads are parameters; database failures are `fault`s.
 */
module AuthService {
  import opened Wrappers
  import opened Clock
  import opened Errors
  import opened Jwt
  import opened Cache
  import opened TokenService
  import opened Uuid
  import opened Users
  import opened UserDto
  import opened Repository
  import opened UserService
  import opened Config

  const AccessType: string := "access"
  const RefreshType: string := "refresh"

  datatype LoginResponse = LoginResponse(accessToken: string, refreshToken: string, message: string)
  datatype TokenResponse = TokenResponse(accessToken: string, user: UserResponse, expiresAt: Time, message: string)

  /** The claims of the token pair issued to a user: both name the user and the role; they differ in type, lifetime and jti. */
  function PairClaims(u: UserRecord, tokenType: string, exp: Time, jti: string, now: Time): (c: Claims)
    ensures StrClaim(c, "user_id") == Some(u.id) && StrClaim(c, "role") == Some(u.role)
    ensures StrClaim(c, "type") == Some(tokenType) && StrClaim(c, "jti") == Some(jti)
    ensures NumClaim(c, "exp") == Some(exp) && NumClaim(c, "iat") == Some(now)
  {
    map["user_id" := Str(u.id), "role" := Str(u.role), "exp" := Num(exp), "type" := Str(tokenType),
        "jti" := Str(jti), "iat" := Num(now)]
  }

  /**
   * generateJWTToken: the access token first, then the refresh token,
   * both signed HS256 with the configured secret. Either failure gives no
   * token at all. On success, the access token's expiry comes back too.
   */
  function GenerateJwt(c: Codec, cfg: JwtConfig, u: UserRecord, now: Time, accessJti: string, refreshJti: string)
    : (r: Result<(string, string, Time), Error>)
    ensures var access := c.sign(Hs256, cfg.secret, PairClaims(u, AccessType, now + cfg.expiry, accessJti, now));
      var refresh := c.sign(Hs256, cfg.secret, PairClaims(u, RefreshType, now + cfg.refreshExpiry, refreshJti, now));
      (r.Ok? <==> access.Ok? && refresh.Ok?)
      && (r.Ok? ==> r.value == (access.value, refresh.value, now + cfg.expiry))
      && (access.Err? ==> r == Err(Wrapped("ошибка подписи access токена", access.error)))
      && (access.Ok? && refresh.Err? ==> r == Err(Wrapped("ошибка подписи refresh токена", refresh.error)))
  {
    var access := c.sign(Hs256, cfg.secret, PairClaims(u, AccessType, now + cfg.expiry, accessJti, now));
    var refresh := c.sign(Hs256, cfg.secret, PairClaims(u, RefreshType, now + cfg.refreshExpiry, refreshJti, now));
    if access.Err? then Err(Wrapped("ошибка подписи access токена", access.error))
    else if refresh.Err? then Err(Wrapped("ошибка подписи refresh токена", refresh.error))
    else Ok((access.value, refresh.value, now + cfg.expiry))
  }

  /** `claims["type"] == name`: only a string claim equal to the name compares equal. */
  predicate HasType(claims: Claims, name: string) {
    StrClaim(claims, "type") == Some(name)
  }

  /**
   * VerifyToken: the empty string is refused, a parse failure (including
   * a non-HMAC algorithm) is wrapped, and a token whose type is not
   * "access" is refused. The blacklist is not consulted.
   */
  function VerifyToken(c: Codec, secret: string, s: string, now: Time): (r: Result<Token, Error>)
    ensures s == "" ==> r == Err(Sentinel(InvalidToken))
    ensures s != "" && LibraryParse(c, secret, s, now).Err? ==> r == Err(Wrapped("invalid token", LibraryParse(c, secret, s, now).error))
    ensures r.Ok? <==> s != "" && LibraryParse(c, secret, s, now).Ok? && HasType(LibraryParse(c, secret, s, now).value.claims, AccessType)
    ensures r.Ok? ==> r == LibraryParse(c, secret, s, now) && r.value.valid && IsHmac(r.value.alg)
    ensures r.Err? && s != "" && LibraryParse(c, secret, s, now).Ok? ==> r == Err(Sentinel(InvalidToken))
  {
    if s == "" then Err(Sentinel(InvalidToken))
    else match LibraryParse(c, secret, s, now)
      case Err(e) => Err(Wrapped("invalid token", e))
      case Ok(t) =>
        if !t.valid then Err(Sentinel(InvalidToken))
        else if !HasType(t.claims, AccessType) then Err(Sentinel(InvalidToken))
        else Ok(t)
  }

  /** The claims of a token from GenerateRefreshToken: no role and no issue time. */
  function RefreshOnlyClaims(u: UserRecord, exp: Time, jti: string): (c: Claims)
    ensures "role" !in c && "iat" !in c
    ensures StrClaim(c, "user_id") == Some(u.id) && HasType(c, RefreshType) && NumClaim(c, "exp") == Some(exp)
  {
    map["user_id" := Str(u.id), "exp" := Num(exp), "type" := Str(RefreshType), "jti" := Str(jti)]
  }

  /** GenerateRefreshToken: ErrTokenConfig without a secret; otherwise the signed token and its expiry, or the signer's error as is. */
  function GenerateRefreshToken(c: Codec, cfg: JwtConfig, u: UserRecord, now: Time, jti: string): (r: Result<(string, Time), Error>)
    ensures cfg.secret == "" ==> r == Err(Sentinel(TokenConfig))
    ensures cfg.secret != "" ==> var signed := c.sign(Hs256, cfg.secret, RefreshOnlyClaims(u, now + cfg.refreshExpiry, jti));
      (r.Ok? <==> signed.Ok?) && (r.Ok? ==> r.value == (signed.value, now + cfg.refreshExpiry))
      && (r.Err? ==> r.error == signed.error)
  {
    if cfg.secret == "" then Err(Sentinel(TokenConfig))
    else
      match c.sign(Hs256, cfg.secret, RefreshOnlyClaims(u, now + cfg.refreshExpiry, jti))
      case Err(e) => Err(e)
      case Ok(s) => Ok((s, now + cfg.refreshExpiry))
  }

  const UserIdUnparsable: string := "ошибка при парсинге ID пользователя"
  const UuidRejected: Error := Text("invalid UUID format")

  /**
   * What GetUserFromToken answers: a missing or invalid token is
   * ErrInvalidToken; a user_id that is not a string is ErrJTI; one that is
   * not a uuid is wrapped; a failed lookup is wrapped; otherwise the
   * stored user's response.
   */
  function UserFromToken(rows: seq<UserRecord>, token: Option<Token>, fault: Option<Error>): (r: Result<UserResponse, Error>)
    ensures token.None? || !token.value.valid ==> r == Err(Sentinel(InvalidToken))
    ensures r.Ok? ==> (StrClaim(token.value.claims, "user_id").Some?
      && exists row :: row in rows && Live(row) && r.value == FromModel(EmptyResponse, row)
                       && Uuid.Parse(StrClaim(token.value.claims, "user_id").value) == Some(row.id))
    ensures token.Some? && token.value.valid ==> var userId := StrClaim(token.value.claims, "user_id");
      (userId.None? ==> r == Err(Sentinel(Jti)))
      && (userId.Some? && Uuid.Parse(userId.value).None? ==> r == Err(Wrapped(UserIdUnparsable, UuidRejected)))
      && (userId.Some? && Uuid.Parse(userId.value).Some? ==> var found := ById(rows, Uuid.Parse(userId.value).value, fault);
            (r.Ok? <==> found.Ok?) && (r.Ok? ==> r.value == FromModel(EmptyResponse, found.value))
            && (r.Err? ==> r.error == Wrapped("failed to find user", found.error)))
  {
    if token.None? || !token.value.valid then Err(Sentinel(InvalidToken))
    else match StrClaim(token.value.claims, "user_id")
      case None => Err(Sentinel(Jti))
      case Some(text) =>
        match Uuid.Parse(text)
        case None => Err(Wrapped(UserIdUnparsable, UuidRejected))
        case Some(id) =>
          match ById(rows, id, fault)
          case Err(e) => Err(Wrapped("failed to find user", e))
          case Ok(row) => Ok(FromModel(EmptyResponse, row))
  }

  /** GetUserFromToken: the lookup is the repository's, the answer UserFromToken's. */
  method GetUserFromToken(repo: UserRepository, token: Option<Token>, fault: Option<Error>) returns (r: Result<UserResponse, Error>)
    ensures r == UserFromToken(repo.rows, token, fault)
  {
    if token.None? || !token.value.valid {
      return Err(Sentinel(InvalidToken));
    }
    var userId := StrClaim(token.value.claims, "user_id");
    if userId.None? {
      return Err(Sentinel(Jti));
    }
    var id := Uuid.Parse(userId.value);
    if id.None? {
      return Err(Wrapped(UserIdUnparsable, UuidRejected));
    }
    var user := repo.GetId(id.value, fault);
    match user {
      case Err(e) => return Err(Wrapped("failed to find user", e));
      case Ok(u) => return Ok(FromModel(EmptyResponse, u.Snapshot()));
    }
  }

  /**
   * Login: a failed phone lookup is ErrInvalidCredentials; a blocked
   * account is ErrAccountBlocked before the password is looked at; a
   * wrong password is ErrInvalidCredentials; then the token pair.
   */
  method Login(repo: UserRepository, c: Codec, cfg: JwtConfig, h: Hasher, phone: string, password: string,
               now: Time, accessJti: string, refreshJti: string, fault: Option<Error>)
    returns (r: Result<LoginResponse, Error>)
    ensures ByPhone(repo.rows, phone, fault).Err? ==> r == Err(Sentinel(InvalidCredentials))
    ensures ByPhone(repo.rows, phone, fault).Ok? ==>
      var u := ByPhone(repo.rows, phone, fault).value;
      r == if !u.isActive then Err(Sentinel(AccountBlocked))
           else if !h.matches(u.password, password) then Err(Sentinel(InvalidCredentials))
           else match GenerateJwt(c, cfg, u, now, accessJti, refreshJti)
                case Err(e) => Err(Wrapped("token generation error", e))
                case Ok((access, refresh, _)) => Ok(LoginResponse(access, refresh, "Success authorization"))
  {
    var found := repo.FindByPhone(phone, fault);
    if found.Err? {
      return Err(Sentinel(InvalidCredentials));
    }
    var user := found.value;
    if !user.isActive {
      return Err(Sentinel(AccountBlocked));
    }
    if user.CheckPassword(h, password).Some? {
      return Err(Sentinel(InvalidCredentials));
    }
    var tokens := GenerateJwt(c, cfg, user.Snapshot(), now, accessJti, refreshJti);
    match tokens {
      case Err(e) => return Err(Wrapped("token generation error", e));
      case Ok((access, refresh, _)) => return Ok(LoginResponse(access, refresh, "Success authorization"));
    }
  }

  /**
   * The checks Logout makes before blacklisting: the empty string, a
   * parse failure (wrapped), a missing or non-numeric exp. The token's
   * type is not looked at. Gives the expiry to blacklist with.
   */
  function LogoutExpiry(c: Codec, secret: string, s: string, now: Time): (r: Result<Time, Error>)
    ensures r.Ok? <==> s != "" && LibraryParse(c, secret, s, now).Ok? && NumClaim(LibraryParse(c, secret, s, now).value.claims, "exp").Some?
    ensures r.Ok? ==> r.value == NumClaim(LibraryParse(c, secret, s, now).value.claims, "exp").value
    ensures s != "" && LibraryParse(c, secret, s, now).Err? ==> r == Err(Wrapped("invalid token", LibraryParse(c, secret, s, now).error))
    ensures r.Err? && (s == "" || LibraryParse(c, secret, s, now).Ok?) ==> r == Err(Sentinel(InvalidToken))
  {
    if s == "" then Err(Sentinel(InvalidToken))
    else match LibraryParse(c, secret, s, now)
      case Err(e) => Err(Wrapped("invalid token", e))
      case Ok(t) =>
        if !t.valid then Err(Sentinel(InvalidToken))
        else match NumClaim(t.claims, "exp")
          case None => Err(Sentinel(InvalidToken))
          case Some(exp) => Ok(exp)
  }

  /** Logout: LogoutExpiry's checks, then the token is blacklisted until its own expiry. */
  method Logout(cache: MemoryCache, c: Codec, secret: string, s: string, now: Time) returns (err: Option<Error>)
    modifies cache
    ensures LogoutExpiry(c, secret, s, now).Err? ==> err == Some(LogoutExpiry(c, secret, s, now).error) && cache.store == old(cache.store)
    ensures LogoutExpiry(c, secret, s, now).Ok? ==> var exp := LogoutExpiry(c, secret, s, now).value;
      err == None && cache.store == old(cache.store)[BlacklistKey(s) := Item(BlacklistMarker, now + BlacklistTtl(exp, now))]
  {
    var expiry := LogoutExpiry(c, secret, s, now);
    if expiry.Err? {
      return Some(expiry.error);
    }
    var blacklistErr := BlacklistToken(cache, s, expiry.value, now);
    err := StoreFailure("failed to blacklist token", blacklistErr);
  }

  /**
   * The checks RefreshToken makes before the lookup: the empty string, a
   * token that does not parse, a type other than "refresh" and a
   * non-string user_id are all ErrInvalidToken. Gives the user_id text.
   */
  function RefreshSubject(c: Codec, secret: string, s: string, now: Time): (r: Result<string, Error>)
    ensures r.Ok? <==> s != "" && LibraryParse(c, secret, s, now).Ok? && HasType(LibraryParse(c, secret, s, now).value.claims, RefreshType)
                       && StrClaim(LibraryParse(c, secret, s, now).value.claims, "user_id").Some?
    ensures r.Ok? ==> r.value == StrClaim(LibraryParse(c, secret, s, now).value.claims, "user_id").value
    ensures r.Err? ==> r.error == Sentinel(InvalidToken)
  {
    if s == "" then Err(Sentinel(InvalidToken))
    else match LibraryParse(c, secret, s, now)
      case Err(_) => Err(Sentinel(InvalidToken))
      case Ok(t) =>
        if !t.valid || !HasType(t.claims, RefreshType) then Err(Sentinel(InvalidToken))
        else match StrClaim(t.claims, "user_id")
          case None => Err(Sentinel(InvalidToken))
          case Some(text) => Ok(text)
  }

  /**
   * RefreshToken: RefreshSubject's checks, the uuid, the lookup, then a
   * new token pair of which only the access token is returned. The
   * blacklist is not consulted.
   */
  method RefreshToken(repo: UserRepository, c: Codec, cfg: JwtConfig, s: string, now: Time,
                      accessJti: string, refreshJti: string, fault: Option<Error>)
    returns (r: Result<TokenResponse, Error>)
    ensures r == match RefreshSubject(c, cfg.secret, s, now)
      case Err(e) => Err(e)
      case Ok(text) =>
        match Uuid.Parse(text)
        case None => Err(Wrapped(UserIdUnparsable, UuidRejected))
        case Some(id) =>
          match ById(repo.rows, id, fault)
          case Err(e) => Err(Wrapped("failed to find user", e))
          case Ok(row) =>
            match GenerateJwt(c, cfg, row, now, accessJti, refreshJti)
            case Err(e) => Err(Wrapped("token generation error", e))
            case Ok((access, _, expiresAt)) =>
              Ok(TokenResponse(access, FromModel(EmptyResponse, row), expiresAt, "Token refreshed successfully"))
  {
    var subject := RefreshSubject(c, cfg.secret, s, now);
    if subject.Err? {
      return Err(subject.error);
    }
    var id := Uuid.Parse(subject.value);
    if id.None? {
      return Err(Wrapped(UserIdUnparsable, UuidRejected));
    }
    var found := repo.GetId(id.value, fault);
    if found.Err? {
      return Err(Wrapped("failed to find user", found.error));
    }
    var user := found.value;
    var tokens := GenerateJwt(c, cfg, user.Snapshot(), now, accessJti, refreshJti);
    match tokens {
      case Err(e) => return Err(Wrapped("token generation error", e));
      case Ok((access, _, expiresAt)) =>
        return Ok(TokenResponse(access, FromModel(EmptyResponse, user.Snapshot()), expiresAt, "Token refreshed successfully"));
    }
  }

  const CreateFailed: string := "ошибка при создании пользователя"

  /** A new row as both registration paths prepare it: fresh id, both timestamps now, and the uploaded photo if any. */
  function Prepared(u: UserRecord, freshId: Id, now: Time, photo: Option<string>): (r: UserRecord)
    ensures r.id == freshId && r.createdAt == now && r.updatedAt == now
    ensures r.photo == (if photo.Some? then photo.value else u.photo)
  {
    u.(id := freshId, createdAt := now, updatedAt := now, photo := if photo.Some? then photo.value else u.photo)
  }

  /** The phone guard: registration stops only when the lookup finds a user; a failed lookup lets it through. */
  predicate PhoneTakenByLookup(rows: seq<UserRecord>, phone: string, fault: Option<Error>) {
    ByPhone(rows, phone, fault).Ok?
  }

  /**
   * UserRegister: the phone guard, then the row from the public form, the
   * photo, the insert (hooks included); the response keeps its empty role.
   */
  method UserRegister(repo: UserRepository, request: UserRequest, upload: Option<Result<string, Error>>, freshId: Id,
                      now: Time, h: Hasher, lookupFault: Option<Error>, createFault: Option<Error>)
    returns (r: Result<UserResponse, Error>)
    requires repo.Valid()
    modifies repo
    ensures repo.Valid()
    ensures PhoneTakenByLookup(old(repo.rows), request.phone, lookupFault) ==>
      r == Err(Sentinel(UserPhoneExists)) && repo.rows == old(repo.rows)
    ensures !PhoneTakenByLookup(old(repo.rows), request.phone, lookupFault) && upload.Some? && upload.value.Err? ==>
      r == Err(Wrapped(PhotoFailed, upload.value.error)) && repo.rows == old(repo.rows)
    ensures !PhoneTakenByLookup(old(repo.rows), request.phone, lookupFault) && (upload.None? || upload.value.Ok?) ==>
      var photo := if upload.Some? then Some(upload.value.value) else None;
      var (hooked, err, after) := Insert(old(repo.rows), Prepared(ToModelUser(request, request.password), freshId, now, photo), freshId, h, createFault);
      repo.rows == after && r == (if err.Some? then Err(Wrapped(CreateFailed, err.value)) else Ok(FromModelUser(EmptyResponse, hooked)))
  {
    var existing := repo.FindByPhone(request.phone, lookupFault);
    if existing.Ok? {
      return Err(Sentinel(UserPhoneExists));
    }
    var row := ToModelUser(request, request.password);
    var photo: Option<string> := None;
    if upload.Some? {
      var saved := SaveUserPhoto(upload.value);
      if saved.Err? {
        return Err(saved.error);
      }
      photo := Some(saved.value);
    }
    var user := new User(Prepared(row, freshId, now, photo));
    var err := repo.Create(user, freshId, h, createFault);
    if err.Some? {
      return Err(Wrapped(CreateFailed, err.value));
    }
    r := Ok(FromModelUser(EmptyResponse, user.Snapshot()));
  }

  /**
   * Register: as UserRegister, from the dashboard form (which may name a
   * role), and the response carries the stored role.
   */
  method Register(repo: UserRepository, request: UserDashboard, upload: Option<Result<string, Error>>, freshId: Id,
                  now: Time, h: Hasher, lookupFault: Option<Error>, createFault: Option<Error>)
    returns (r: Result<UserResponse, Error>)
    requires repo.Valid()
    modifies repo
    ensures repo.Valid()
    ensures PhoneTakenByLookup(old(repo.rows), request.phone, lookupFault) ==>
      r == Err(Sentinel(UserPhoneExists)) && repo.rows == old(repo.rows)
    ensures !PhoneTakenByLookup(old(repo.rows), request.phone, lookupFault) && upload.Some? && upload.value.Err? ==>
      r == Err(Wrapped(PhotoFailed, upload.value.error)) && repo.rows == old(repo.rows)
    ensures !PhoneTakenByLookup(old(repo.rows), request.phone, lookupFault) && (upload.None? || upload.value.Ok?) ==>
      var photo := if upload.Some? then Some(upload.value.value) else None;
      var (hooked, err, after) := Insert(old(repo.rows), Prepared(ToModel(request, request.password), freshId, now, photo), freshId, h, createFault);
      repo.rows == after && r == (if err.Some? then Err(Wrapped(CreateFailed, err.value)) else Ok(FromModel(EmptyResponse, hooked)))
  {
    var existing := repo.FindByPhone(request.phone, lookupFault);
    if existing.Ok? {
      return Err(Sentinel(UserPhoneExists));
    }
    var row := ToModel(request, request.password);
    var photo: Option<string> := None;
    if upload.Some? {
      var saved := SaveUserPhoto(upload.value);
      if saved.Err? {
        return Err(saved.error);
      }
      photo := Some(saved.value);
    }
    var user := new User(Prepared(row, freshId, now, photo));
    var err := repo.Create(user, freshId, h, createFault);
    if err.Some? {
      return Err(Wrapped(CreateFailed, err.value));
    }
    r := Ok(FromModel(EmptyResponse, user.Snapshot()));
  }

  /** A token the codec signs comes back from the library as a valid HS256 token with the signed claims. */
  lemma SignedParses(c: Codec, secret: string, claims: Claims, at: Time)
    requires Sound(c) && c.claimsOk(claims, at) && c.sign(Hs256, secret, claims).Ok?
    ensures c.sign(Hs256, secret, claims).value != ""
    ensures LibraryParse(c, secret, c.sign(Hs256, secret, claims).value, at) == Ok(Token(Hs256, claims, true))
  {
    assert c.decode(c.sign(Hs256, secret, claims).value, secret) == Some(Decoded(Hs256, claims, true));
  }

  /**
   * An issued access token passes VerifyToken, and GetTokenInfo's claim
   * checks read back the user, the role, the type, both times and the jti.
   */
  lemma IssuedAccessVerifies(c: Codec, cfg: JwtConfig, u: UserRecord, now: Time, accessJti: string, refreshJti: string, at: Time)
    requires Sound(c)
    requires c.claimsOk(PairClaims(u, AccessType, now + cfg.expiry, accessJti, now), at)
    requires GenerateJwt(c, cfg, u, now, accessJti, refreshJti).Ok?
    ensures var access := GenerateJwt(c, cfg, u, now, accessJti, refreshJti).value.0;
      VerifyToken(c, cfg.secret, access, at) == Ok(Token(Hs256, PairClaims(u, AccessType, now + cfg.expiry, accessJti, now), true))
      && ExtractInfo(PairClaims(u, AccessType, now + cfg.expiry, accessJti, now))
         == Ok(TokenInfo(u.id, u.role, AccessType, now + cfg.expiry, now, accessJti))
  {
    SignedParses(c, cfg.secret, PairClaims(u, AccessType, now + cfg.expiry, accessJti, now), at);
  }

  /** An issued refresh token is refused by VerifyToken, whose type must be "access". */
  lemma IssuedRefreshFailsVerify(c: Codec, cfg: JwtConfig, u: UserRecord, now: Time, accessJti: string, refreshJti: string, at: Time)
    requires Sound(c)
    requires c.claimsOk(PairClaims(u, RefreshType, now + cfg.refreshExpiry, refreshJti, now), at)
    requires GenerateJwt(c, cfg, u, now, accessJti, refreshJti).Ok?
    ensures VerifyToken(c, cfg.secret, GenerateJwt(c, cfg, u, now, accessJti, refreshJti).value.1, at) == Err(Sentinel(InvalidToken))
  {
    SignedParses(c, cfg.secret, PairClaims(u, RefreshType, now + cfg.refreshExpiry, refreshJti, now), at);
  }

  /** An issued refresh token names its user to RefreshToken; an issued access token is refused there. */
  lemma IssuedPairForRefresh(c: Codec, cfg: JwtConfig, u: UserRecord, now: Time, accessJti: string, refreshJti: string, at: Time)
    requires Sound(c)
    requires c.claimsOk(PairClaims(u, AccessType, now + cfg.expiry, accessJti, now), at)
    requires c.claimsOk(PairClaims(u, RefreshType, now + cfg.refreshExpiry, refreshJti, now), at)
    requires GenerateJwt(c, cfg, u, now, accessJti, refreshJti).Ok?
    ensures var (access, refresh, _) := GenerateJwt(c, cfg, u, now, accessJti, refreshJti).value;
      RefreshSubject(c, cfg.secret, refresh, at) == Ok(u.id) && RefreshSubject(c, cfg.secret, access, at) == Err(Sentinel(InvalidToken))
  {
    SignedParses(c, cfg.secret, PairClaims(u, AccessType, now + cfg.expiry, accessJti, now), at);
    SignedParses(c, cfg.secret, PairClaims(u, RefreshType, now + cfg.refreshExpiry, refreshJti, now), at);
  }

  /** Either token of an issued pair can be logged out, each with its own expiry: the type is not checked. */
  lemma IssuedPairLogoutExpiry(c: Codec, cfg: JwtConfig, u: UserRecord, now: Time, accessJti: string, refreshJti: string, at: Time)
    requires Sound(c)
    requires c.claimsOk(PairClaims(u, AccessType, now + cfg.expiry, accessJti, now), at)
    requires c.claimsOk(PairClaims(u, RefreshType, now + cfg.refreshExpiry, refreshJti, now), at)
    requires GenerateJwt(c, cfg, u, now, accessJti, refreshJti).Ok?
    ensures var (access, refresh, _) := GenerateJwt(c, cfg, u, now, accessJti, refreshJti).value;
      LogoutExpiry(c, cfg.secret, access, at) == Ok(now + cfg.expiry)
      && LogoutExpiry(c, cfg.secret, refresh, at) == Ok(now + cfg.refreshExpiry)
  {
    SignedParses(c, cfg.secret, PairClaims(u, AccessType, now + cfg.expiry, accessJti, now), at);
    SignedParses(c, cfg.secret, PairClaims(u, RefreshType, now + cfg.refreshExpiry, refreshJti, now), at);
  }

  /**
   * Once its non-zero exp has passed, a token is refused by VerifyToken, by
   * RefreshToken's checks and by Logout's: the library sees to it.
   */
  lemma ExpiredTokenRefused(c: Codec, secret: string, s: string, now: Time)
    requires EnforcesExpiry(c)
    requires c.decode(s, secret).Some? && NumClaim(c.decode(s, secret).value.claims, "exp").Some?
    requires NumClaim(c.decode(s, secret).value.claims, "exp").value != 0
    requires After(now, NumClaim(c.decode(s, secret).value.claims, "exp").value)
    ensures VerifyToken(c, secret, s, now).Err?
    ensures RefreshSubject(c, secret, s, now).Err?
    ensures LogoutExpiry(c, secret, s, now).Err?
  {
    ParseRefusesExpired(c, secret, s, now);
  }

  /**
   * An access token whose `exp` is 0 and which the library lets through
   * passes VerifyToken, which never looks at `exp`, while ValidateToken's
   * own comparison calls it expired.
   */
  lemma ZeroExpiryPassesVerify(c: Codec, secret: string, claims: Claims, s: string, now: Time)
    requires Sound(c) && CreateToken(c, secret, claims) == Ok(s)
    requires HasType(claims, AccessType) && NumClaim(claims, "exp") == Some(0)
    requires c.claimsOk(claims, now) && After(now, 0)
    ensures VerifyToken(c, secret, s, now) == Ok(Token(Hs256, claims, true))
    ensures ValidateToken(VerifyToken(c, secret, s, now).value, now) == Some(Text("token expired"))
  {
    CreateThenParse(c, secret, claims, s, now);
  }

  /** After Logout the token is revoked from now until its own expiry. */
  lemma {:induction false} LogoutRevokesUntilExpiry(c: Codec, secret: string, s: string, store: map<string, Item>, now: Time, later: Time)
    requires LogoutExpiry(c, secret, s, now).Ok?
    requires now <= later <= LogoutExpiry(c, secret, s, now).value
    ensures var exp := LogoutExpiry(c, secret, s, now).value;
      Revoked(store[BlacklistKey(s) := Item(BlacklistMarker, now + BlacklistTtl(exp, now))], s, later)
  {
    RevokedThroughExpiry(store, s, LogoutExpiry(c, secret, s, now).value, now, later);
  }

  /** A token from GenerateRefreshToken carries no role, so GetTokenInfo's claim checks stop at the role. */
  lemma RefreshOnlyTokenHasNoInfo(u: UserRecord, exp: Time, jti: string)
    ensures ExtractInfo(RefreshOnlyClaims(u, exp, jti)) == Err(InvalidClaim("role"))
  {
  }

  /** With the lookup working, registration is refused exactly when a user that is not deleted has the phone. */
  lemma PhoneGuardExact(rows: seq<UserRecord>, phone: string)
    ensures PhoneTakenByLookup(rows, phone, None) <==> exists j :: 0 <= j < |rows| && Live(rows[j]) && rows[j].phone == phone
  {
  }

  /** With the lookup failing, the guard never fires, whatever the table holds. */
  lemma PhoneGuardOpenOnFault(rows: seq<UserRecord>, phone: string, e: Error)
    ensures !PhoneTakenByLookup(rows, phone, Some(e))
  {
  }
}
