/**
 * Tokens and the signing library seen from outside (internal/pkg/jwt/token.go).
 * The cryptography is not modelled: a Codec signs a claims set under a key
 * and decodes a token string back into its header algorithm, its claims and
 * whether the signature checks out; `claimsOk` is the library's own verdict
 * on the registered time claims (exp, iat, nbf) at the present instant.
 */
module Jwt {
  import opened Wrappers
  import opened Clock
  import opened Errors

  /** A claim as it comes out of the token's JSON: a string, a number or anything else. */
  datatype ClaimValue = Str(s: string) | Num(n: int) | Other

  type Claims = map<string, ClaimValue>

  /** A parsed token; `valid` is set by the parser once every check has passed. */
  datatype Token = Token(alg: string, claims: Claims, valid: bool)

  /** The library's reading of a token string checked against a key. */
  datatype Decoded = Decoded(alg: string, claims: Claims, signatureOk: bool)

  datatype Codec = Codec(
    sign: (string, string, Claims) -> Result<string, Error>,
    decode: (string, string) -> Option<Decoded>,
    claimsOk: (Claims, Time) -> bool)

  /** A token the codec signs is a non-empty string that decodes, under the same key, to what was signed. */
  ghost predicate Sound(c: Codec) {
    forall alg, key, claims :: c.sign(alg, key, claims).Ok? ==>
      c.sign(alg, key, claims).value != ""
      && c.decode(c.sign(alg, key, claims).value, key) == Some(Decoded(alg, claims, true))
  }

  /**
   * The library refuses a token whose numeric `exp` lies in the past. Only
   * that much is assumed of it: versions differ on the very second of `exp`,
   * and an `exp` of 0 counts for the library as no `exp` at all.
   */
  ghost predicate EnforcesExpiry(c: Codec) {
    forall claims, now ::
      (NumClaim(claims, "exp").Some? && NumClaim(claims, "exp").value != 0 && After(now, NumClaim(claims, "exp").value))
      ==> !c.claimsOk(claims, now)
  }

  const Hs256: string := "HS256"

  /** The algorithms of jwt.SigningMethodHMAC. */
  predicate IsHmac(alg: string) {
    alg == "HS256" || alg == "HS384" || alg == "HS512"
  }

  /** `claims[name].(string)`. */
  function StrClaim(claims: Claims, name: string): (r: Option<string>)
    ensures r.Some? <==> name in claims && claims[name].Str?
  {
    if name in claims && claims[name].Str? then Some(claims[name].s) else None
  }

  /** `claims[name].(float64)`. */
  function NumClaim(claims: Claims, name: string): (r: Option<int>)
    ensures r.Some? <==> name in claims && claims[name].Num?
  {
    if name in claims && claims[name].Num? then Some(claims[name].n) else None
  }

  /**
   * jwt.Parse with the application's key function: an unreadable string
   * fails, then a non-HMAC algorithm is refused before the key is handed
   * over, then a bad signature or claims the library rejects fail; what
   * remains is a valid token.
   */
  function LibraryParse(c: Codec, key: string, s: string, now: Time): (r: Result<Token, Error>)
    ensures r.Ok? <==> (c.decode(s, key).Some? && IsHmac(c.decode(s, key).value.alg)
                        && c.decode(s, key).value.signatureOk && c.claimsOk(c.decode(s, key).value.claims, now))
    ensures r.Ok? ==> r.value == Token(c.decode(s, key).value.alg, c.decode(s, key).value.claims, true)
  {
    match c.decode(s, key)
    case None => Err(Text("token is malformed"))
    case Some(d) =>
      if !IsHmac(d.alg) then Err(Text("unexpected signing method: " + d.alg))
      else if !d.signatureOk || !c.claimsOk(d.claims, now) then Err(Text("token is invalid"))
      else Ok(Token(d.alg, d.claims, true))
  }

  /** jwtService.CreateToken: always declares HS256; a signing failure is wrapped. */
  function CreateToken(c: Codec, key: string, claims: Claims): (r: Result<string, Error>)
    ensures r.Ok? <==> c.sign(Hs256, key, claims).Ok?
    ensures r.Err? ==> r.error == Wrapped("failed to sign token", c.sign(Hs256, key, claims).error)
  {
    match c.sign(Hs256, key, claims)
    case Ok(s) => Ok(s)
    case Err(e) => Err(Wrapped("failed to sign token", e))
  }

  /** jwtService.ParseToken: LibraryParse with its error wrapped. */
  function ParseToken(c: Codec, key: string, s: string, now: Time): (r: Result<Token, Error>)
    ensures r.Ok? <==> LibraryParse(c, key, s, now).Ok?
    ensures r.Ok? ==> r == LibraryParse(c, key, s, now) && r.value.valid && IsHmac(r.value.alg)
  {
    match LibraryParse(c, key, s, now)
    case Ok(t) => Ok(t)
    case Err(e) => Err(Wrapped("failed to parse token", e))
  }

  /**
   * jwtService.ValidateToken: an invalid token fails; a numeric `exp` the
   * present instant is strictly after fails; anything else, including a
   * missing or non-numeric `exp`, passes.
   */
  function ValidateToken(t: Token, now: Time): (r: Option<Error>)
    ensures r == None <==> t.valid && (NumClaim(t.claims, "exp").Some? ==> now <= NumClaim(t.claims, "exp").value)
    ensures !t.valid ==> r == Some(Text("invalid token"))
    ensures r == Some(Text("token expired")) <==> t.valid && NumClaim(t.claims, "exp").Some? && After(now, NumClaim(t.claims, "exp").value)
    ensures t.valid && r.Some? ==> r == Some(Text("token expired"))
  {
    if !t.valid then Some(Text("invalid token"))
    else
      match NumClaim(t.claims, "exp")
      case Some(exp) => if After(now, exp) then Some(Text("token expired")) else None
      case None => None
  }

  /** What CreateToken signs, ParseToken gives back, declared as HS256. */
  lemma CreateThenParse(c: Codec, key: string, claims: Claims, s: string, now: Time)
    requires Sound(c) && c.claimsOk(claims, now)
    requires CreateToken(c, key, claims) == Ok(s)
    ensures ParseToken(c, key, s, now) == Ok(Token(Hs256, claims, true))
  {
    assert c.decode(c.sign(Hs256, key, claims).value, key) == Some(Decoded(Hs256, claims, true));
  }

  /** Whatever its signature, a token declaring a non-HMAC algorithm does not parse. */
  lemma ParseRefusesForeignAlgorithm(c: Codec, key: string, s: string, now: Time)
    requires c.decode(s, key).Some? && !IsHmac(c.decode(s, key).value.alg)
    ensures ParseToken(c, key, s, now).Err?
  {
  }

  /** A token is still accepted at the very second its `exp` names, and refused one second later. */
  lemma ValidateTokenExpiryBoundary(t: Token, exp: Time)
    requires t.valid && "exp" in t.claims && t.claims["exp"] == Num(exp)
    ensures ValidateToken(t, exp) == None
    ensures ValidateToken(t, exp + 1) == Some(Text("token expired"))
  {
  }

  /** A token whose non-zero numeric `exp` has passed does not parse, whatever its signature. */
  lemma ParseRefusesExpired(c: Codec, key: string, s: string, now: Time)
    requires EnforcesExpiry(c)
    requires c.decode(s, key).Some? && NumClaim(c.decode(s, key).value.claims, "exp").Some?
    requires NumClaim(c.decode(s, key).value.claims, "exp").value != 0
    requires After(now, NumClaim(c.decode(s, key).value.claims, "exp").value)
    ensures ParseToken(c, key, s, now).Err?
  {
    assert !c.claimsOk(c.decode(s, key).value.claims, now);
  }

  /**
   * What ParseToken accepts, ValidateToken accepts at the same instant,
   * except a token with `exp` 0: the library lets it through and
   * ValidateToken's own comparison calls it expired.
   */
  lemma ParsedTokenValidates(c: Codec, key: string, s: string, now: Time)
    requires EnforcesExpiry(c) && ParseToken(c, key, s, now).Ok?
    ensures var t := ParseToken(c, key, s, now).value;
      ValidateToken(t, now) == if NumClaim(t.claims, "exp") == Some(0) && After(now, 0) then Some(Text("token expired")) else None
  {
    var claims := c.decode(s, key).value.claims;
    assert c.claimsOk(claims, now);
  }
}
