/**
 * Configuration from the environment (config/config.go). The environment
 * is a map from variable name to value; reading a .env file into it is
 * not modelled. Durations are whole seconds.
 */
module Config {
  import opened Wrappers
  import opened Clock
  import opened Errors
  import opened Decimal

  type Env = map<string, string>

  datatype ServerConfig = ServerConfig(port: string, readTimeout: Duration, writeTimeout: Duration)
  datatype DatabaseConfig = DatabaseConfig(host: string, port: string, user: string, password: string, name: string,
                                           sslMode: string, maxOpenConns: int, maxIdleConns: int, connMaxLifetime: Duration)
  datatype JwtConfig = JwtConfig(secret: string, expiry: Duration, refreshExpiry: Duration)
  datatype RedisConfig = RedisConfig(host: string, port: string, password: string, db: int)
  datatype MinioConfig = MinioConfig(host: string, bucket: string, port: string, accessKey: string, secretKey: string,
                                     ssl: bool, publicEndpoint: string)
  datatype AppConfig = AppConfig(server: ServerConfig, database: DatabaseConfig, jwt: JwtConfig, redis: RedisConfig, minio: MinioConfig)

  /** getEnv: a variable that is set wins, even when empty; otherwise the fallback. */
  function GetEnv(env: Env, key: string, fallback: string): (r: string)
    ensures key in env ==> r == env[key]
    ensures key !in env ==> r == fallback
  {
    if key in env then env[key] else fallback
  }

  /** getEnvAsInt: a set variable that Atoi accepts, otherwise the fallback. */
  function GetEnvAsInt(env: Env, key: string, fallback: int): (r: int)
    ensures key in env && ParseInt(env[key]).Some? ==> r == ParseInt(env[key]).value
    ensures key !in env || ParseInt(env[key]).None? ==> r == fallback
  {
    if key in env && ParseInt(env[key]).Some? then ParseInt(env[key]).value else fallback
  }

  /** strconv.ParseBool: exactly these spellings, anything else is an error. */
  function ParseBool(s: string): (r: Option<bool>)
    ensures r == Some(true) <==> s in {"1", "t", "T", "TRUE", "true", "True"}
    ensures r == Some(false) <==> s in {"0", "f", "F", "FALSE", "false", "False"}
  {
    if s in {"1", "t", "T", "TRUE", "true", "True"} then Some(true)
    else if s in {"0", "f", "F", "FALSE", "false", "False"} then Some(false)
    else None
  }

  /** getEnvAsBool: a set variable that ParseBool accepts, otherwise the fallback. */
  function GetEnvAsBool(env: Env, key: string, fallback: bool): (r: bool)
    ensures key in env && ParseBool(env[key]).Some? ==> r == ParseBool(env[key]).value
    ensures key !in env || ParseBool(env[key]).None? ==> r == fallback
  {
    if key in env && ParseBool(env[key]).Some? then ParseBool(env[key]).value else fallback
  }

  /** What LoadConfig gives every setting that is not in the environment. */
  const Defaults: AppConfig := AppConfig(
    ServerConfig("8080", 10 * Second, 10 * Second),
    DatabaseConfig("", "5432", "", "", "", "disable", 25, 25, Hour),
    JwtConfig("", 24 * Hour, 168 * Hour),
    RedisConfig("", "6379", "", 0),
    MinioConfig("", "", "9000", "", "", false, ""))

  /** The configuration LoadConfig builds before validating it; an empty environment gives the defaults. */
  function Build(env: Env): (c: AppConfig)
    ensures env == map[] ==> c == Defaults
  {
    AppConfig(ServerSection(env), DatabaseSection(env), JwtSection(env), RedisSection(env), MinioSection(env))
  }

  /** The five sections of LoadConfig's struct literal, each read from its own variables. */
  function ServerSection(env: Env): ServerConfig {
    ServerConfig(GetEnv(env, "SERVER_PORT", "8080"),
                 Second * GetEnvAsInt(env, "SERVER_READ_TIMEOUT", 10),
                 Second * GetEnvAsInt(env, "SERVER_WRITE_TIMEOUT", 10))
  }

  function DatabaseSection(env: Env): DatabaseConfig {
    DatabaseConfig(GetEnv(env, "DB_HOST", ""), GetEnv(env, "DB_PORT", "5432"), GetEnv(env, "DB_USER", ""),
                   GetEnv(env, "DB_PASSWORD", ""), GetEnv(env, "DB_NAME", ""), GetEnv(env, "DB_SSLMODE", "disable"),
                   GetEnvAsInt(env, "DB_MAX_OPEN_CONNS", 25), GetEnvAsInt(env, "DB_MAX_IDLE_CONNS", 25),
                   Hour * GetEnvAsInt(env, "DB_CONN_MAX_LIFETIME_HOURS", 1))
  }

  function JwtSection(env: Env): JwtConfig {
    JwtConfig(GetEnv(env, "SECRET_KEY", ""),
              Hour * GetEnvAsInt(env, "JWT_EXPIRY_HOURS", 24),
              Hour * GetEnvAsInt(env, "JWT_REFRESH_EXPIRY_HOURS", 168))
  }

  function RedisSection(env: Env): RedisConfig {
    RedisConfig(GetEnv(env, "REDIS_HOST", ""), GetEnv(env, "REDIS_PORT", "6379"), GetEnv(env, "REDIS_PASSWORD", ""),
                GetEnvAsInt(env, "REDIS_DB", 0))
  }

  function MinioSection(env: Env): MinioConfig {
    MinioConfig(GetEnv(env, "MINIO_HOST", ""), GetEnv(env, "MINIO_BUCKET_NAME", ""), GetEnv(env, "MINIO_PORT", "9000"),
                GetEnv(env, "MINIO_ACCESS_KEY", ""), GetEnv(env, "MINIO_SECRET_KEY", ""),
                GetEnvAsBool(env, "MINIO_SSL", false), GetEnv(env, "MINIO_PUBLIC_ENDPOINT", ""))
  }

  /** The settings validate insists on, in the order it checks them. */
  const Required: seq<string> :=
    ["DB_HOST", "DB_USER", "DB_PASSWORD", "DB_NAME", "SECRET_KEY", "MINIO_ACCESS_KEY", "MINIO_SECRET_KEY"]

  /** The values of the required settings, in the same order. */
  function RequiredValues(c: AppConfig): (v: seq<string>)
    ensures |v| == |Required|
  {
    [c.database.host, c.database.user, c.database.password, c.database.name, c.jwt.secret, c.minio.accessKey, c.minio.secretKey]
  }

  /** Required[i] is the first required setting left empty. */
  predicate FirstEmpty(c: AppConfig, i: int) {
    0 <= i < |Required| && RequiredValues(c)[i] == "" && forall j :: 0 <= j < i ==> RequiredValues(c)[j] != ""
  }

  function Missing(name: string): Error {
    Text(name + " is required")
  }

  /** validate: reports the first empty required setting, and nothing when all are set. */
  function Validate(c: AppConfig): (r: Option<Error>)
    ensures r.None? <==> forall i :: 0 <= i < |Required| ==> RequiredValues(c)[i] != ""
    ensures r.Some? ==> exists i :: FirstEmpty(c, i) && r.value == Missing(Required[i])
  {
    if c.database.host == "" then assert FirstEmpty(c, 0); Some(Missing("DB_HOST"))
    else if c.database.user == "" then assert FirstEmpty(c, 1); Some(Missing("DB_USER"))
    else if c.database.password == "" then assert FirstEmpty(c, 2); Some(Missing("DB_PASSWORD"))
    else if c.database.name == "" then assert FirstEmpty(c, 3); Some(Missing("DB_NAME"))
    else if c.jwt.secret == "" then assert FirstEmpty(c, 4); Some(Missing("SECRET_KEY"))
    else if c.minio.accessKey == "" then assert FirstEmpty(c, 5); Some(Missing("MINIO_ACCESS_KEY"))
    else if c.minio.secretKey == "" then assert FirstEmpty(c, 6); Some(Missing("MINIO_SECRET_KEY"))
    else None
  }

  /** LoadConfig: the built configuration, or validate's error. */
  function LoadConfig(env: Env): (r: Result<AppConfig, Error>)
    ensures r.Err? <==> Validate(Build(env)).Some?
    ensures r.Err? ==> r.error == Validate(Build(env)).value
    ensures r.Ok? ==> r.value == Build(env) && r.value.jwt.secret != ""
  {
    var c := Build(env);
    match Validate(c)
    case Some(e) => Err(e)
    case None => Ok(c)
  }

  /** Each required setting is read from the variable of the same name, with "" as fallback. */
  lemma RequiredReadFromEnv(env: Env, i: nat)
    requires i < |Required|
    ensures RequiredValues(Build(env))[i] == GetEnv(env, Required[i], "")
  {
  }

  /** LoadConfig succeeds exactly when every required variable is set and non-empty. */
  lemma {:induction false} LoadConfigNeedsRequired(env: Env)
    ensures LoadConfig(env).Ok? <==> forall i :: 0 <= i < |Required| ==> Required[i] in env && env[Required[i]] != ""
  {
    forall i | 0 <= i < |Required|
      ensures RequiredValues(Build(env))[i] == GetEnv(env, Required[i], "")
    {
      RequiredReadFromEnv(env, i);
    }
  }

  /** With the JWT variables unset, tokens live 24 hours and refresh tokens 168 hours. */
  lemma JwtDefaults(env: Env)
    requires "JWT_EXPIRY_HOURS" !in env && "JWT_REFRESH_EXPIRY_HOURS" !in env
    ensures Build(env).jwt.expiry == 24 * Hour && Build(env).jwt.refreshExpiry == 168 * Hour
  {
  }

  /** The JWT lifetimes are the parsed hour counts, scaled to hours. */
  lemma JwtExpiryScaled(env: Env, n: int)
    requires "JWT_EXPIRY_HOURS" in env && ParseInt(env["JWT_EXPIRY_HOURS"]) == Some(n)
    ensures Build(env).jwt.expiry == n * Hour
  {
  }

  /** An unparsable value is as good as an absent one. */
  lemma UnparsableIsFallback(env: Env, key: string, fallback: int)
    requires key in env && ParseInt(env[key]).None?
    ensures GetEnvAsInt(env, key, fallback) == GetEnvAsInt(env - {key}, key, fallback) == fallback
  {
  }

  /** The first missing setting is the one reported, whatever else is missing after it. */
  lemma ValidateReportsFirst(c: AppConfig, i: int)
    requires FirstEmpty(c, i)
    ensures Validate(c) == Some(Missing(Required[i]))
  {
    assert Validate(c).Some?;
    var k :| FirstEmpty(c, k) && Validate(c).value == Missing(Required[k]);
    assert !(k < i) && !(i < k);
  }
}
