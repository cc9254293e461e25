/**
 The environment-driven configuration loader of the qrun services.

 The process environment is a value here: a map from variable names to
 their strings, read the way `os.Getenv` reads it on Unix: names match
 exactly, and an unset variable, like any lookup of the empty name, reads
 as the empty string. `New` builds the whole configuration snapshot from it
 with one resolver call per field; it cannot fail.
 */
module Config {
  import opened Strconv

  /** The process environment: variable name to value. */
  type Env = map<string, string>

  /**
   `os.Getenv` on Unix: the value of the variable whose name matches exactly,
   or "" when it is not set. Go returns "" for the empty name before
   consulting the environment at all.
   */
  function Getenv(env: Env, key: string): string {
    if key != "" && key in env then env[key] else ""
  }

  // ---------------------------------------------------------------------
  // The configuration record
  // ---------------------------------------------------------------------

  datatype ServerConfig = ServerConfig(port: string, shutdownTimeoutMs: int)

  datatype RedisConfig = RedisConfig(
    host: string,
    port: string,
    password: string,
    db: int,
    stream: string,
    consumer: string,
    consumerGroup: string)

  datatype WorkerConfig = WorkerConfig(concurrency: int, maxRetries: int)

  /** One field of the configuration, as named by the record's layout. */
  datatype Field =
    | AppName | Version | Environment
    | ServerPort | ShutdownTimeoutMs
    | RedisHost | RedisPort | RedisPassword | RedisDb
    | RedisStream | RedisConsumer | RedisConsumerGroup
    | WorkerConcurrency | WorkerMaxRetries

  /** A field's value: the record holds strings and Go ints. */
  datatype Value = Str(s: string) | Int(i: int)

  /** The configuration snapshot shared by the API and worker services. */
  datatype Config = Config(
    appName: string,
    environment: string,
    version: string,
    server: ServerConfig,
    redis: RedisConfig,
    worker: WorkerConfig)
  {
    /** Read one field. */
    function Get(f: Field): Value {
      match f
      case AppName => Str(appName)
      case Version => Str(version)
      case Environment => Str(environment)
      case ServerPort => Str(server.port)
      case ShutdownTimeoutMs => Int(server.shutdownTimeoutMs)
      case RedisHost => Str(redis.host)
      case RedisPort => Str(redis.port)
      case RedisPassword => Str(redis.password)
      case RedisDb => Int(redis.db)
      case RedisStream => Str(redis.stream)
      case RedisConsumer => Str(redis.consumer)
      case RedisConsumerGroup => Str(redis.consumerGroup)
      case WorkerConcurrency => Int(worker.concurrency)
      case WorkerMaxRetries => Int(worker.maxRetries)
    }

    /** Every integer field holds a value of Go's 64-bit `int`. */
    predicate Valid() {
      && InIntRange(server.shutdownTimeoutMs)
      && InIntRange(redis.db)
      && InIntRange(worker.concurrency)
      && InIntRange(worker.maxRetries)
    }
  }

  // ---------------------------------------------------------------------
  // The variable names and defaults that `New` passes to the resolvers
  // ---------------------------------------------------------------------

  /** A field's variable name and default, typed by the resolver that reads it. */
  datatype Setting =
    | StrSetting(key: string, strDefault: string)
    | IntSetting(key: string, intDefault: int)

  /** The fourteen variable names and defaults of `New`'s resolver calls, written once as a table. */
  function Schema(f: Field): Setting {
    match f
    case AppName => StrSetting("APP_NAME", "qrun")
    case Version => StrSetting("APP_VERSION", "1.0.0")
    case Environment => StrSetting("APP_ENV", "development")
    case ServerPort => StrSetting("SERVER_PORT", "8080")
    case ShutdownTimeoutMs => IntSetting("SHUTDOWN_TIMEOUT_MS", 5000)
    case RedisHost => StrSetting("REDIS_HOST", "localhost")
    case RedisPort => StrSetting("REDIS_PORT", "6379")
    case RedisPassword => StrSetting("REDIS_PASSWORD", "")
    case RedisDb => IntSetting("REDIS_DB", 0)
    case RedisStream => StrSetting("REDIS_STREAM", "qrun_stream")
    case RedisConsumer => StrSetting("REDIS_CONSUMER_NAME", "qrun_consumer")
    case RedisConsumerGroup => StrSetting("REDIS_CONSUMER_GROUP", "qrun_group")
    case WorkerConcurrency => IntSetting("WORKER_CONCURRENCY", 4)
    case WorkerMaxRetries => IntSetting("WORKER_MAX_RETRIES", 3)
  }

  /** The environment variable that sets a field. */
  function Key(f: Field): string {
    Schema(f).key
  }

  /** The value a field takes when its variable is unset. */
  function Default(f: Field): Value {
    match Schema(f)
    case StrSetting(_, d) => Str(d)
    case IntSetting(_, d) => Int(d)
  }

  // ---------------------------------------------------------------------
  // The resolvers
  // ---------------------------------------------------------------------

  /** `loadEnv`: the variable's value verbatim when set and non-empty, else the fallback. */
  function LoadEnv(env: Env, key: string, fallback: string): (r: string)
    ensures key != "" && key in env && env[key] != "" ==> r == env[key]
    ensures key == "" || key !in env || env[key] == "" ==> r == fallback
  {
    var val := Getenv(env, key);
    if val != "" then val else fallback
  }

  /**
   `loadEnvInt`: the fallback when the variable is unset or empty, or when
   `Atoi` rejects it; otherwise the parsed number, with no range or sign check.
   */
  function LoadEnvInt(env: Env, key: string, fallback: int): (r: int)
    ensures Parses(Getenv(env, key)) ==> r == LiteralValue(Getenv(env, key))
    ensures !Parses(Getenv(env, key)) ==> r == fallback
  {
    var v := Getenv(env, key);
    if v == "" then
      fallback
    else
      match Atoi(v)
      case None => fallback
      case Some(number) => number
  }

  /** What a setting resolves to in an environment. */
  function Resolve(env: Env, setting: Setting): Value {
    match setting
    case StrSetting(k, d) => Str(LoadEnv(env, k, d))
    case IntSetting(k, d) => Int(LoadEnvInt(env, k, d))
  }

  // ---------------------------------------------------------------------
  // Assembly
  // ---------------------------------------------------------------------

  /**
   `New`: resolve every field from its own variable, in the order
   application metadata, server, queue, worker.
   */
  function New(env: Env): (c: Config)
    ensures c.Valid()
  {
    // Application metadata
    var appName := LoadEnv(env, "APP_NAME", "qrun");
    var version := LoadEnv(env, "APP_VERSION", "1.0.0");
    var environment := LoadEnv(env, "APP_ENV", "development");

    // Server
    var server := ServerConfig(
      LoadEnv(env, "SERVER_PORT", "8080"),
      LoadEnvInt(env, "SHUTDOWN_TIMEOUT_MS", 5000));

    // Redis / queue
    var redis := RedisConfig(
      LoadEnv(env, "REDIS_HOST", "localhost"),
      LoadEnv(env, "REDIS_PORT", "6379"),
      LoadEnv(env, "REDIS_PASSWORD", ""),
      LoadEnvInt(env, "REDIS_DB", 0),
      LoadEnv(env, "REDIS_STREAM", "qrun_stream"),
      LoadEnv(env, "REDIS_CONSUMER_NAME", "qrun_consumer"),
      LoadEnv(env, "REDIS_CONSUMER_GROUP", "qrun_group"));

    // Worker
    var worker := WorkerConfig(
      LoadEnvInt(env, "WORKER_CONCURRENCY", 4),
      LoadEnvInt(env, "WORKER_MAX_RETRIES", 3));

    Config(appName, environment, version, server, redis, worker)
  }
}
