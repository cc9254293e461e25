/**
 Laws of the configuration loader: how each resolver treats unset, empty,
 valid and malformed values, how `New` wires every field to its own
 variable and default, and what that wiring implies about defaults,
 locality and determinism.
 */
module ConfigLaws {
  import opened Strconv
  import opened Config

  // ---------------------------------------------------------------------
  // loadEnv
  // ---------------------------------------------------------------------

  /** Unset and set-to-empty are indistinguishable: both give the fallback. */
  lemma LoadEnvUnsetSameAsEmpty(env: Env, key: string, fallback: string)
    ensures LoadEnv(env - {key}, key, fallback) == LoadEnv(env[key := ""], key, fallback)
    ensures LoadEnv(env - {key}, key, fallback) == fallback
  {
  }

  /** The result is either the variable's own text or the fallback, nothing else. */
  lemma LoadEnvIsValueOrFallback(env: Env, key: string, fallback: string)
    ensures var r := LoadEnv(env, key, fallback);
            r == fallback || (key != "" && key in env && r == env[key] && r != "")
  {
  }

  /** The empty name reads as unset whatever the environment holds, so both resolvers fall back. */
  lemma EmptyNameFallsBack(env: Env, strFallback: string, intFallback: int)
    ensures LoadEnv(env, "", strFallback) == strFallback
    ensures LoadEnvInt(env, "", intFallback) == intFallback
  {
  }

  // ---------------------------------------------------------------------
  // loadEnvInt
  // ---------------------------------------------------------------------

  /**
   Setting a variable to the rendering of any 64-bit int reads that int
   back, negatives included; only the empty name, which never reads a
   value, keeps the fallback.
   */
  lemma LoadEnvIntRoundTrip(env: Env, key: string, fallback: int, n: int)
    requires InIntRange(n)
    ensures LoadEnvInt(env[key := Itoa(n)], key, fallback) == if key == "" then fallback else n
  {
    ItoaIsLiteral(n);
  }

  /**
   A character that is neither a digit nor a leading sign makes the value
   malformed, and the fallback is returned instead of an error.
   */
  lemma LoadEnvIntNonNumeric(env: Env, key: string, fallback: int, i: nat)
    requires key in env && i < |env[key]|
    requires !IsDigit(env[key][i])
    requires i > 0 || !IsSign(env[key][0])
    ensures LoadEnvInt(env, key, fallback) == fallback
  {
  }

  /** A well-formed number outside the 64-bit range also falls back. */
  lemma LoadEnvIntOutOfRange(env: Env, key: string, fallback: int)
    requires key in env && IsDecimalLiteral(env[key])
    requires !InIntRange(LiteralValue(env[key]))
    ensures LoadEnvInt(env, key, fallback) == fallback
  {
  }

  /** "abc" and "notanumber" are not numbers: the fallback is used. */
  lemma LoadEnvIntRejectsWords(env: Env, key: string, fallback: int)
    ensures LoadEnvInt(env[key := "abc"], key, fallback) == fallback
    ensures LoadEnvInt(env[key := "notanumber"], key, fallback) == fallback
  {
    LoadEnvIntNonNumeric(env[key := "abc"], key, fallback, 0);
    LoadEnvIntNonNumeric(env[key := "notanumber"], key, fallback, 0);
  }

  // ---------------------------------------------------------------------
  // New: wiring
  // ---------------------------------------------------------------------

  /** Each field of `New` is its own variable resolved against its own default, by the resolver of its type. */
  lemma NewMatchesSchema(env: Env, f: Field)
    ensures New(env).Get(f) == Resolve(env, Schema(f))
  {
  }

  /** No two fields read the same variable. */
  lemma KeysDistinct(f: Field, g: Field)
    requires f != g
    ensures Key(f) != Key(g)
  {
  }

  /** A resolver looks at nothing but the value of its own variable. */
  lemma ResolveLocal(env1: Env, env2: Env, setting: Setting)
    requires Getenv(env1, setting.key) == Getenv(env2, setting.key)
    ensures Resolve(env1, setting) == Resolve(env2, setting)
  {
  }

  // ---------------------------------------------------------------------
  // New: consequences
  // ---------------------------------------------------------------------

  /** An unset or empty variable leaves its field at the default. */
  lemma NewUnsetIsDefault(env: Env, f: Field)
    requires Getenv(env, Key(f)) == ""
    ensures New(env).Get(f) == Default(f)
  {
    NewMatchesSchema(env, f);
  }

  /** A string field takes a non-empty value verbatim, with no trimming or case change. */
  lemma NewStringFieldVerbatim(env: Env, f: Field)
    requires Schema(f).StrSetting? && Getenv(env, Key(f)) != ""
    ensures New(env).Get(f) == Str(Getenv(env, Key(f)))
  {
    NewMatchesSchema(env, f);
  }

  /** An integer field takes the parsed value when the variable is a 64-bit number, else its default. */
  lemma NewIntField(env: Env, f: Field)
    requires Schema(f).IntSetting?
    ensures Parses(Getenv(env, Key(f))) ==> New(env).Get(f) == Int(LiteralValue(Getenv(env, Key(f))))
    ensures !Parses(Getenv(env, Key(f))) ==> New(env).Get(f) == Default(f)
  {
    NewMatchesSchema(env, f);
  }

  /** Two configurations that agree on every field are the same configuration. */
  lemma ConfigExtensional(c1: Config, c2: Config)
    requires forall f: Field :: c1.Get(f) == c2.Get(f)
    ensures c1 == c2
  {
    assert c1.Get(AppName) == c2.Get(AppName);
    assert c1.Get(Version) == c2.Get(Version);
    assert c1.Get(Environment) == c2.Get(Environment);
    assert c1.Get(ServerPort) == c2.Get(ServerPort);
    assert c1.Get(ShutdownTimeoutMs) == c2.Get(ShutdownTimeoutMs);
    assert c1.Get(RedisHost) == c2.Get(RedisHost);
    assert c1.Get(RedisPort) == c2.Get(RedisPort);
    assert c1.Get(RedisPassword) == c2.Get(RedisPassword);
    assert c1.Get(RedisDb) == c2.Get(RedisDb);
    assert c1.Get(RedisStream) == c2.Get(RedisStream);
    assert c1.Get(RedisConsumer) == c2.Get(RedisConsumer);
    assert c1.Get(RedisConsumerGroup) == c2.Get(RedisConsumerGroup);
    assert c1.Get(WorkerConcurrency) == c2.Get(WorkerConcurrency);
    assert c1.Get(WorkerMaxRetries) == c2.Get(WorkerMaxRetries);
  }

  /** A field depends only on its own variable. */
  lemma NewFieldLocal(env1: Env, env2: Env, f: Field)
    requires Getenv(env1, Key(f)) == Getenv(env2, Key(f))
    ensures New(env1).Get(f) == New(env2).Get(f)
  {
    NewMatchesSchema(env1, f);
    NewMatchesSchema(env2, f);
    ResolveLocal(env1, env2, Schema(f));
  }

  /** Changing one variable changes at most its own field; every other field keeps its value. */
  lemma NewUpdateOnlyOwnField(env: Env, f: Field, v: string, g: Field)
    requires g != f
    ensures New(env[Key(f) := v]).Get(g) == New(env).Get(g)
  {
    KeysDistinct(f, g);
    NewFieldLocal(env[Key(f) := v], env, g);
  }

  /**
   `New` is a function of the fourteen variables alone: environments that
   agree on them give identical snapshots, whatever else they hold. With
   equal environments this is determinism.
   */
  lemma NewDeterminedByItsVariables(env1: Env, env2: Env)
    requires forall f: Field :: Getenv(env1, Key(f)) == Getenv(env2, Key(f))
    ensures New(env1) == New(env2)
  {
    forall f: Field
      ensures New(env1).Get(f) == New(env2).Get(f)
    {
      NewFieldLocal(env1, env2, f);
    }
    ConfigExtensional(New(env1), New(env2));
  }

  /** With none of the variables set, every field holds its literal default. */
  lemma NewEmptyEnv()
    ensures New(map[]) == Config(
      "qrun", "development", "1.0.0",
      ServerConfig("8080", 5000),
      RedisConfig("localhost", "6379", "", 0, "qrun_stream", "qrun_consumer", "qrun_group"),
      WorkerConfig(4, 3))
  {
  }

  // ---------------------------------------------------------------------
  // Scenarios
  // ---------------------------------------------------------------------

  /** APP_NAME and WORKER_CONCURRENCY set, the rest unset. */
  lemma ScenarioNameAndConcurrency()
    ensures var c := New(map["APP_NAME" := "billing", "WORKER_CONCURRENCY" := "10"]);
            c.appName == "billing" && c.worker.concurrency == 10 && c.server.port == "8080"
  {
  }

  /** A malformed timeout falls back to 5000 without any error. */
  lemma ScenarioMalformedTimeout()
    ensures New(map["SHUTDOWN_TIMEOUT_MS" := "notanumber"]).server.shutdownTimeoutMs == 5000
  {
    LoadEnvIntRejectsWords(map[], "SHUTDOWN_TIMEOUT_MS", 5000);
  }

  /** REDIS_PASSWORD set to the empty string reads as unset. */
  lemma ScenarioEmptyPassword(env: Env)
    ensures New(env["REDIS_PASSWORD" := ""]).redis.password == ""
  {
  }
}
