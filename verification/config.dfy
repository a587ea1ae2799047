/**
 Startup configuration: the type-erased fallback `useEnvOrDefaultIfNotSet`
 and the way `main` uses it for the three settings, each result being
 type-asserted back to the setting's Go type.
 */
module Config {

  /** One second as a `time.Duration`, in nanoseconds. */
  const Second: int := 1_000_000_000

  const DefaultServerAddress: string := "localhost:8080"
  const DefaultShutdownTimeout: int := 10 * Second
  const DefaultLoggingMiddleware: bool := false
  const ServiceName: string := "key-value-service-v1"

  /** A Go `interface{}` value, tagged by its dynamic type. `Other` stands for
      every type the fallback does not list, by the name `%T` prints for it;
      `Other` with the name of a listed type is not a Go value (see `WellFormed`). */
  datatype Dynamic =
    | Nil
    | Str(s: string)
    | Dur(nanos: int)
    | Bool(b: bool)
    | Other(typeName: string)

  /** True of the values Go can produce: an `Other` never carries the name of
      a type that has its own constructor. */
  predicate WellFormed(x: Dynamic) {
    x.Other? ==> x.typeName != "string" && x.typeName != "time.Duration" && x.typeName != "bool"
  }

  /** The Go types `main` asserts the fallback's result back to. */
  datatype Kind = StringKind | DurationKind | BoolKind

  function KindName(k: Kind): string {
    match k
    case StringKind => "string"
    case DurationKind => "time.Duration"
    case BoolKind => "bool"
  }

  /** The name `%T` prints for a non-nil dynamic value. */
  function TypeName(x: Dynamic): (name: string)
    requires !x.Nil?
    ensures x.Str? ==> name == KindName(StringKind)
    ensures x.Dur? ==> name == KindName(DurationKind)
    ensures x.Bool? ==> name == KindName(BoolKind)
  {
    match x
    case Str(_) => "string"
    case Dur(_) => "time.Duration"
    case Bool(_) => "bool"
    case Other(t) => t
  }

  predicate HasKind(x: Dynamic, k: Kind) {
    match k
    case StringKind => x.Str?
    case DurationKind => x.Dur?
    case BoolKind => x.Bool?
  }

  /** Why the process panicked: the fallback's own panic, or a failed type
      assertion `x.(T)` on a value of another type. */
  datatype Panic =
    | UnexpectedType(typeName: string)
    | FailedAssertion(concrete: Dynamic, asserted: Kind)

  /** The panic's text: the fallback's `fmt.Sprintf("unexpected type %T", v)`,
      or the Go runtime's message for a failed interface conversion. */
  function PanicMessage(p: Panic): string {
    match p
    case UnexpectedType(t) => "unexpected type " + t
    case FailedAssertion(Nil, k) => "interface conversion: interface {} is nil, not " + KindName(k)
    case FailedAssertion(x, k) => "interface conversion: interface {} is " + TypeName(x) + ", not " + KindName(k)
  }

  /** A Go call either returns a value or panics. */
  datatype Outcome = Returned(value: Dynamic) | Panicked(panic: Panic)

  /** The type assertion `x.(T)`: the value itself when it has type `T`,
      a panic otherwise. */
  function Assert(x: Dynamic, k: Kind): (r: Outcome)
    ensures r.Returned? <==> HasKind(x, k)
    ensures r.Returned? ==> r.value == x
    ensures r.Panicked? ==> r.panic == FailedAssertion(x, k)
  {
    if HasKind(x, k) then Returned(x) else Panicked(FailedAssertion(x, k))
  }

  /** True of an environment value the fallback treats as not set. */
  predicate IsUnset(x: Dynamic) {
    x == Nil || x == Str("") || x == Dur(0)
  }

  /** `useEnvOrDefaultIfNotSet(envValue, defaultValue)`. A nil value or an
      empty string gives the default; a zero duration gives the default
      asserted to be a duration; a non-empty string or non-zero duration is
      returned as it is; a value of any other type panics. */
  function UseEnvOrDefaultIfNotSet(env: Dynamic, def: Dynamic): (r: Outcome)
    requires WellFormed(env)
    ensures env.Nil? || env == Str("") ==> r == Returned(def)
    ensures env == Dur(0) ==> r == Assert(def, DurationKind)
    ensures (env.Str? || env.Dur?) && !IsUnset(env) ==> r == Returned(env)
    ensures env.Bool? || env.Other? ==> r == Panicked(UnexpectedType(TypeName(env)))
    ensures r.Returned? ==> r.value == env || r.value == def
  {
    match env
    case Nil => Returned(def)
    case Str(v) => if |v| == 0 then Returned(def) else Returned(env)
    case Dur(v) => if v == 0 then Assert(def, DurationKind) else Returned(env)
    case Bool(_) => Panicked(UnexpectedType(TypeName(env)))
    case Other(_) => Panicked(UnexpectedType(TypeName(env)))
  }

  /** The typed fallback for strings: the value unless it is empty. */
  function StringOrDefault(env: string, def: string): (r: string)
    ensures r == env || r == def
    ensures r == def <== env == ""
    ensures r == env <== env != ""
  {
    if env == "" then def else env
  }

  /** The typed fallback for durations: the value unless it is zero. */
  function DurationOrDefault(env: int, def: int): (r: int)
    ensures r == env || r == def
    ensures r == def <== env == 0
    ensures r == env <== env != 0
  {
    if env == 0 then def else env
  }

  /** On strings and durations the type-erased fallback never panics and
      agrees with the typed one; it returns the default exactly when the
      value counts as unset. */
  lemma FallbackMatchesTyped(env: Dynamic, def: Dynamic)
    requires (env.Str? && def.Str?) || (env.Dur? && def.Dur?)
    ensures UseEnvOrDefaultIfNotSet(env, def).Returned?
    ensures env.Str? ==> UseEnvOrDefaultIfNotSet(env, def).value == Str(StringOrDefault(env.s, def.s))
    ensures env.Dur? ==> UseEnvOrDefaultIfNotSet(env, def).value == Dur(DurationOrDefault(env.nanos, def.nanos))
    ensures env != def ==> (UseEnvOrDefaultIfNotSet(env, def).value == def <==> IsUnset(env))
  {
  }

  /** The three settings `main` resolves before parsing flags. */
  datatype Setting = ServerAddress | ShutdownTimeout | EnableLoggingMiddleware

  function EnvVar(setting: Setting): string {
    match setting
    case ServerAddress => "SERVER_ADDRESS"
    case ShutdownTimeout => "SHUTDOWN_TIMEOUT"
    case EnableLoggingMiddleware => "ENABLE_LOGGING_MIDDLEWARE"
  }

  /** `os.Getenv`: the variable's text, or "" when it is not set. */
  function Getenv(environ: map<string, string>, name: string): string {
    if name in environ then environ[name] else ""
  }

  function Default(setting: Setting): Dynamic {
    match setting
    case ServerAddress => Str(DefaultServerAddress)
    case ShutdownTimeout => Dur(DefaultShutdownTimeout)
    case EnableLoggingMiddleware => Bool(DefaultLoggingMiddleware)
  }

  function SettingKind(setting: Setting): Kind {
    match setting
    case ServerAddress => StringKind
    case ShutdownTimeout => DurationKind
    case EnableLoggingMiddleware => BoolKind
  }

  /** One setting as `main` resolves it: the environment variable's text
      (`os.Getenv` gives "" when it is unset) goes through the fallback with
      the setting's default, and the result is asserted to the setting's type. */
  function ResolveSetting(setting: Setting, env: string): (r: Outcome)
    ensures r.Returned? ==> HasKind(r.value, SettingKind(setting))
  {
    match UseEnvOrDefaultIfNotSet(Str(env), Default(setting))
    case Panicked(p) => Panicked(p)
    case Returned(x) => Assert(x, SettingKind(setting))
  }

  /** Because the environment always supplies a string, the assertion holds
      only for the address or for an empty variable. Then the result is the
      variable's text or the default; otherwise the process panics because a
      string is not a duration or a bool. */
  lemma ResolveSettingSucceedsIff(setting: Setting, env: string)
    ensures ResolveSetting(setting, env).Returned? <==> env == "" || setting == ServerAddress
    ensures env == "" ==> ResolveSetting(setting, env) == Returned(Default(setting))
    ensures env != "" && setting == ServerAddress ==> ResolveSetting(setting, env) == Returned(Str(env))
    ensures env != "" && setting != ServerAddress ==>
              ResolveSetting(setting, env) == Panicked(FailedAssertion(Str(env), SettingKind(setting)))
              && PanicMessage(ResolveSetting(setting, env).panic)
                 == "interface conversion: interface {} is string, not " + KindName(SettingKind(setting))
  {
  }

  /** `ServerConfig` as `main` builds it. */
  datatype ServerConfig = ServerConfig(
    serviceName: string,
    serverAddress: string,
    shutdownTimeout: int,
    enableLoggingMiddleware: bool,
    serviceVersion: string)

  /** How startup ends: with a configuration, or with a panic. */
  datatype Startup = Configured(config: ServerConfig) | Aborted(panic: Panic)

  /** `main` up to the configuration it hands to the server, reading the
      process environment `environ`, with no flags on the command line (each
      flag then keeps the resolved default). The three settings are resolved
      in the order they are declared, so the first panic wins. */
  function StartupConfig(environ: map<string, string>, version: string): (r: Startup)
    ensures r.Configured? <==>
              Getenv(environ, EnvVar(ShutdownTimeout)) == "" && Getenv(environ, EnvVar(EnableLoggingMiddleware)) == ""
    ensures r.Configured? ==> r.config == ServerConfig(
              ServiceName, StringOrDefault(Getenv(environ, EnvVar(ServerAddress)), DefaultServerAddress),
              DefaultShutdownTimeout, DefaultLoggingMiddleware, version)
    ensures Getenv(environ, EnvVar(ShutdownTimeout)) != "" ==>
              r == Aborted(FailedAssertion(Str(Getenv(environ, EnvVar(ShutdownTimeout))), DurationKind))
    ensures Getenv(environ, EnvVar(ShutdownTimeout)) == "" && Getenv(environ, EnvVar(EnableLoggingMiddleware)) != "" ==>
              r == Aborted(FailedAssertion(Str(Getenv(environ, EnvVar(EnableLoggingMiddleware))), BoolKind))
  {
    var serverAddress := Getenv(environ, EnvVar(ServerAddress));
    var shutdownTimeout := Getenv(environ, EnvVar(ShutdownTimeout));
    var loggingMiddleware := Getenv(environ, EnvVar(EnableLoggingMiddleware));
    ResolveSettingSucceedsIff(ServerAddress, serverAddress);
    ResolveSettingSucceedsIff(ShutdownTimeout, shutdownTimeout);
    ResolveSettingSucceedsIff(EnableLoggingMiddleware, loggingMiddleware);
    match ResolveSetting(ServerAddress, serverAddress)
    case Panicked(p) => Aborted(p)
    case Returned(address) =>
      match ResolveSetting(ShutdownTimeout, shutdownTimeout)
      case Panicked(p) => Aborted(p)
      case Returned(timeout) =>
        match ResolveSetting(EnableLoggingMiddleware, loggingMiddleware)
        case Panicked(p) => Aborted(p)
        case Returned(logging) =>
          Configured(ServerConfig(ServiceName, address.s, timeout.nanos, logging.b, version))
  }

  /** The cases of the fallback's own test: a set duration is kept, an unset or
      empty variable gives the default, and a slice panics naming its type. */
  lemma FallbackTestCases()
    ensures UseEnvOrDefaultIfNotSet(Dur(10 * Second), Dur(10 * Second)) == Returned(Dur(10 * Second))
    ensures UseEnvOrDefaultIfNotSet(Str(""), Dur(20 * Second)) == Returned(Dur(20 * Second))
    ensures UseEnvOrDefaultIfNotSet(Str(""), Dur(30 * Second)) == Returned(Dur(30 * Second))
    ensures PanicMessage(UseEnvOrDefaultIfNotSet(Other("[]int"), Dur(30 * Second)).panic)
            == "unexpected type []int"
  {
  }
}
