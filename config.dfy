/**
 * The library configuration: the defaults, the options read from the
 * `K6_TESTING_*` environment variables, and the precedence that combines
 * them with the options passed in (environment over explicit over defaults).
 */
module ConfigLoader {
  import opened Wrappers
  import opened Text
  import opened Execution
  import opened Embed

  /** A complete configuration (the assertion function it also carries is not modelled). */
  datatype Config = Config(
    timeout: int,
    interval: int,
    soft: bool,
    softMode: string,
    colorize: bool,
    display: string)

  /** A partial configuration: `None` is a key the object does not have. */
  datatype Options = Options(
    timeout: Option<int>,
    interval: Option<int>,
    soft: Option<bool>,
    softMode: Option<string>,
    colorize: Option<bool>,
    display: Option<string>)

  const NoOptions := Options(None, None, None, None, None, None)

  /** `DEFAULT_RETRY_OPTIONS` */
  const DefaultTimeout := 5000
  const DefaultInterval := 100

  /** `DEFAULT_CONFIG` */
  const DefaultConfig := Config(DefaultTimeout, DefaultInterval, false, "throw", true, "pretty")

  const ColorizeKey := "K6_TESTING_COLORIZE"
  const DisplayKey := "K6_TESTING_DISPLAY"
  const TimeoutKey := "K6_TESTING_TIMEOUT"
  const IntervalKey := "K6_TESTING_INTERVAL"
  const SoftModeKey := "K6_TESTING_SOFT_MODE"

  const DisplayValues := ["inline", "pretty"]
  const SoftModeValues := ["throw", "fail"]

  /** Take the supplied value, or keep the base one. */
  function Pick<T>(over: Option<T>, base: T): (r: T)
    ensures over.Some? ==> r == over.value
    ensures over.None? ==> r == base
  {
    if over.Some? then over.value else base
  }

  /** `{ ...base, ...over }`: every key the options carry replaces the base's. */
  function Spread(base: Config, over: Options): (r: Config)
    ensures over.timeout.Some? ==> r.timeout == over.timeout.value
    ensures over.timeout.None? ==> r.timeout == base.timeout
    ensures over.interval.Some? ==> r.interval == over.interval.value
    ensures over.interval.None? ==> r.interval == base.interval
    ensures over.soft.Some? ==> r.soft == over.soft.value
    ensures over.soft.None? ==> r.soft == base.soft
    ensures over.softMode.Some? ==> r.softMode == over.softMode.value
    ensures over.softMode.None? ==> r.softMode == base.softMode
    ensures over.colorize.Some? ==> r.colorize == over.colorize.value
    ensures over.colorize.None? ==> r.colorize == base.colorize
    ensures over.display.Some? ==> r.display == over.display.value
    ensures over.display.None? ==> r.display == base.display
  {
    Config(
      Pick(over.timeout, base.timeout),
      Pick(over.interval, base.interval),
      Pick(over.soft, base.soft),
      Pick(over.softMode, base.softMode),
      Pick(over.colorize, base.colorize),
      Pick(over.display, base.display))
  }

  /** `{ ...a, ...b }` on two partial configurations. */
  function SpreadOptions(a: Options, b: Options): Options {
    Options(
      if b.timeout.Some? then b.timeout else a.timeout,
      if b.interval.Some? then b.interval else a.interval,
      if b.soft.Some? then b.soft else a.soft,
      if b.softMode.Some? then b.softMode else a.softMode,
      if b.colorize.Some? then b.colorize else a.colorize,
      if b.display.Some? then b.display else a.display)
  }

  /** Spreading nothing changes nothing. */
  lemma {:induction false} SpreadNothing(base: Config)
    ensures Spread(base, NoOptions) == base
  {
  }

  /** Spreading two objects one after the other is spreading their merge. */
  lemma {:induction false} SpreadTwice(base: Config, a: Options, b: Options)
    ensures Spread(Spread(base, a), b) == Spread(base, SpreadOptions(a, b))
  {
  }

  /** Spreading the same options twice is spreading them once. */
  lemma {:induction false} SpreadIdempotent(base: Config, a: Options)
    ensures Spread(Spread(base, a), a) == Spread(base, a)
  {
    SpreadTwice(base, a, a);
    assert SpreadOptions(a, a) == a;
  }

  /** A variable counts as set for `envParser.number` only when it is a non-empty string. */
  predicate NumberSet(env: Env, key: string) {
    key in env && env[key] != ""
  }

  /**
   * `envParser.number(name)`. `Number(value)` is the parameter `toNumber`,
   * with `NaN` standing for every non-finite result.
   */
  function EnvNumber(env: Env, key: string, toNumber: string -> Number): (r: Result<int>)
    ensures r.Success? <==> NumberSet(env, key) && toNumber(env[key]).Int? && toNumber(env[key]).value >= 0
    ensures r.Success? ==> r.value == toNumber(env[key]).value && r.value >= 0
    ensures !NumberSet(env, key) ==> r == Failure(NotSet(key))
    ensures NumberSet(env, key) && toNumber(env[key]).NaN? ==>
      (r == Failure("Environment variable " + key + " must be a valid number, got: " + env[key]))
    ensures NumberSet(env, key) && toNumber(env[key]).Int? && toNumber(env[key]).value < 0 ==>
      (r == Failure("Environment variable " + key + " must be a non-negative number, got: " + env[key]))
  {
    if !NumberSet(env, key) then Failure(NotSet(key))
    else
      var parsed := toNumber(env[key]);
      if parsed.NaN? then Failure("Environment variable " + key + " must be a valid number, got: " + env[key])
      else if parsed.value < 0 then Failure("Environment variable " + key + " must be a non-negative number, got: " + env[key])
      else Success(parsed.value)
  }

  /** A variable set to the empty string passes the `hasValue` test but is rejected as not set by the number parser. */
  lemma {:induction false} EmptyNumberIsNotSet(env: Env, key: string, toNumber: string -> Number)
    requires key in env && env[key] == ""
    ensures EnvNumber(env, key, toNumber) == Failure(NotSet(key))
  {
  }

  /** The error of a present variable's parse, if any. */
  function ErrorOf<T>(present: bool, parsed: Result<T>): seq<string> {
    if present && parsed.Failure? then [parsed.error] else []
  }

  /**
   * The errors of every present variable, in the order `loadFromEnv` reads
   * them: colorize, display, timeout, interval, softMode. It is a reference
   * for the loader: the first of them is the one thrown.
   */
  function EnvErrors(env: Env, toNumber: string -> Number): seq<string> {
    ErrorOf(ColorizeKey in env, EnvBoolean(env, ColorizeKey))
    + ErrorOf(DisplayKey in env, EnvEnum(env, DisplayKey, DisplayValues))
    + ErrorOf(TimeoutKey in env, EnvNumber(env, TimeoutKey, toNumber))
    + ErrorOf(IntervalKey in env, EnvNumber(env, IntervalKey, toNumber))
    + ErrorOf(SoftModeKey in env, EnvEnum(env, SoftModeKey, SoftModeValues))
  }

  /** The value read for a key: present exactly when its variable is set, and then the parser's result. */
  predicate ReadAs<T(==)>(field: Option<T>, present: bool, parsed: Result<T>) {
    (field.Some? <==> present) && (present ==> parsed == Success(field.value))
  }

  /**
   * `ConfigLoader.loadFromEnv()`: a key is set only when its variable is,
   * to the value its parser returns; the first parser that throws ends the
   * load with its error.
   */
  method LoadFromEnv(env: Env, toNumber: string -> Number) returns (r: Result<Options>)
    ensures r.Failure? <==> EnvErrors(env, toNumber) != []
    ensures r.Failure? ==> r.error == EnvErrors(env, toNumber)[0]
    ensures r.Success? ==> r.value.soft.None?
    ensures r.Success? ==> ReadAs(r.value.colorize, ColorizeKey in env, EnvBoolean(env, ColorizeKey))
    ensures r.Success? ==> ReadAs(r.value.display, DisplayKey in env, EnvEnum(env, DisplayKey, DisplayValues))
    ensures r.Success? ==> ReadAs(r.value.timeout, TimeoutKey in env, EnvNumber(env, TimeoutKey, toNumber))
    ensures r.Success? ==> ReadAs(r.value.interval, IntervalKey in env, EnvNumber(env, IntervalKey, toNumber))
    ensures r.Success? ==> ReadAs(r.value.softMode, SoftModeKey in env, EnvEnum(env, SoftModeKey, SoftModeValues))
  {
    var config := NoOptions;
    if ColorizeKey in env {
      var v := EnvBoolean(env, ColorizeKey);
      config := config.(colorize := Some(v.value));
    }
    if DisplayKey in env {
      var v := EnvEnum(env, DisplayKey, DisplayValues);
      if v.Failure? {
        return Failure(v.error);
      }
      config := config.(display := Some(v.value));
    }
    if TimeoutKey in env {
      var v := EnvNumber(env, TimeoutKey, toNumber);
      if v.Failure? {
        return Failure(v.error);
      }
      config := config.(timeout := Some(v.value));
    }
    if IntervalKey in env {
      var v := EnvNumber(env, IntervalKey, toNumber);
      if v.Failure? {
        return Failure(v.error);
      }
      config := config.(interval := Some(v.value));
    }
    if SoftModeKey in env {
      var v := EnvEnum(env, SoftModeKey, SoftModeValues);
      if v.Failure? {
        return Failure(v.error);
      }
      config := config.(softMode := Some(v.value));
    }
    return Success(config);
  }

  /** The value `load` gives a key: the environment's, else the explicit one, else the default. */
  function Precedence<T>(fromEnv: Option<T>, explicit: Option<T>, default: T): T {
    if fromEnv.Some? then fromEnv.value else if explicit.Some? then explicit.value else default
  }

  /**
   * `ConfigLoader.load(explicitConfig)`: every key resolves environment over
   * explicit over default; an invalid variable makes it throw.
   */
  method Load(explicit: Options, env: Env, toNumber: string -> Number) returns (r: Result<Config>)
    ensures r.Failure? <==> EnvErrors(env, toNumber) != []
    ensures r.Success? ==> r.value.soft == Pick(explicit.soft, false)
    ensures r.Success? ==>
      r.value.colorize == Precedence(if ColorizeKey in env then Some(EnvBoolean(env, ColorizeKey).value) else None, explicit.colorize, true)
    ensures r.Success? ==>
      r.value.display == Precedence(if DisplayKey in env then Some(ToLower(env[DisplayKey])) else None, explicit.display, "pretty")
    ensures r.Success? ==>
      r.value.softMode == Precedence(if SoftModeKey in env then Some(ToLower(env[SoftModeKey])) else None, explicit.softMode, "throw")
    ensures r.Success? ==>
      r.value.timeout == Precedence(if TimeoutKey in env then Some(toNumber(env[TimeoutKey]).value) else None, explicit.timeout, DefaultTimeout)
    ensures r.Success? ==>
      r.value.interval == Precedence(if IntervalKey in env then Some(toNumber(env[IntervalKey]).value) else None, explicit.interval, DefaultInterval)
  {
    var envConfig := LoadFromEnv(env, toNumber);
    if envConfig.Failure? {
      return Failure(envConfig.error);
    }
    return Success(Spread(Spread(DefaultConfig, explicit), envConfig.value));
  }

  /** A successful load only ever holds an allowed display and soft mode, when the explicit ones are allowed. */
  method LoadKeepsEnumsAllowed(explicit: Options, env: Env, toNumber: string -> Number) returns (r: Result<Config>)
    requires explicit.display.Some? ==> explicit.display.value in DisplayValues
    requires explicit.softMode.Some? ==> explicit.softMode.value in SoftModeValues
    ensures r.Success? ==> r.value.display in DisplayValues && r.value.softMode in SoftModeValues
    ensures r.Success? ==> r.value.timeout >= 0 || (TimeoutKey !in env && explicit.timeout.Some?)
  {
    r := Load(explicit, env, toNumber);
    if r.Success? {
      assert DisplayKey in env ==> EnvEnum(env, DisplayKey, DisplayValues).Success?;
      assert SoftModeKey in env ==> EnvEnum(env, SoftModeKey, SoftModeValues).Success?;
      assert TimeoutKey in env ==> EnvNumber(env, TimeoutKey, toNumber).Success?;
    }
  }

  /** With no variable set, loading is the explicit options spread over the defaults. */
  method LoadWithoutEnv(explicit: Options, toNumber: string -> Number) returns (r: Result<Config>)
    ensures r == Success(Spread(DefaultConfig, explicit))
  {
    r := Load(explicit, map[], toNumber);
  }
}
