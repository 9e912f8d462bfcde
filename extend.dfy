/**
 * `extend`: the wrapper that turns a matcher implementation into the function
 * a script calls. It runs `match`, decides from how `match` ended and from the
 * negation whether the expectation failed, and reports a failure by formatting
 * and printing the error and handing it to the context's `fail`.
 */
module Extend {
  import opened Wrappers
  import opened JsValues
  import opened Values
  import opened Errors
  import opened Execution
  import opened FormattingUtils
  import opened PrinterTypes
  import Printers
  import Pretty
  import Logfmt
  import opened ConfigLoader

  /** `NegationFn`: the error of a negated expectation, from the matcher's arguments. */
  type NegationFn = seq<JsValue> -> AnyError

  /** The `negate` field of a result: a negation function or a ready error. */
  datatype Negate = NegateFn(f: NegationFn) | NegateError(error: AnyError)

  /** `NegatedResult`: what a successful `match` returns. */
  datatype NegatedResult = Function(f: NegationFn) | Record(negate: Negate)

  /** How `match` ended. */
  datatype MatchOutcome =
    | Returned(result: NegatedResult)
    | ThrewAssertionFailed(details: AnyError)
    | ThrewOther(error: JsValue)

  /** `MatcherImpl`: the source text of `match` (the error line reads its parameter names) and its behaviour. */
  datatype MatcherImpl = MatcherImpl(source: string, run: (JsValue, seq<JsValue>) -> MatchOutcome)

  /** `ExpectContext`; its `fail` is the `FailCalled` result of a call. */
  datatype ExpectContext = ExpectContext(received: JsValue, negated: bool, message: Option<string>, config: Config)

  /** `factory(context)`: the matcher function, holding its name, implementation and context. */
  datatype BoundMatcher = BoundMatcher(name: string, impl: MatcherImpl, context: ExpectContext)

  /** What a thrown error came from: `match` itself, or the wrapper. */
  datatype Thrown = FromMatcher(value: JsValue) | Library(message: string)

  /** How a call of a matcher function ended. */
  datatype CallEnd = Ok | FailCalled(printed: string) | Throws(error: Thrown)

  /** The colorizer `printError` is given: the raw text when colourising is off. */
  type Colorizer = (string, Color) -> string

  // ------------------------------------------------------------ negation

  /** `getNegationFunction(result)` */
  function GetNegationFunction(result: NegatedResult): (f: NegationFn)
    ensures result.Function? ==> f == result.f
    ensures result.Record? && result.negate.NegateFn? ==> f == result.negate.f
    ensures result.Record? && result.negate.NegateError? ==> forall args :: f(args) == result.negate.error
  {
    match result
    case Function(f) => f
    case Record(NegateFn(f)) => f
    case Record(NegateError(e)) => (args: seq<JsValue>) => e
  }

  /** A plain `negate` value is the error whatever the arguments, so two calls report the same error. */
  lemma ConstantNegation(e: AnyError, args: seq<JsValue>, others: seq<JsValue>)
    ensures GetNegationFunction(Record(NegateError(e)))(args) == GetNegationFunction(Record(NegateError(e)))(others)
  {
  }

  /** Whether the expectation failed: `match` returned under `not`, or threw `AssertionFailed` without it. */
  predicate ShouldFail(outcome: MatchOutcome, negated: bool) {
    (outcome.Returned? && negated) || (outcome.ThrewAssertionFailed? && !negated)
  }

  /** The error reported for a failed expectation: the negation's error, or the thrown details. */
  function ReportedError(outcome: MatchOutcome, args: seq<JsValue>): AnyError
    requires !outcome.ThrewOther?
  {
    if outcome.Returned? then GetNegationFunction(outcome.result)(args) else outcome.details
  }

  // ------------------------------------------------------------- printing

  /** `display === "inline" ? "logfmt" : display` */
  function PrinterName(display: string): (name: string)
    ensures display == "inline" ==> name == "logfmt"
    ensures display != "inline" ==> name == display
  {
    if display == "inline" then "logfmt" else display
  }

  /** `printError`'s switch on the printer name; a name it does not know is returned as the output. */
  function PrintNamed(printer: string, error: Message, colorize: Colorizer): (r: Result<string>)
    ensures printer == "pretty" ==> r == Printers.PrintError(error, PrettyPrinter, colorize)
    ensures printer == "logfmt" ==> r == Printers.PrintError(error, LogfmtPrinter, colorize)
    ensures printer != "pretty" && printer != "logfmt" ==> r == Success(printer)
  {
    if printer == "pretty" then Printers.PrintError(error, PrettyPrinter, colorize)
    else if printer == "logfmt" then Printers.PrintError(error, LogfmtPrinter, colorize)
    else Success(printer)
  }

  /** The colorizer handed to the printer: the given one, or the text unchanged when colourising is off. */
  function ColorizerFor(colorize: bool, paint: Colorizer): (c: Colorizer)
    ensures colorize ==> c == paint
    ensures !colorize ==> forall text, color :: c(text, color) == text
  {
    if colorize then paint else (text: string, color: Color) => text
  }

  /**
   * Display `inline` prints with logfmt, which writes a foreign value as
   * `[object Object]`; `pretty` prints with the pretty printer, which throws on
   * a foreign value.
   */
  lemma DisplayChoosesPrinter(config: Config, error: Message, paint: Colorizer)
    ensures config.display == "inline" ==>
      PrintNamed(PrinterName(config.display), error, ColorizerFor(config.colorize, paint))
      == Success(Logfmt.Print(Printers.NormalizeMessage(error)))
    ensures config.display == "pretty" && !Pretty.HasForeign(Printers.NormalizeMessage(error)) ==>
      PrintNamed(PrinterName(config.display), error, ColorizerFor(config.colorize, paint))
      == Success(Pretty.Print(Printers.NormalizeMessage(error), ColorizerFor(config.colorize, paint)))
    ensures config.display == "pretty" && Pretty.HasForeign(Printers.NormalizeMessage(error)) ==>
      PrintNamed(PrinterName(config.display), error, ColorizerFor(config.colorize, paint))
      == Failure(Pretty.ForeignValueError)
  {
  }

  // ----------------------------------------------------------- the call

  /** The options `handleFail` formats the error with. */
  function ReportOptions(m: BoundMatcher, args: seq<JsValue>, executionContext: ExecutionContext, error: AnyError): FormatOptions {
    FormatOptions(error, executionContext, Matcher(m.name, m.impl.source, |args|), m.context.negated, m.context.message)
  }

  /** Printing the formatted report throws: the pretty printer meets a foreign value. */
  predicate PrintThrows(config: Config, report: seq<Group>) {
    PrinterName(config.display) == "pretty" && Pretty.HasForeign(Printers.NormalizeMessage(Groups(report)))
  }

  /**
   * `handleFail`: the error formatted with the call's context (which fails
   * for an unregistered format), printed as configured (which fails when the
   * pretty printer meets a foreign value), and passed to `fail`.
   */
  function HandleFail(m: BoundMatcher, args: seq<JsValue>, executionContext: ExecutionContext, error: AnyError,
                      registry: FormatterRegistry, paint: Colorizer): (r: CallEnd)
    reads registry
    ensures r.FailCalled? <==> (error.format in registry.formatters
      && !PrintThrows(m.context.config, FormatErrorWithContext(ReportOptions(m, args, executionContext, error), registry).value))
    ensures error.format !in registry.formatters ==>
      r == Throws(Library("No formatter registered for error type: " + error.format))
    ensures r.Throws? && error.format in registry.formatters ==> r == Throws(Library(Pretty.ForeignValueError))
  {
    var formatted := FormatErrorWithContext(ReportOptions(m, args, executionContext, error), registry);
    if formatted.Failure? then Throws(Library(formatted.error))
    else
      var config := m.context.config;
      var printed := PrintNamed(PrinterName(config.display), Groups(formatted.value), ColorizerFor(config.colorize, paint));
      if printed.Failure? then Throws(Library(printed.error)) else FailCalled(printed.value)
  }

  function NoContextMessage(name: string): string {
    "Failed to capture execution context for matcher '" + name + "'."
  }

  /**
   * The matcher function built by `extend`, called with `args`: the execution
   * context must be known; `match` runs on the received value; a normal
   * return is success unless negated, an `AssertionFailed` is failure unless
   * negated, and anything else thrown is rethrown.
   */
  function Call(m: BoundMatcher, args: seq<JsValue>, executionContext: Option<ExecutionContext>,
                registry: FormatterRegistry, paint: Colorizer): (r: CallEnd)
    reads registry
    ensures executionContext.None? ==> r == Throws(Library(NoContextMessage(m.name)))
    ensures executionContext.Some? ==>
      var outcome := m.impl.run(m.context.received, args);
      && (r == Ok <==> !outcome.ThrewOther? && !ShouldFail(outcome, m.context.negated))
      && (outcome.ThrewOther? ==> r == Throws(FromMatcher(outcome.error)))
      && (r.Throws? && r.error.FromMatcher? ==> outcome.ThrewOther?)
      && (ShouldFail(outcome, m.context.negated) ==>
            r == HandleFail(m, args, executionContext.value, ReportedError(outcome, args), registry, paint))
  {
    if executionContext.None? then Throws(Library(NoContextMessage(m.name)))
    else
      var ctx := executionContext.value;
      match m.impl.run(m.context.received, args)
      case Returned(result) =>
        if !m.context.negated then Ok
        else HandleFail(m, args, ctx, GetNegationFunction(result)(args), registry, paint)
      case ThrewAssertionFailed(details) =>
        if m.context.negated then Ok
        else HandleFail(m, args, ctx, details, registry, paint)
      case ThrewOther(error) => Throws(FromMatcher(error))
  }

  /**
   * `context.fail` is called exactly for the failing outcomes (given that the
   * error's format has a formatter), and never for an error `match` threw
   * that is not `AssertionFailed`.
   */
  lemma FailCalledExactly(m: BoundMatcher, args: seq<JsValue>, executionContext: ExecutionContext,
                          registry: FormatterRegistry, paint: Colorizer)
    requires var outcome := m.impl.run(m.context.received, args);
      !outcome.ThrewOther? ==> ReportedError(outcome, args).format in registry.formatters
    ensures Call(m, args, Some(executionContext), registry, paint).FailCalled?
            <==> (ShouldFail(m.impl.run(m.context.received, args), m.context.negated)
                  && !PrintThrows(m.context.config, FormatErrorWithContext(ReportOptions(m, args, executionContext,
                       ReportedError(m.impl.run(m.context.received, args), args)), registry).value))
  {
  }

  /** Under `not`, a `match` that returns reports its negation error; the same `match` without `not` passes. */
  lemma NegationReportsNegateError(m: BoundMatcher, args: seq<JsValue>, executionContext: ExecutionContext,
                                   registry: FormatterRegistry, paint: Colorizer, e: AnyError)
    requires m.impl.run(m.context.received, args) == Returned(Record(NegateError(e)))
    ensures !m.context.negated ==> Call(m, args, Some(executionContext), registry, paint) == Ok
    ensures m.context.negated ==>
      Call(m, args, Some(executionContext), registry, paint) == HandleFail(m, args, executionContext, e, registry, paint)
  {
  }

  // ------------------------------------------------------------ registry

  /** The module-level `registry` of matcher factories, one per name. */
  class MatcherRegistry {
    var factories: map<string, MatcherImpl>

    constructor()
      ensures factories == map[]
    {
      factories := map[];
    }

    /** `extend(name, matcher)`: a second call for a name replaces its factory. */
    method Extend(name: string, impl: MatcherImpl)
      modifies this
      ensures factories == old(factories)[name := impl]
    {
      factories := factories[name := impl];
    }

    /** `createMatchers(context)`: one matcher function per registered name, all on the same context. */
    method CreateMatchers(context: ExpectContext) returns (matchers: map<string, BoundMatcher>)
      ensures matchers.Keys == factories.Keys
      ensures forall name :: name in matchers ==> matchers[name] == BoundMatcher(name, factories[name], context)
    {
      matchers := map[];
      var pending := factories.Keys;
      while pending != {}
        invariant pending <= factories.Keys
        invariant matchers.Keys == factories.Keys - pending
        invariant forall name :: name in matchers ==> matchers[name] == BoundMatcher(name, factories[name], context)
        decreases |pending|
      {
        var name :| name in pending;
        matchers := matchers[name := BoundMatcher(name, factories[name], context)];
        pending := pending - {name};
      }
    }
  }

  /** Extending a name twice leaves the second implementation in the matchers built afterwards. */
  method ReextendKeepsLast(name: string, first: MatcherImpl, second: MatcherImpl, context: ExpectContext)
    returns (matchers: map<string, BoundMatcher>)
    ensures matchers == map[name := BoundMatcher(name, second, context)]
  {
    var registry := new MatcherRegistry();
    registry.Extend(name, first);
    registry.Extend(name, second);
    matchers := registry.CreateMatchers(context);
  }
}
