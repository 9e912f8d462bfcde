/**
 * The newer `expect`: matchers registered by name report failures to an
 * expectation context, which keeps the first reason and then asserts; `not`
 * flips the negation, `soft` turns soft assertions on, and `configure` builds
 * a new `expect` from the current configuration and the given keys.
 */
module NewExpect {
  import opened Wrappers
  import opened JsValues
  import opened Execution
  import opened ConfigLoader
  import Embed

  /** `FailureReason`: a reason a matcher reported, an uncaught error, or the failure of a negated expectation. */
  datatype FailureReason =
    | MatcherReason(formatted: seq<seq<(string, string)>>)
    | UncaughtErrorReason(error: JsValue)
    | NegatedAssertionReason

  /** The call `assert(passed, message, soft)` an expectation ends with. */
  datatype AssertCall = AssertCall(passed: bool, message: string, soft: bool)

  /** What a registered matcher did when called: the reasons it passed to `fail`, in order, then a return or a throw. */
  datatype MatcherRun = MatcherRun(fails: seq<FailureReason>, threw: Option<JsValue>)

  /** A registered matcher: its behaviour for the received value and the arguments. */
  type MatcherFn = (JsValue, seq<JsValue>) -> MatcherRun

  /** The reason `fail` keeps after a sequence of calls: the first one. */
  function First(reasons: seq<FailureReason>): (r: Option<FailureReason>)
    ensures r.None? <==> reasons == []
    ensures r.Some? ==> r.value == reasons[0]
  {
    if reasons == [] then None else Some(reasons[0])
  }

  /** Keeping the first reason of a longer sequence keeps the first reason of its beginning, when there is one. */
  lemma FirstOfLonger(reasons: seq<FailureReason>, more: seq<FailureReason>)
    requires reasons != []
    ensures First(reasons + more) == First(reasons)
  {
    assert (reasons + more)[0] == reasons[0];
  }

  /** The verdict on an expectation: a negated one passes exactly when a failure was recorded. */
  function Verdict(negated: bool, reason: Option<FailureReason>): (passed: bool)
    ensures passed <==> (negated <==> reason.Some?)
  {
    if negated then reason.Some? else reason.None?
  }

  /** The reasons an expectation records from a matcher run: those it reported, then the uncaught error. */
  function Recorded(run: MatcherRun): (rs: seq<FailureReason>)
    ensures run.threw.None? ==> rs == run.fails
    ensures run.threw.Some? ==> rs == run.fails + [UncaughtErrorReason(run.threw.value)]
  {
    run.fails + (if run.threw.Some? then [UncaughtErrorReason(run.threw.value)] else [])
  }

  /** The reason an expectation holds when it asserts: the first one recorded, or `NegatedAssertionReason` for a negated one without any. */
  function Held(negated: bool, reasons: seq<FailureReason>): (r: Option<FailureReason>)
    ensures r.None? <==> !negated && reasons == []
    ensures reasons != [] ==> r == Some(reasons[0])
    ensures reasons == [] && negated ==> r == Some(NegatedAssertionReason)
  {
    if negated && reasons == [] then Some(NegatedAssertionReason) else First(reasons)
  }

  /**
   * The assert call that ends an expectation whose matcher recorded `reasons`,
   * as written: the verdict is taken on the reason finally held, so a negated
   * expectation always passes and a plain one passes exactly when nothing
   * was reported.
   */
  function Decision(negated: bool, soft: bool, reasons: seq<FailureReason>, render: FailureReason -> string): (call: AssertCall)
    ensures call.soft == soft
    ensures call.passed == (negated || reasons == [])
    ensures reasons != [] ==> call.message == render(reasons[0])
    ensures reasons == [] && negated ==> call.message == render(NegatedAssertionReason)
    ensures reasons == [] && !negated ==> call.message == ""
  {
    var held := Held(negated, reasons);
    AssertCall(Verdict(negated, held), if held.Some? then render(held.value) else "", soft)
  }

  /**
   * The corrected decision (see the findings): the verdict is taken on the
   * first recorded reason, before a negated expectation records its own; the
   * message is the same.
   */
  function DecisionCorrected(negated: bool, soft: bool, reasons: seq<FailureReason>, render: FailureReason -> string): (call: AssertCall)
    ensures call.soft == soft
    ensures call.passed == Verdict(negated, First(reasons))
    ensures reasons != [] ==> call.message == render(reasons[0])
    ensures reasons == [] && negated ==> call.message == render(NegatedAssertionReason)
    ensures reasons == [] && !negated ==> call.message == ""
  {
    var held := Held(negated, reasons);
    AssertCall(Verdict(negated, First(reasons)), if held.Some? then render(held.value) else "", soft)
  }

  /** The two decisions differ only on a negated expectation whose matcher reported nothing. */
  lemma DecisionsAgree(negated: bool, soft: bool, reasons: seq<FailureReason>, render: FailureReason -> string)
    ensures Decision(negated, soft, reasons, render).message == DecisionCorrected(negated, soft, reasons, render).message
    ensures Decision(negated, soft, reasons, render).passed != DecisionCorrected(negated, soft, reasons, render).passed
      <==> negated && reasons == []
  {
  }

  /** As written, a failing expectation is a plain one whose matcher reported something, and its message renders the first report. */
  lemma FailureHasReason(negated: bool, soft: bool, reasons: seq<FailureReason>, render: FailureReason -> string)
    requires !Decision(negated, soft, reasons, render).passed
    ensures !negated && reasons != []
    ensures Decision(negated, soft, reasons, render).message == render(reasons[0])
  {
  }

  /** Corrected, a failing expectation still reports a reason: a rendered reason, never the empty default. */
  lemma FailureHasReasonCorrected(negated: bool, soft: bool, reasons: seq<FailureReason>, render: FailureReason -> string)
    requires !DecisionCorrected(negated, soft, reasons, render).passed
    ensures negated ==> reasons == [] && DecisionCorrected(negated, soft, reasons, render).message == render(NegatedAssertionReason)
    ensures !negated ==> reasons != [] && DecisionCorrected(negated, soft, reasons, render).message == render(reasons[0])
  {
  }

  /** Corrected, `not` turns every verdict around. */
  lemma NegationFlipsCorrectedVerdict(soft: bool, reasons: seq<FailureReason>, render: FailureReason -> string)
    ensures DecisionCorrected(true, soft, reasons, render).passed == !DecisionCorrected(false, soft, reasons, render).passed
  {
  }

  /** A matcher that throws before reporting anything fails the expectation, unless it is negated. */
  lemma UncaughtErrorFails(negated: bool, soft: bool, error: JsValue, render: FailureReason -> string)
    ensures Decision(negated, soft, Recorded(MatcherRun([], Some(error))), render).passed == negated
    ensures !negated ==>
      Decision(negated, soft, Recorded(MatcherRun([], Some(error))), render).message == render(UncaughtErrorReason(error))
  {
  }

  // ------------------------------------------------ the expectation context

  /** `ExpectationContext`: the call's fixed data and the reason recorded so far. */
  class ExpectationContext {
    var reason: Option<FailureReason>
    const name: string
    const actual: JsValue
    const negated: bool
    const config: Config
    const message: Option<string>
    const executionContext: ExecutionContext

    constructor(name: string, actual: JsValue, negated: bool, config: Config, message: Option<string>,
                executionContext: ExecutionContext)
      ensures reason.None?
      ensures this.name == name && this.actual == actual && this.negated == negated
      ensures this.config == config && this.message == message && this.executionContext == executionContext
    {
      this.reason := None;
      this.name := name;
      this.actual := actual;
      this.negated := negated;
      this.config := config;
      this.message := message;
      this.executionContext := executionContext;
    }

    /** `fail(reason)`: the first recorded reason stays; a later one is dropped. */
    method Fail(r: FailureReason)
      modifies this
      ensures old(reason).Some? ==> reason == old(reason)
      ensures old(reason).None? ==> reason == Some(r)
    {
      if reason.None? {
        reason := Some(r);
      }
    }

    /** `assert()`: a negated expectation without a reason records one, then the verdict is taken on the reason held. */
    method Assert(render: FailureReason -> string) returns (call: AssertCall)
      modifies this
      ensures negated && old(reason).None? ==> reason == Some(NegatedAssertionReason)
      ensures !(negated && old(reason).None?) ==> reason == old(reason)
      ensures call.passed == Verdict(negated, reason)
      ensures negated ==> call.passed
      ensures call.message == (if reason.Some? then render(reason.value) else "")
      ensures call.soft == config.soft
    {
      if negated && reason.None? {
        Fail(NegatedAssertionReason);
      }
      var passed := Verdict(negated, reason);
      var text := if reason.Some? then render(reason.value) else "";
      return AssertCall(passed, text, config.soft);
    }

    /**
     * `assert()` corrected (see the findings): the verdict is taken on the
     * reason recorded before the negated case records its own, so a negated
     * expectation passes exactly when its matcher reported a failure.
     */
    method AssertCorrected(render: FailureReason -> string) returns (call: AssertCall)
      modifies this
      ensures negated && old(reason).None? ==> reason == Some(NegatedAssertionReason)
      ensures !(negated && old(reason).None?) ==> reason == old(reason)
      ensures call.passed == Verdict(negated, old(reason))
      ensures call.message == (if reason.Some? then render(reason.value) else "")
      ensures call.soft == config.soft
    {
      var passed := Verdict(negated, reason);
      if negated && reason.None? {
        Fail(NegatedAssertionReason);
      }
      var text := if reason.Some? then render(reason.value) else "";
      return AssertCall(passed, text, config.soft);
    }

    /** `catch(error)`: an `UncaughtErrorReason` unless a reason is already held, then the assert. */
    method Catch(error: JsValue, render: FailureReason -> string) returns (call: AssertCall)
      modifies this
      ensures old(reason).Some? ==> reason == old(reason)
      ensures old(reason).None? ==> reason == Some(UncaughtErrorReason(error))
      ensures call.passed == negated
      ensures call.message == render(reason.value)
      ensures call.soft == config.soft
    {
      Fail(UncaughtErrorReason(error));
      call := Assert(render);
    }
  }

  /**
   * The finding, on one matcher outcome: under `not`, the assert as written
   * passes whether or not the matcher reported a failure; the corrected one
   * fails when it did not.
   */
  method NegatedAssertAlwaysPasses(name: string, actual: JsValue, config: Config, message: Option<string>,
                                   executionContext: ExecutionContext, reported: Option<FailureReason>,
                                   render: FailureReason -> string)
    returns (written: AssertCall, corrected: AssertCall)
    ensures written.passed
    ensures corrected.passed <==> reported.Some?
  {
    var asWritten := new ExpectationContext(name, actual, true, config, message, executionContext);
    var fixed := new ExpectationContext(name, actual, true, config, message, executionContext);
    if reported.Some? {
      asWritten.Fail(reported.value);
      fixed.Fail(reported.value);
    }
    written := asWritten.Assert(render);
    corrected := fixed.AssertCorrected(render);
  }

  // ------------------------------------------------------ calling a matcher

  /** The matcher side of `makeApplicableMatchers`: the received value, the negation, the configuration and message. */
  datatype Applicable = Applicable(actual: JsValue, negated: bool, config: Config, message: Option<string>)

  /** `get not()`: the same matchers with the negation flipped. */
  function Not(a: Applicable): (r: Applicable)
    ensures r.negated == !a.negated
    ensures r.actual == a.actual && r.config == a.config && r.message == a.message
  {
    a.(negated := !a.negated)
  }

  /** Going through `not` twice gives back the matchers one started from. */
  lemma NotNot(a: Applicable)
    ensures Not(Not(a)) == a
  {
  }

  function NoContextMessage(name: string): string {
    "Failed to capture execution context in matcher '" + name + "'."
  }

  /**
   * A matcher function of `makeApplicableMatchers`, called with `args`: a
   * fresh expectation context receives the matcher's `fail` calls in order;
   * a return then asserts, a throw is caught (which asserts too).
   */
  method CallMatcher(name: string, matcher: MatcherFn, a: Applicable, args: seq<JsValue>,
                     executionContext: Option<ExecutionContext>, render: FailureReason -> string)
    returns (r: Result<AssertCall>)
    ensures executionContext.None? ==> r == Failure(NoContextMessage(name))
    ensures executionContext.Some? ==>
      r == Success(Decision(a.negated, a.config.soft, Recorded(matcher(a.actual, args)), render))
  {
    if executionContext.None? {
      return Failure(NoContextMessage(name));
    }
    var expectation := new ExpectationContext(name, a.actual, a.negated, a.config, a.message, executionContext.value);
    var run := matcher(a.actual, args);
    Report(expectation, run.fails);
    var call: AssertCall;
    if run.threw.Some? {
      call := expectation.Catch(run.threw.value, render);
      CaughtAfter(run.fails, run.threw.value);
    } else {
      call := expectation.Assert(render);
    }
    return Success(call);
  }

  /** The same call with the corrected `assert` (see the findings): it ends in the corrected decision. */
  method CallMatcherCorrected(name: string, matcher: MatcherFn, a: Applicable, args: seq<JsValue>,
                              executionContext: Option<ExecutionContext>, render: FailureReason -> string)
    returns (r: Result<AssertCall>)
    ensures executionContext.None? ==> r == Failure(NoContextMessage(name))
    ensures executionContext.Some? ==>
      r == Success(DecisionCorrected(a.negated, a.config.soft, Recorded(matcher(a.actual, args)), render))
  {
    if executionContext.None? {
      return Failure(NoContextMessage(name));
    }
    var expectation := new ExpectationContext(name, a.actual, a.negated, a.config, a.message, executionContext.value);
    var run := matcher(a.actual, args);
    Report(expectation, run.fails);
    var call: AssertCall;
    if run.threw.Some? {
      call := expectation.Catch(run.threw.value, render);
      CaughtAfter(run.fails, run.threw.value);
    } else {
      call := expectation.AssertCorrected(render);
    }
    return Success(call);
  }

  /** The matcher's `fail` calls, in order, on a context that holds no reason yet. */
  method Report(expectation: ExpectationContext, fails: seq<FailureReason>)
    requires expectation.reason.None?
    modifies expectation
    ensures expectation.reason == First(fails)
  {
    for i := 0 to |fails|
      invariant expectation.reason == First(fails[..i])
    {
      FirstStep(fails, i);
      expectation.Fail(fails[i]);
    }
    assert fails[..|fails|] == fails;
  }

  lemma FirstStep(reasons: seq<FailureReason>, i: nat)
    requires i < |reasons|
    ensures First(reasons[..i + 1]) == (if i == 0 then Some(reasons[i]) else First(reasons[..i]))
  {
  }

  lemma CaughtAfter(fails: seq<FailureReason>, error: JsValue)
    ensures First(fails + [UncaughtErrorReason(error)]) == if fails == [] then Some(UncaughtErrorReason(error)) else First(fails)
  {
    if fails != [] {
      FirstOfLonger(fails, [UncaughtErrorReason(error)]);
    }
  }

  // --------------------------------------------------------- expect itself

  /** An `expect` function: the configuration `makeExpect` loaded for it. */
  datatype ExpectFunction = ExpectFunction(config: Config)

  /** `expect(actual, message)`: non-negated matchers on the function's configuration. */
  function Expect(e: ExpectFunction, actual: JsValue, message: Option<string>): (a: Applicable)
    ensures !a.negated && a.config == e.config && a.actual == actual && a.message == message
  {
    Applicable(actual, false, e.config, message)
  }

  /** `expect.soft(actual, message)`: the same, with `soft` set and every other key kept. */
  function Soft(e: ExpectFunction, actual: JsValue, message: Option<string>): (a: Applicable)
    ensures !a.negated && a.actual == actual && a.message == message
    ensures a.config.soft
    ensures a.config.(soft := e.config.soft) == e.config
  {
    Applicable(actual, false, e.config.(soft := true), message)
  }

  /**
   * A soft expectation fails through the soft path of `assert`, never by
   * `test.abort`. `assert` is called without a soft mode, so it falls back
   * to `"throw"` whatever the configuration says: a failing soft expectation
   * throws `AssertionFailedError` and never reaches `test.fail`.
   */
  lemma SoftNeverAborts(e: ExpectFunction, actual: JsValue, message: Option<string>, passed: bool, text: string)
    ensures !Embed.Assert(passed, text, Soft(e, actual, message).config.soft, Embed.DefaultSoftMode).TestAbort?
    ensures !passed ==> Embed.Assert(passed, text, Soft(e, actual, message).config.soft, Embed.DefaultSoftMode)
                        == Embed.ThrowAssertionFailed(text)
    ensures e.config.softMode == "fail" && !passed ==>
      !Embed.Assert(passed, text, Soft(e, actual, message).config.soft, Embed.DefaultSoftMode).TestFail?
  {
  }

  /** A complete configuration as explicit options: every key supplied. */
  function AsOptions(c: Config): (o: Options)
    ensures Spread(DefaultConfig, o) == c
  {
    Options(Some(c.timeout), Some(c.interval), Some(c.soft), Some(c.softMode), Some(c.colorize), Some(c.display))
  }

  /** `makeExpect(baseConfig)`: the configuration loaded from the given keys and the environment. */
  method MakeExpect(base: Options, env: Embed.Env, toNumber: string -> Number) returns (r: Result<ExpectFunction>)
    ensures r.Failure? <==> EnvErrors(env, toNumber) != []
    ensures env == map[] ==> r == Success(ExpectFunction(Spread(DefaultConfig, base)))
  {
    var config := Load(base, env, toNumber);
    if config.Failure? {
      return Failure(config.error);
    }
    if env == map[] {
      var expected := LoadWithoutEnv(base, toNumber);
      assert config == expected;
    }
    return Success(ExpectFunction(config.value));
  }

  /**
   * `configure(newConfig)`: the given keys spread over the current
   * configuration, then loaded again, so a set variable still wins.
   */
  method Configure(e: ExpectFunction, newConfig: Options, env: Embed.Env, toNumber: string -> Number)
    returns (r: Result<ExpectFunction>)
    ensures r.Failure? <==> EnvErrors(env, toNumber) != []
    ensures env == map[] ==> r == Success(ExpectFunction(Spread(e.config, newConfig)))
    ensures r.Success? ==> r.value.config.soft == Pick(newConfig.soft, e.config.soft)
    ensures r.Success? && ColorizeKey !in env ==> r.value.config.colorize == Pick(newConfig.colorize, e.config.colorize)
    ensures r.Success? && DisplayKey !in env ==> r.value.config.display == Pick(newConfig.display, e.config.display)
    ensures r.Success? && SoftModeKey !in env ==> r.value.config.softMode == Pick(newConfig.softMode, e.config.softMode)
    ensures r.Success? && TimeoutKey !in env ==> r.value.config.timeout == Pick(newConfig.timeout, e.config.timeout)
    ensures r.Success? && IntervalKey !in env ==> r.value.config.interval == Pick(newConfig.interval, e.config.interval)
  {
    var merged := SpreadOptions(AsOptions(e.config), newConfig);
    SpreadTwice(DefaultConfig, AsOptions(e.config), newConfig);
    var config := Load(merged, env, toNumber);
    if config.Failure? {
      return Failure(config.error);
    }
    if env == map[] {
      var expected := LoadWithoutEnv(merged, toNumber);
      assert config == expected;
    }
    return Success(ExpectFunction(config.value));
  }

  // -------------------------------------------------------- global expect

  /** A matcher function of the applicable matchers: its name and matcher on the applicable side. */
  datatype AppliedMatcher = AppliedMatcher(name: string, matcher: MatcherFn, on: Applicable)

  /** The global `expect` with its `matchers` record, filled by `register`. */
  class GlobalExpect {
    var matchers: map<string, MatcherFn>
    const base: ExpectFunction

    constructor(base: ExpectFunction)
      ensures matchers == map[] && this.base == base
    {
      matchers := map[];
      this.base := base;
    }

    /** `register(name, matcher)`: stored under its name, replacing an earlier one. */
    method Register(name: string, matcher: MatcherFn)
      modifies this
      ensures matchers == old(matchers)[name := matcher]
    {
      matchers := matchers[name := matcher];
    }

    /** The loop of `makeApplicableMatchers`: one matcher function per registered matcher. */
    method ApplicableMatchers(a: Applicable) returns (fns: map<string, AppliedMatcher>)
      ensures fns.Keys == matchers.Keys
      ensures forall name :: name in fns ==> fns[name] == AppliedMatcher(name, matchers[name], a)
    {
      fns := map[];
      var pending := matchers.Keys;
      while pending != {}
        invariant pending <= matchers.Keys
        invariant fns.Keys == matchers.Keys - pending
        invariant forall name :: name in fns ==> fns[name] == AppliedMatcher(name, matchers[name], a)
        decreases |pending|
      {
        var name :| name in pending;
        fns := fns[name := AppliedMatcher(name, matchers[name], a)];
        pending := pending - {name};
      }
    }
  }

  /** A registered matcher is found by its name on every applicable side, `not` included. */
  method RegisteredMatcherApplies(e: ExpectFunction, name: string, matcher: MatcherFn, actual: JsValue)
    returns (plain: map<string, AppliedMatcher>, negated: map<string, AppliedMatcher>)
    ensures name in plain && plain[name].matcher == matcher && !plain[name].on.negated
    ensures name in negated && negated[name].matcher == matcher && negated[name].on.negated
  {
    var global := new GlobalExpect(e);
    global.Register(name, matcher);
    var a := Expect(e, actual, None);
    plain := global.ApplicableMatchers(a);
    negated := global.ApplicableMatchers(Not(a));
  }
}
