/**
 * The retrying side of `expect`: the `withRetry` loop that re-runs an
 * assertion until it passes or a deadline passes, the error it throws on
 * timeout, and the error lines of the boolean-state matchers.
 */
module Retry {
  import opened Wrappers
  import opened Text
  import opened ConfigLoader
  import opened Render

  /** `RetryTimeoutError`: an `Error` whose `name` is its class name. */
  datatype RetryTimeoutError = RetryTimeoutError(name: string, message: string)

  /** How `withRetry` ended: it resolved to `true`, or it rejected with a timeout error. */
  datatype RetryEnd = Passed | TimedOut(error: RetryTimeoutError)

  function TimeoutMessage(timeout: int): string {
    "Expect condition not met within " + IntToString(timeout) + "ms timeout"
  }

  /**
   * `withRetry(assertion, { timeout, interval, _now, _sleep })`.
   *
   * `attempt(i)` is whether the i-th run of the assertion completes without
   * throwing. `clock` holds the successive readings of `_now`: `clock[0]` is
   * the start time and `clock[k]` the reading of the k-th loop test. Its last
   * reading is past the deadline, which is what ends the loop for an
   * assertion that never passes. `slept` lists the arguments of the `_sleep`
   * calls, and `tries` counts the assertion runs.
   */
  method WithRetry(attempt: nat -> bool, timeoutOption: Option<int>, intervalOption: Option<int>, clock: seq<int>)
    returns (end: RetryEnd, tries: nat, slept: seq<int>)
    requires |clock| >= 2 && clock[|clock| - 1] - clock[0] >= timeoutOption.GetOr(DefaultTimeout)
    ensures var timeout := timeoutOption.GetOr(DefaultTimeout);
      // every run started while the deadline was still ahead ...
      && tries + 1 < |clock| + (if end.Passed? then 1 else 0)
      && (forall k :: 1 <= k <= tries ==> clock[k] - clock[0] < timeout)
      // ... every run but the last threw, and each throw was followed by one sleep of the interval
      && (forall i :: 0 <= i < tries - 1 ==> !attempt(i))
      && |slept| == (if end.Passed? then tries - 1 else tries)
      && (forall i :: 0 <= i < |slept| ==> slept[i] == intervalOption.GetOr(DefaultInterval))
    ensures end.Passed? ==> tries >= 1 && attempt(tries - 1)
    ensures end.TimedOut? ==>
      && (tries >= 1 ==> !attempt(tries - 1))
      && clock[tries + 1] - clock[0] >= timeoutOption.GetOr(DefaultTimeout)
      && end.error == RetryTimeoutError("RetryTimeoutError", TimeoutMessage(timeoutOption.GetOr(DefaultTimeout)))
  {
    var timeout := timeoutOption.GetOr(DefaultTimeout);
    var interval := intervalOption.GetOr(DefaultInterval);
    var startTime := clock[0];
    var k := 1;
    tries, slept := 0, [];
    while clock[k] - startTime < timeout
      invariant 1 <= k < |clock| && tries == k - 1
      invariant forall j :: 1 <= j < k ==> clock[j] - clock[0] < timeout
      invariant forall i :: 0 <= i < tries ==> !attempt(i)
      invariant |slept| == tries && forall i :: 0 <= i < |slept| ==> slept[i] == interval
      decreases |clock| - k
    {
      tries := tries + 1;
      if attempt(tries - 1) {
        return Passed, tries, slept;
      }
      slept := slept + [interval];
      k := k + 1;
    }
    end := TimedOut(RetryTimeoutError("RetryTimeoutError", TimeoutMessage(timeout)));
  }

  /** An assertion that passes at once, before the deadline, runs once and never sleeps. */
  method FirstPassReturnsAtOnce(attempt: nat -> bool, timeoutOption: Option<int>, intervalOption: Option<int>, clock: seq<int>)
    returns (end: RetryEnd, tries: nat, slept: seq<int>)
    requires |clock| >= 2 && clock[|clock| - 1] - clock[0] >= timeoutOption.GetOr(DefaultTimeout)
    requires attempt(0) && clock[1] - clock[0] < timeoutOption.GetOr(DefaultTimeout)
    ensures end == Passed && tries == 1 && slept == []
  {
    end, tries, slept := WithRetry(attempt, timeoutOption, intervalOption, clock);
  }

  /** With a timeout of zero or less (and a clock that does not run backwards) the assertion never runs. */
  method NonPositiveTimeoutNeverRuns(attempt: nat -> bool, timeout: int, intervalOption: Option<int>, clock: seq<int>)
    returns (end: RetryEnd, tries: nat, slept: seq<int>)
    requires |clock| >= 2 && clock[|clock| - 1] - clock[0] >= timeout
    requires timeout <= 0 && clock[0] <= clock[1]
    ensures tries == 0 && slept == []
    ensures end == TimedOut(RetryTimeoutError("RetryTimeoutError", TimeoutMessage(timeout)))
  {
    end, tries, slept := WithRetry(attempt, Some(timeout), intervalOption, clock);
  }

  /** Without options the deadline is the default 5000 ms and the sleeps the default 100 ms. */
  method DefaultsApply(attempt: nat -> bool, clock: seq<int>)
    returns (end: RetryEnd, tries: nat, slept: seq<int>)
    requires |clock| >= 2 && clock[|clock| - 1] - clock[0] >= 5000
    ensures tries < |clock|
    ensures forall k :: 1 <= k <= tries ==> clock[k] - clock[0] < 5000
    ensures forall i :: 0 <= i < |slept| ==> slept[i] == 100
    ensures end.TimedOut? ==> tries + 1 < |clock| && clock[tries + 1] - clock[0] >= 5000
  {
    end, tries, slept := WithRetry(attempt, None, None, clock);
  }

  // ----------------------------------------------------- boolean-state errors

  /**
   * A boolean-state renderer names its matcher `toBe` and the capitalised
   * state, shows `locator` as the received value, and reports the state
   * expected, its opposite as received, and a call log whose first entry
   * names the matcher and the timeout.
   */
  lemma BooleanStateReport(state: string, opposite: string, info: MatcherErrorInfo, display: string, paint: Paint)
    requires state != ""
    ensures MatcherName(BooleanState(state, opposite)) == "toBe" + [UpperChar(state[0])] + state[1..]
    ensures ReceivedPlaceholder(BooleanState(state, opposite)) == "locator"
    ensures var lines := SpecificLines(BooleanState(state, opposite), info, RenderConfig(false, display), paint);
      && |lines| == 5
      && lines[0] == Line("Expected", state, 3, false)
      && lines[1] == Line("Received", opposite, 3, false)
      && lines[2] == Line("Call log", "", 3, false)
      && lines[3] == Line("", "  - expect." + MatcherName(BooleanState(state, opposite)) + " with timeout "
                             + (if info.timeout.Some? then IntToString(info.timeout.value) else "undefined") + "ms", 3, true)
      && lines[4] == Line("", "  - waiting for locator", 3, true)
  {
    var name := MatcherName(BooleanState(state, opposite));
    assert "toBe" + Capitalize(state) == "toBe" + [UpperChar(state[0])] + state[1..];
    assert "  - expect.toBe" + Capitalize(state) == "  - expect." + name;
  }
}
