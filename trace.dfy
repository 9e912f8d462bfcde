/** The "trace" error format: run-length aggregation of retry messages and their rendering. */
module Trace {
  import opened Wrappers
  import opened Text
  import opened Values
  import Errors

  /** One aggregated message and the number of consecutive times it occurred. */
  datatype Run = Run(message: string, count: nat)

  /** The aggregation of a trace, read from its last message backwards. */
  function Aggregated(trace: seq<string>): seq<Run>
  {
    if trace == [] then []
    else
      var prev := Aggregated(trace[..|trace| - 1]);
      var next := trace[|trace| - 1];
      if prev != [] && prev[|prev| - 1].message == next then
        prev[..|prev| - 1] + [Run(next, prev[|prev| - 1].count + 1)]
      else prev + [Run(next, 1)]
  }

  /** Aggregating one more message bumps the last run or opens a new one. */
  lemma AggregatedStep(trace: seq<string>, i: nat, prev: seq<Run>, current: Run)
    requires 0 < i < |trace| && prev == Aggregated(trace[..i])
    requires prev != [] && current == prev[|prev| - 1]
    ensures Aggregated(trace[..i + 1]) ==
      if trace[i] == current.message then prev[..|prev| - 1] + [current.(count := current.count + 1)]
      else prev + [Run(trace[i], 1)]
  {
    assert trace[..i + 1][..i] == trace[..i];
  }

  /** The first message alone opens one run. */
  lemma AggregatedFirst(trace: seq<string>)
    requires trace != []
    ensures Aggregated(trace[..1]) == [Run(trace[0], 1)]
  {
    assert trace[..1][..0] == [];
  }

  /** `aggregateMessages(trace)`: the loop over `rest`, bumping or opening the current run. */
  method AggregateMessages(trace: seq<string>) returns (result: seq<Run>)
    ensures result == Aggregated(trace)
  {
    if trace == [] {
      return [];
    }
    var current := Run(trace[0], 1);
    result := [current];
    AggregatedFirst(trace);
    for i := 1 to |trace|
      invariant result != [] && current == result[|result| - 1]
      invariant result == Aggregated(trace[..i])
    {
      var next := trace[i];
      AggregatedStep(trace, i, result, current);
      if next == current.message {
        current := current.(count := current.count + 1);
        result := result[..|result| - 1] + [current];
      } else {
        current := Run(next, 1);
        result := result + [current];
      }
    }
    assert trace[..|trace|] == trace;
  }

  /** Each run's message repeated `count` times. */
  function Expand(runs: seq<Run>): seq<string> {
    if runs == [] then [] else Expand(runs[..|runs| - 1]) + Copies(runs[|runs| - 1].message, runs[|runs| - 1].count)
  }

  function Copies(m: string, n: nat): seq<string> {
    if n == 0 then [] else Copies(m, n - 1) + [m]
  }

  function TotalCount(runs: seq<Run>): nat {
    if runs == [] then 0 else TotalCount(runs[..|runs| - 1]) + runs[|runs| - 1].count
  }

  /** Every count is positive and neighbouring runs carry different messages. */
  predicate WellFormed(runs: seq<Run>) {
    (forall i :: 0 <= i < |runs| ==> runs[i].count >= 1)
    && (forall i :: 0 <= i < |runs| - 1 ==> runs[i].message != runs[i + 1].message)
  }

  lemma {:induction false} ExpandLastBump(prev: seq<Run>, m: string)
    requires prev != [] && prev[|prev| - 1].message == m
    ensures Expand(prev[..|prev| - 1] + [Run(m, prev[|prev| - 1].count + 1)]) == Expand(prev) + [m]
    ensures TotalCount(prev[..|prev| - 1] + [Run(m, prev[|prev| - 1].count + 1)]) == TotalCount(prev) + 1
  {
    var init := prev[..|prev| - 1];
    var c := prev[|prev| - 1].count;
    var runs := init + [Run(m, c + 1)];
    assert runs[..|runs| - 1] == init;
    assert Expand(runs) == Expand(init) + Copies(m, c + 1);
    assert Copies(m, c + 1) == Copies(m, c) + [m];
    assert Expand(prev) == Expand(init) + Copies(m, c);
    assert TotalCount(prev) == TotalCount(init) + c;
  }

  lemma {:induction false} ExpandAppend(prev: seq<Run>, m: string)
    ensures Expand(prev + [Run(m, 1)]) == Expand(prev) + [m]
    ensures TotalCount(prev + [Run(m, 1)]) == TotalCount(prev) + 1
  {
    var runs := prev + [Run(m, 1)];
    assert runs[..|runs| - 1] == prev;
    assert Copies(m, 1) == [m];
  }

  /** Aggregation loses nothing: expanding the runs gives the trace back, and the counts add up to its length. */
  lemma {:induction false} AggregatedExpands(trace: seq<string>)
    ensures Expand(Aggregated(trace)) == trace
    ensures TotalCount(Aggregated(trace)) == |trace|
  {
    if trace != [] {
      var init := trace[..|trace| - 1];
      var next := trace[|trace| - 1];
      var prev := Aggregated(init);
      assert Expand(prev) == init && TotalCount(prev) == |init| by { AggregatedExpands(init); }
      assert init + [next] == trace;
      var r := Aggregated(trace);
      if prev != [] && prev[|prev| - 1].message == next {
        assert r == prev[..|prev| - 1] + [Run(next, prev[|prev| - 1].count + 1)];
        ExpandLastBump(prev, next);
      } else {
        assert r == prev + [Run(next, 1)];
        ExpandAppend(prev, next);
      }
    }
  }

  /** Every count is at least one, neighbouring runs differ, and the last run holds the last message. */
  lemma {:induction false} AggregatedWellFormed(trace: seq<string>)
    ensures WellFormed(Aggregated(trace))
    ensures trace != [] ==> Aggregated(trace) != [] && Aggregated(trace)[|Aggregated(trace)| - 1].message == trace[|trace| - 1]
  {
    if trace != [] {
      var init := trace[..|trace| - 1];
      var next := trace[|trace| - 1];
      var prev := Aggregated(init);
      assert WellFormed(prev) by { AggregatedWellFormed(init); }
      var r := Aggregated(trace);
      if prev != [] && prev[|prev| - 1].message == next {
        var bumped := prev[..|prev| - 1] + [Run(next, prev[|prev| - 1].count + 1)];
        assert r == bumped;
        assert WellFormed(bumped) by { BumpKeepsWellFormed(prev, next); }
        assert bumped[|bumped| - 1].message == next;
      } else {
        var appended := prev + [Run(next, 1)];
        assert r == appended;
        assert WellFormed(appended) by { AppendKeepsWellFormed(prev, next); }
        assert appended[|appended| - 1].message == next;
      }
    }
  }

  lemma BumpKeepsWellFormed(prev: seq<Run>, m: string)
    requires WellFormed(prev) && prev != [] && prev[|prev| - 1].message == m
    ensures WellFormed(prev[..|prev| - 1] + [Run(m, prev[|prev| - 1].count + 1)])
  {
    var r := prev[..|prev| - 1] + [Run(m, prev[|prev| - 1].count + 1)];
    assert forall i :: 0 <= i < |r| ==> r[i].message == prev[i].message && r[i].count >= prev[i].count;
  }

  lemma AppendKeepsWellFormed(prev: seq<Run>, m: string)
    requires WellFormed(prev) && (prev == [] || prev[|prev| - 1].message != m)
    ensures WellFormed(prev + [Run(m, 1)])
  {
    var r := prev + [Run(m, 1)];
    assert forall i :: 0 <= i < |prev| ==> r[i] == prev[i];
  }

  /** The empty trace aggregates to no runs. */
  lemma AggregatedEmpty()
    ensures Aggregated([]) == []
  {
  }

  /** Only consecutive duplicates merge: `a, a, b, a` is three runs. */
  lemma OnlyConsecutiveMerge(a: string, b: string)
    requires a != b
    ensures Aggregated([a, a, b, a]) == [Run(a, 2), Run(b, 1), Run(a, 1)]
  {
    assert [a][..0] == [];
    assert Aggregated([a]) == [Run(a, 1)];
    assert [a, a][..1] == [a];
    assert Aggregated([a, a]) == [Run(a, 2)];
    assert [a, a, b][..2] == [a, a];
    assert Aggregated([a, a, b]) == [Run(a, 2), Run(b, 1)];
    assert [a, a, b, a][..3] == [a, a, b];
  }

  /** How one run is shown in the call log: red, with ` (xN)` after it when repeated. */
  function RunValue(run: Run): Value {
    if run.count == 1 then Colorize(Red, Text(run.message))
    else
      var count := Seq([Text("(x"), Text(NatToString(run.count)), Text(")")]);
      Colorize(Red, Seq([Text(""), Text(run.message), Text(" "), Colorize(White, count), Text("")]))
  }

  lemma PlainTextThree(x: Value, y: Value, z: Value)
    ensures PlainTextAll([x, y, z]) == PlainText(x) + PlainText(y) + PlainText(z)
  {
    assert [x, y, z][..2] == [x, y] && [x, y][..1] == [x] && [x][..0] == [];
    assert PlainTextAll([x]) == "" + PlainText(x) == PlainText(x);
    assert PlainTextAll([x, y]) == PlainText(x) + PlainText(y);
  }

  lemma PlainTextFive(a: Value, b: Value, c: Value, d: Value, e: Value)
    ensures PlainTextAll([a, b, c, d, e]) == PlainText(a) + PlainText(b) + PlainText(c) + PlainText(d) + PlainText(e)
  {
    assert [a, b, c, d, e][..4] == [a, b, c, d];
    assert [a, b, c, d][..3] == [a, b, c];
    PlainTextThree(a, b, c);
  }

  /** A single occurrence prints as the message; a repeated one gets its count appended. */
  lemma RunPrinted(run: Run)
    ensures PrintValue(RunValue(run), DefaultColorize) ==
      if run.count == 1 then run.message else run.message + " (x" + NatToString(run.count) + ")"
  {
    PrintDefaultIgnoresColor(RunValue(run), Red);
    if run.count != 1 {
      var n := NatToString(run.count);
      var count := Seq([Text("(x"), Text(n), Text(")")]);
      var shown := "(x" + n + ")";
      assert PlainText(Colorize(White, count)) == shown by {
        PlainTextThree(Text("(x"), Text(n), Text(")"));
      }
      var body := Seq([Text(""), Text(run.message), Text(" "), Colorize(White, count), Text("")]);
      assert PlainText(body) == "" + run.message + " " + shown + "" by {
        PlainTextFive(Text(""), Text(run.message), Text(" "), Colorize(White, count), Text(""));
      }
      assert "" + run.message + " " + shown + "" == run.message + " (x" + n + ")";
    }
  }

  /** The call-log items for a trace. */
  function CallLog(runs: seq<Run>): (r: seq<Value>)
    ensures |r| == |runs| && forall i :: 0 <= i < |runs| ==> r[i] == RunValue(runs[i])
  {
    if runs == [] then [] else CallLog(runs[..|runs| - 1]) + [RunValue(runs[|runs| - 1])]
  }

  /** The `this` a formatter runs with: none, as `formatError` calls it, or an object whose `format` formats an error. */
  datatype Receiver = Unbound | Bound(format: Errors.AnyError -> Result<Message>)

  /** The `TypeError` of reading `format` from a `this` that holds nothing. */
  const UnboundFormatError := "TypeError: cannot read 'format' of an unbound this"

  /**
   * The "trace" formatter as written: `this.format(inner)` first, then the
   * call log. Without a receiver the first step throws.
   */
  function TraceFormatter(self: Receiver, inner: Errors.AnyError, trace: seq<string>): (r: Result<seq<Group>>)
    ensures self.Unbound? ==> r == Failure(UnboundFormatError)
    ensures self.Bound? ==> (r.Success? <==> self.format(inner).Success?)
    ensures self.Bound? && r.Success? ==> r.value == FormatTrace(self.format(inner).value, trace)
  {
    match self
    case Unbound => Failure(UnboundFormatError)
    case Bound(format) =>
      match format(inner)
      case Failure(e) => Failure(e)
      case Success(m) => Success(FormatTrace(m, trace))
  }

  /**
   * `formatError` calls every formatter as a plain function, so the trace
   * formatter as written throws for every trace error, whatever its inner
   * error and its trace.
   */
  lemma UnboundTraceThrows(inner: Errors.AnyError, trace: seq<string>)
    ensures TraceFormatter(Unbound, inner, trace).Failure?
    ensures forall m: Message :: TraceFormatter(Unbound, inner, trace) != Success(FormatTrace(m, trace))
  {
  }

  /**
   * The "trace" formatter corrected: the inner error's groups, then one
   * `Call log` group listing the runs. The inner error arrives formatted, as
   * it would from a bound `this.format`.
   */
  function FormatTrace(inner: Message, trace: seq<string>): (r: seq<Group>)
    ensures |r| == |GroupsOf(inner)| + 1
    ensures r[..|r| - 1] == GroupsOf(inner)
    ensures r[|r| - 1] == [Entry("Call log", List(CallLog(Aggregated(trace))))]
  {
    GroupsOf(inner) + [[Entry("Call log", List(CallLog(Aggregated(trace))))]]
  }
}
