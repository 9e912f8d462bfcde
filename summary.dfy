/**
 * The end-of-run summary of the test suites: test names, the section
 * listing the failures with their messages, and the coloured count line.
 */
module Summary {
  import opened Text

  /** A finished test: its group path, its name and, when it failed, its error as `String(error)` writes it. */
  datatype TestCaseResult =
    | Passed(path: seq<string>, name: string)
    | Failed(path: seq<string>, name: string, errorText: string)

  /** `ColorizerFn`: paints a text in a named colour. */
  type Colorizer = (string, string) -> string

  /** `formatTestName(result)`: the path, then the name, separated by `" > "`. */
  function FormatTestName(path: seq<string>, name: string): (r: string)
    ensures path == [] ==> r == name
    ensures |r| >= |name| && r[|r| - |name|..] == name
    ensures path != [] ==> StartsWith(r, path[0] + " > ")
  {
    if path == [] then name
    else
      JoinedName(path, name);
      Join(path + [name], " > ")
  }

  lemma {:induction false} JoinedName(path: seq<string>, name: string)
    requires path != []
    ensures Join(path + [name], " > ") == path[0] + " > " + Join(path[1..] + [name], " > ")
    ensures Join(path + [name], " > ") == Join(path, " > ") + " > " + name
  {
    JoinAppend(path, [name], " > ");
    assert path + [name] == [path[0]] + (path[1..] + [name]);
    JoinCons(path[0], path[1..] + [name], " > ");
  }

  /** Each path component is followed by the separator: the name of a test one group deeper. */
  lemma {:induction false} FormatTestNameCons(group: string, path: seq<string>, name: string)
    ensures FormatTestName([group] + path, name) == group + " > " + FormatTestName(path, name)
  {
    if path == [] {
      assert [group] + path + [name] == [group] + [name];
      JoinCons(group, [name], " > ");
    } else {
      assert [group] + path + [name] == [group] + (path + [name]);
      JoinCons(group, path + [name], " > ");
    }
  }

  /** Every line prefixed with two spaces. */
  function Indent(lines: seq<string>): (r: seq<string>)
    ensures |r| == |lines|
    ensures forall i :: 0 <= i < |lines| ==> r[i] == "  " + lines[i]
  {
    if lines == [] then [] else ["  " + lines[0]] + Indent(lines[1..])
  }

  /** Every line with its first two characters removed. */
  function Unindent(lines: seq<string>): (r: seq<string>)
    requires forall i :: 0 <= i < |lines| ==> |lines[i]| >= 2
    ensures |r| == |lines|
    ensures forall i :: 0 <= i < |lines| ==> r[i] == lines[i][2..]
  {
    if lines == [] then [] else [lines[0][2..]] + Unindent(lines[1..])
  }

  /** The message with each of its lines indented by two spaces. */
  function IndentMessage(message: string): string {
    Join(Indent(Split(message, '\n')), "\n")
  }

  /**
   * The indented message has one line per message line, each the original
   * behind two spaces, so removing them gives the message back.
   */
  lemma {:induction false} IndentRoundTrip(message: string)
    ensures Split(IndentMessage(message), '\n') == Indent(Split(message, '\n'))
    ensures Join(Unindent(Split(IndentMessage(message), '\n')), "\n") == message
  {
    var lines := Split(message, '\n');
    var indented := Indent(lines);
    assert forall i :: 0 <= i < |indented| ==> '\n' !in indented[i] by {
      forall i | 0 <= i < |indented|
        ensures '\n' !in indented[i]
      {
        assert indented[i] == "  " + lines[i];
      }
    }
    SplitJoin(indented, '\n');
    assert Unindent(indented) == lines;
    JoinSplit(message, '\n');
  }

  /** One failure: its red name, a colon, then its indented message. */
  function FormatFailure(result: TestCaseResult, colorize: Colorizer): (r: string)
    requires result.Failed?
  {
    colorize(FormatTestName(result.path, result.name), "red") + ":\n" + IndentMessage(result.errorText)
  }

  function FormatFailures(failed: seq<TestCaseResult>, colorize: Colorizer): (r: seq<string>)
    requires forall i :: 0 <= i < |failed| ==> failed[i].Failed?
    ensures |r| == |failed|
    ensures forall i :: 0 <= i < |failed| ==> r[i] == FormatFailure(failed[i], colorize)
  {
    if failed == [] then [] else [FormatFailure(failed[0], colorize)] + FormatFailures(failed[1..], colorize)
  }

  /** `formatErrors(errors, colorize)`: empty without failures, otherwise a blank line before each failure. */
  function FormatErrors(failed: seq<TestCaseResult>, colorize: Colorizer): (r: string)
    requires forall i :: 0 <= i < |failed| ==> failed[i].Failed?
    ensures r == "" <==> failed == []
    ensures failed != [] ==> StartsWith(r, "\n\n" + FormatFailure(failed[0], colorize))
  {
    if failed == [] then ""
    else
      var entries := FormatFailures(failed, colorize);
      JoinStartsWithFirst(entries, "\n\n");
      "\n\n" + Join(entries, "\n\n")
  }

  lemma {:induction false} FormatFailuresConcat(a: seq<TestCaseResult>, b: seq<TestCaseResult>, colorize: Colorizer)
    requires forall i :: 0 <= i < |a| ==> a[i].Failed?
    requires forall i :: 0 <= i < |b| ==> b[i].Failed?
    ensures FormatFailures(a + b, colorize) == FormatFailures(a, colorize) + FormatFailures(b, colorize)
  {
    if a == [] {
      assert a + b == b;
    } else {
      assert (a + b)[1..] == a[1..] + b;
      FormatFailuresConcat(a[1..], b, colorize);
    }
  }

  lemma {:induction false} JoinStartsWithFirst(parts: seq<string>, sep: string)
    requires parts != []
    ensures StartsWith(Join(parts, sep), parts[0])
  {
    if |parts| >= 2 {
      JoinCons(parts[0], parts[1..], sep);
      assert [parts[0]] + parts[1..] == parts;
    }
  }

  /** The failures are listed in result order: the section of a concatenation is the two sections one after the other. */
  lemma {:induction false} FormatErrorsConcat(a: seq<TestCaseResult>, b: seq<TestCaseResult>, colorize: Colorizer)
    requires forall i :: 0 <= i < |a| ==> a[i].Failed?
    requires forall i :: 0 <= i < |b| ==> b[i].Failed?
    ensures FormatErrors(a + b, colorize) == FormatErrors(a, colorize) + FormatErrors(b, colorize)
  {
    if a == [] {
      assert a + b == b;
    } else if b != [] {
      FormatErrorsJoin(a, b, colorize);
    } else {
      assert a + b == a;
    }
  }

  lemma {:induction false} FormatErrorsJoin(a: seq<TestCaseResult>, b: seq<TestCaseResult>, colorize: Colorizer)
    requires a != [] && b != []
    requires forall i :: 0 <= i < |a| ==> a[i].Failed?
    requires forall i :: 0 <= i < |b| ==> b[i].Failed?
    ensures FormatErrors(a + b, colorize) == FormatErrors(a, colorize) + FormatErrors(b, colorize)
  {
      var fa, fb := FormatFailures(a, colorize), FormatFailures(b, colorize);
      var ja, jb := Join(fa, "\n\n"), Join(fb, "\n\n");
      assert FormatErrors(a + b, colorize) == "\n\n" + Join(fa + fb, "\n\n") by {
        FormatFailuresConcat(a, b, colorize);
      }
      assert Join(fa + fb, "\n\n") == ja + "\n\n" + jb by {
        JoinAppend(fa, fb, "\n\n");
      }
      assert FormatErrors(a, colorize) == "\n\n" + ja;
      assert FormatErrors(b, colorize) == "\n\n" + jb;
      Regroup("\n\n", ja, jb);
  }

  lemma {:induction false} Regroup<T>(sep: seq<T>, x: seq<T>, y: seq<T>)
    ensures sep + (x + sep + y) == (sep + x) + (sep + y)
  {
  }

  /** `results.filter((r) => r.type === "fail")` */
  function Failures(results: seq<TestCaseResult>): (r: seq<TestCaseResult>)
    ensures |r| <= |results|
    ensures forall i :: 0 <= i < |r| ==> r[i].Failed? && r[i] in results
    ensures forall x :: x in results && x.Failed? ==> x in r
  {
    if results == [] then []
    else if results[0].Failed? then [results[0]] + Failures(results[1..])
    else Failures(results[1..])
  }

  /** Filtering keeps order and multiplicity: the failures of two runs are those of the first, then those of the second. */
  lemma {:induction false} FailuresConcat(a: seq<TestCaseResult>, b: seq<TestCaseResult>)
    ensures Failures(a + b) == Failures(a) + Failures(b)
  {
    if a == [] {
      assert a + b == b;
    } else {
      assert (a + b)[0] == a[0] && (a + b)[1..] == a[1..] + b;
      FailuresConcat(a[1..], b);
    }
  }

  /** One result is kept exactly when it failed. */
  lemma FailuresOne(x: TestCaseResult)
    ensures Failures([x]) == (if x.Failed? then [x] else [])
  {
    assert [x][1..] == [];
  }

  /** The number of passed tests, counted on its own. */
  function PassedCount(results: seq<TestCaseResult>): nat {
    if results == [] then 0 else (if results[0].Passed? then 1 else 0) + PassedCount(results[1..])
  }

  /** Every result is either a failure or a pass: `passed = total - failed` counts the passes. */
  lemma {:induction false} CountsAddUp(results: seq<TestCaseResult>)
    ensures |Failures(results)| + PassedCount(results) == |results|
  {
    if results != [] {
      CountsAddUp(results[1..]);
    }
  }

  /** The summary line's colour. */
  function SummaryColor(results: seq<TestCaseResult>): (color: string)
    ensures color == "green" <==> forall i :: 0 <= i < |results| ==> results[i].Passed?
    ensures color != "green" ==> color == "red"
  {
    var failed := Failures(results);
    if failed == [] then
      assert forall i :: 0 <= i < |results| ==> results[i].Passed? by {
        forall i | 0 <= i < |results|
          ensures results[i].Passed?
        {
          assert results[i] in results;
        }
      }
      "green"
    else
      assert failed[0] in results;
      "red"
  }

  function SummaryLine(passed: nat, failed: nat, total: nat): string {
    "\n\nTest summary: " + NatToString(passed) + " passed, " + NatToString(failed) + " failed, " + NatToString(total) + " total.\n\n"
  }

  /** `formatSummary(results, colorize)`: the failures section, then the coloured count line. */
  function FormatSummary(results: seq<TestCaseResult>, colorize: Colorizer): (r: string)
    ensures StartsWith(r, FormatErrors(Failures(results), colorize))
  {
    var failed := Failures(results);
    var failedCount := |failed|;
    var successCount := |results| - failedCount;
    FormatErrors(failed, colorize) + colorize(SummaryLine(successCount, failedCount, |results|), SummaryColor(results))
  }

  /**
   * The summary ends with the count line in its colour, and the counts it
   * shows are the passes, the failures and their sum.
   */
  lemma {:induction false} SummaryEndsWithCounts(results: seq<TestCaseResult>, colorize: Colorizer)
    ensures FormatSummary(results, colorize)[|FormatErrors(Failures(results), colorize)|..]
      == colorize(SummaryLine(PassedCount(results), |Failures(results)|, |results|), SummaryColor(results))
  {
    SummaryParts(results, colorize);
    DropPrefix(FormatErrors(Failures(results), colorize),
      colorize(SummaryLine(PassedCount(results), |Failures(results)|, |results|), SummaryColor(results)));
  }

  lemma SummaryParts(results: seq<TestCaseResult>, colorize: Colorizer)
    ensures FormatSummary(results, colorize) == FormatErrors(Failures(results), colorize)
      + colorize(SummaryLine(PassedCount(results), |Failures(results)|, |results|), SummaryColor(results))
  {
    CountsAddUp(results);
  }

  lemma DropPrefix<T>(x: seq<T>, y: seq<T>)
    ensures (x + y)[|x|..] == y
  {
  }

  /** With every test passed there is no failures section: only the green count line. */
  lemma {:induction false} AllPassedIsGreenLine(results: seq<TestCaseResult>, colorize: Colorizer)
    requires forall i :: 0 <= i < |results| ==> results[i].Passed?
    ensures FormatSummary(results, colorize) == colorize(SummaryLine(|results|, 0, |results|), "green")
  {
  }
}
