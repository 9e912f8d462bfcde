/**
 * Error messages with their context: the `expect(received).matcher(args)`
 * line built from the matcher's own parameter names, the header, the footer
 * and their assembly around the formatted error.
 */
module FormattingUtils {
  import opened Wrappers
  import opened Text
  import opened Values
  import opened Errors
  import opened Execution

  // ------------------------------------------------------------ parseArgs

  /** How one character moves the parenthesis depth. */
  function Delta(c: char): int {
    if c == '(' then 1 else if c == ')' then -1 else 0
  }

  /** Opening minus closing parentheses in `s`. */
  function Balance(s: string): int {
    if s == [] then 0 else Delta(s[0]) + Balance(s[1..])
  }

  /** Where the depth-counting scan that starts at `i` with depth `parens` stops. */
  function ScanEnd(s: string, i: nat, parens: int): (r: nat)
    requires i <= |s|
    ensures i <= r <= |s|
    decreases |s| - i
  {
    if i < |s| && parens > 0 then ScanEnd(s, i + 1, parens + Delta(s[i])) else i
  }

  lemma BalanceCons(s: string, i: nat, k: nat)
    requires i < k <= |s|
    ensures Balance(s[i..k]) == Delta(s[i]) + Balance(s[i + 1..k])
  {
    assert s[i..k][1..] == s[i + 1..k];
  }

  /**
   * The scan from just after an opening parenthesis (depth `p`) never lets
   * the depth fall to zero before its end; it ends either right after the
   * matching `)`, where the depth is zero, or at the end of the text with
   * the parenthesis still open.
   */
  lemma {:induction false} ScanFindsMatch(s: string, i: nat, p: int)
    requires i <= |s| && p >= 1
    ensures var e := ScanEnd(s, i, p);
      && (forall k :: i <= k < e ==> p + Balance(s[i..k]) >= 1)
      && (p + Balance(s[i..e]) == 0 || (e == |s| && p + Balance(s[i..e]) >= 1))
      && (p + Balance(s[i..e]) == 0 ==> i < e && s[e - 1] == ')')
    decreases |s| - i
  {
    if i < |s| {
      var q := p + Delta(s[i]);
      var e := ScanEnd(s, i, p);
      assert e == ScanEnd(s, i + 1, q);
      BalanceCons(s, i, e);
      assert s[i..i] == [];
      if q >= 1 {
        ScanFindsMatch(s, i + 1, q);
        forall k | i < k < e
          ensures p + Balance(s[i..k]) >= 1
        {
          BalanceCons(s, i, k);
        }
      } else {
        assert e == i + 1;
        assert s[i + 1..e] == [];
      }
    } else {
      assert s[i..i] == [];
    }
  }

  /** `source.slice(startIndex, endIndex - 1)`: the parameter-list text. */
  function ArgsText(source: string): string {
    var start := IndexOf(source, '(') + 1;
    Slice(source, start, ScanEnd(source, start, 1) - 1)
  }

  /** One parameter's name: the text before any `=default`, trimmed. */
  function ParamName(arg: string): string {
    Trim(Split(arg, '=')[0])
  }

  function ParamNames(args: seq<string>): (r: seq<string>)
    ensures |r| == |args| && forall i :: 0 <= i < |args| ==> r[i] == ParamName(args[i])
  {
    seq(|args|, i requires 0 <= i < |args| => ParamName(args[i]))
  }

  /** `parseArgs(fn)` on the function's source text: every parameter's name but the first. */
  function ParsedArgs(source: string): seq<string> {
    ParamNames(Split(ArgsText(source), ','))[1..]
  }

  /** `parseArgs`, with its depth-counting loop. */
  method ParseArgs(source: string) returns (names: seq<string>)
    ensures names == ParsedArgs(source)
  {
    var startIndex := IndexOf(source, '(') + 1;
    var parens := 1;
    var endIndex := startIndex;
    while endIndex < |source| && parens > 0
      invariant startIndex <= endIndex <= |source|
      invariant ScanEnd(source, endIndex, parens) == ScanEnd(source, startIndex, 1)
      decreases |source| - endIndex
    {
      var c := source[endIndex];
      ghost var before := parens;
      if c == '(' {
        parens := parens + 1;
      } else if c == ')' {
        parens := parens - 1;
      }
      assert parens == before + Delta(c);
      endIndex := endIndex + 1;
    }
    var text := Slice(source, startIndex, endIndex - 1);
    assert text == ArgsText(source);
    names := ParamNames(Split(text, ','))[1..];
  }

  /** A parameter name as `parseArgs` leaves it: trimmed, with no comma and no `=`. */
  predicate CleanName(n: string) {
    ',' !in n && '=' !in n && (n == [] || (!IsWs(n[0]) && !IsWs(n[|n| - 1])))
  }

  lemma ParamNameClean(arg: string)
    requires ',' !in arg
    ensures CleanName(ParamName(arg))
  {
    var head := Split(arg, '=')[0];
    assert ',' !in head by { SplitKeepsOut(arg, '=', ','); }
    TrimKeepsOut(head, ',');
    TrimKeepsOut(head, '=');
  }

  /**
   * One name per comma-separated parameter after the first (`received`);
   * each is trimmed and holds neither a comma nor an `=`.
   */
  lemma ParsedArgsNames(source: string)
    ensures |ParsedArgs(source)| == |Split(ArgsText(source), ',')| - 1
    ensures forall i :: 0 <= i < |ParsedArgs(source)| ==> CleanName(ParsedArgs(source)[i])
  {
    var parts := Split(ArgsText(source), ',');
    var names := ParamNames(parts);
    forall i | 0 <= i < |names| - 1
      ensures CleanName(names[1..][i])
    {
      ParamNameClean(parts[i + 1]);
    }
  }

  // ------------------------------------------------------- the error line

  /** The called matcher: its name, its function's source text and how many arguments it got. */
  datatype Matcher = Matcher(name: string, source: string, argCount: nat)

  /** `slice(0, n)`: as many names as arguments were passed. */
  function Shown(names: seq<string>, argCount: nat): (r: seq<string>)
    ensures |r| == if argCount < |names| then argCount else |names|
    ensures r == names[..|r|]
  {
    if argCount < |names| then names[..argCount] else names
  }

  function Greens(names: seq<string>): (r: seq<Value>)
    ensures |r| == |names| && forall i :: 0 <= i < |names| ==> r[i] == Colorize(Green, Text(names[i]))
  {
    seq(|names|, i requires 0 <= i < |names| => Colorize(Green, Text(names[i])))
  }

  function MethodName(name: string, negated: bool): string {
    if negated then "not." + name else name
  }

  /** The items of the template `expect(${received}).${method}(${args})`. */
  function ErrorLineItems(call: Value, args: Value): seq<Value> {
    [Text("expect("), Colorize(Red, Text("received")), Text(")."), call, Text("("), args, Text(")")]
  }

  /** `formatErrorLine`: the custom message verbatim, or the call as written. */
  function FormatErrorLine(message: Option<string>, matcher: Matcher, negated: bool): (r: Value)
    ensures message.Some? ==> r == Text(message.value)
    ensures message.None? ==> r.Colored? && r.color == DarkGrey
  {
    if message.Some? then Text(message.value)
    else
      var args := Values.Join(Greens(Shown(ParsedArgs(matcher.source), matcher.argCount)), Text(", "));
      var call := Colorize(White, Text(MethodName(matcher.name, negated)));
      Colorize(DarkGrey, Seq(ErrorLineItems(call, args)))
  }

  /** The line's items are exactly what the `value` template interleaves. */
  lemma ErrorLineIsTemplate(call: Value, args: Value)
    ensures ErrorLineItems(call, args) ==
      Interleaved(["expect(", ").", "(", ")"], Somes([Colorize(Red, Text("received")), call, args]), 4)
  {
    var strings := ["expect(", ").", "(", ")"];
    var values := [Colorize(Red, Text("received")), call, args];
    InterleavedAlternates(strings, values, 4);
    var r := Interleaved(strings, Somes(values), 4);
    assert r[0] == Text(strings[0]) && r[2] == Text(strings[1]) && r[4] == Text(strings[2]) && r[6] == Text(strings[3]);
    assert r[1] == values[0] && r[3] == values[1] && r[5] == values[2];
  }

  /** The green names joined by `", "` read as the names joined by `", "`. */
  lemma {:induction false} JoinedNamesText(names: seq<string>)
    ensures PlainText(Values.Join(Greens(names), Text(", "))) == Text.Join(names, ", ")
    decreases |names|
  {
    var gs := Greens(names);
    if names == [] {
      assert Values.Join(gs, Text(", ")) == Seq([]);
    } else if |names| == 1 {
      assert PlainText(Values.Join(gs, Text(", "))) == PlainText(gs[0]) by {
        assert Values.Join(gs, Text(", ")) == Seq([gs[0]]);
        PlainTextOne(gs[0]);
      }
      assert PlainText(gs[0]) == names[0];
    } else if |names| > 1 {
      var init := names[..|names| - 1];
      var last := names[|names| - 1];
      var before := PlainText(Values.Join(Greens(init), Text(", ")));
      assert before == Text.Join(init, ", ") by { JoinedNamesText(init); }
      assert PlainText(Values.Join(gs, Text(", "))) == before + ", " + last by {
        assert gs[..|gs| - 1] == Greens(init);
        assert PlainText(gs[|gs| - 1]) == last;
        JoinTextStep(gs, Text(", "));
      }
      assert Text.Join(names, ", ") == Text.Join(init, ", ") + ", " + last by {
        assert init + [last] == names;
        JoinAppend(init, [last], ", ");
      }
    }
  }

  /** Without a custom message the line reads `expect(received).<method>(<shown names>)`. */
  lemma ErrorLineText(matcher: Matcher, negated: bool)
    ensures PrintValue(FormatErrorLine(None, matcher, negated), DefaultColorize) ==
      "expect(received)." + MethodName(matcher.name, negated) + "(" +
      Text.Join(Shown(ParsedArgs(matcher.source), matcher.argCount), ", ") + ")"
  {
    var names := Shown(ParsedArgs(matcher.source), matcher.argCount);
    var args := Values.Join(Greens(names), Text(", "));
    var call := Colorize(White, Text(MethodName(matcher.name, negated)));
    var items := ErrorLineItems(call, args);
    assert FormatErrorLine(None, matcher, negated) == Colorize(DarkGrey, Seq(items));
    PrintDefaultIgnoresColor(Seq(items), DarkGrey);
    JoinedNamesText(names);
    ItemsText(call, args);
  }

  lemma ItemsText(call: Value, args: Value)
    ensures PlainText(Seq(ErrorLineItems(call, args))) ==
      "expect(received)." + PlainText(call) + "(" + PlainText(args) + ")"
  {
    var it := ErrorLineItems(call, args);
    PlainTextSeven(it);
    assert PlainText(it[0]) + PlainText(it[1]) + PlainText(it[2]) == "expect(received).";
  }

  /** The text of seven items is their texts in order. */
  lemma PlainTextSeven(it: seq<Value>)
    requires |it| == 7
    ensures PlainTextAll(it) == PlainText(it[0]) + PlainText(it[1]) + PlainText(it[2]) + PlainText(it[3])
      + PlainText(it[4]) + PlainText(it[5]) + PlainText(it[6])
  {
    var t0, t1, t2, t3, t4, t5, t6 := PlainText(it[0]), PlainText(it[1]), PlainText(it[2]), PlainText(it[3]),
      PlainText(it[4]), PlainText(it[5]), PlainText(it[6]);
    var p1 := PlainTextAll(it[..1]);
    assert p1 == t0 by { PlainTextAllPrefix(it, 1); assert it[..0] == []; }
    var p2 := PlainTextAll(it[..2]);
    assert p2 == p1 + t1 by { PlainTextAllPrefix(it, 2); }
    var p3 := PlainTextAll(it[..3]);
    assert p3 == p2 + t2 by { PlainTextAllPrefix(it, 3); }
    var p4 := PlainTextAll(it[..4]);
    assert p4 == p3 + t3 by { PlainTextAllPrefix(it, 4); }
    var p5 := PlainTextAll(it[..5]);
    assert p5 == p4 + t4 by { PlainTextAllPrefix(it, 5); }
    var p6 := PlainTextAll(it[..6]);
    assert p6 == p5 + t5 by { PlainTextAllPrefix(it, 6); }
    assert PlainTextAll(it) == p6 + t6 by { PlainTextAllPrefix(it, 7); assert it[..7] == it; }
  }

  lemma PairText(a: Value, b: Value)
    ensures PlainTextAll([a, b]) == PlainText(a) + PlainText(b)
  {
    assert [a, b][..1] == [a];
    PlainTextOne(a);
  }

  // ------------------------------------------------- header, footer, whole

  /** `FormatErrorWithContextOptions` */
  datatype FormatOptions = FormatOptions(
    error: AnyError, executionContext: ExecutionContext, matcher: Matcher,
    negated: bool, message: Option<string>)

  /** `formatHeader`: the error line and location, then a `Message` group when the error has a message. */
  function FormatHeader(o: FormatOptions): (r: seq<Group>)
    ensures |r| == if o.error.message.Some? then 2 else 1
    ensures r[0] == [Entry("Error", V(FormatErrorLine(o.message, o.matcher, o.negated))),
                     Entry("At", V(Text(o.executionContext.at)))]
    ensures |r| == 2 ==> r[1] == [Entry("Message", V(Colorize(Red, Text(o.error.message.value))))]
  {
    var message := if o.error.message.Some? then [[Entry("Message", V(Colorize(Red, Text(o.error.message.value))))]] else [];
    [[Entry("Error", V(FormatErrorLine(o.message, o.matcher, o.negated))),
      Entry("At", V(Text(o.executionContext.at)))]] + message
  }

  /** `formatFooter`: one group with the file name and the line number as text. */
  function FormatFooter(o: FormatOptions): (r: seq<Group>)
    ensures |r| == 1 && |r[0]| == 2
    ensures r[0][0] == Entry("Filename", V(Text(o.executionContext.fileName)))
    ensures r[0][1] == Entry("Line", V(Text(NumberText(o.executionContext.lineNumber))))
  {
    [[Entry("Filename", V(Text(o.executionContext.fileName))),
      Entry("Line", V(Text(NumberText(o.executionContext.lineNumber))))]]
  }

  /**
   * `formatErrorWithContext`: the header groups, the error's own groups from
   * its registered formatter, then the footer; an unregistered format fails.
   */
  function FormatErrorWithContext(o: FormatOptions, registry: FormatterRegistry): (r: Result<seq<Group>>)
    reads registry
    ensures r.Success? <==> o.error.format in registry.formatters
    ensures r.Success? ==>
      var error := GroupsOf(registry.formatters[o.error.format](o.error));
      var header := FormatHeader(o);
      && |r.value| == |header| + |error| + 1
      && r.value[..|header|] == header
      && r.value[|header|..|header| + |error|] == error
      && r.value[|r.value| - 1] == FormatFooter(o)[0]
  {
    var formatted :- registry.FormatError(o.error);
    Success(FormatHeader(o) + GroupsOf(formatted) + FormatFooter(o))
  }
}
