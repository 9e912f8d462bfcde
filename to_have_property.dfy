/**
 * `toHaveProperty`: an object has a value at a key path, optionally deep-equal
 * to an expected value.
 */
module ToHaveProperty {
  import opened Wrappers
  import opened Text
  import opened JsValues
  import opened Values
  import opened Errors
  import opened Extend
  import opened MatcherUtils

  /** The label of the middle entry: what was expected of the property. */
  function ExpectedLabel(shown: bool, negated: bool): string {
    if shown then (if negated then "Expected property not to equal" else "Expected property to equal")
    else (if negated then "Expected property not to exist" else "Expected property to exist")
  }

  /** How the key path is written in the error. */
  function PathText(keyPath: JsValue): string {
    if keyPath.Str? then keyPath.s else JsString(keyPath)
  }

  /**
   * `formatError(keyPath, received, expected, negated)`: the path in white, the
   * expected value in green when one was passed (an empty cell otherwise), and
   * the received object in red.
   */
  function FormatError(keyPath: JsValue, received: JsValue, expectedValue: Option<JsValue>, negated: bool,
                       show: PrintJsValue): (e: AnyError)
    ensures e.format == "custom" && e.message.None?
    ensures ContentLabels(e) == ["Property path", ExpectedLabel(expectedValue.Some?, negated), "Received object"]
    ensures e.details.content.group[0].cell == V(Colorize(White, Text(PathText(keyPath))))
    ensures expectedValue.Some? ==> e.details.content.group[1].cell == V(Colorize(Green, Text(show(expectedValue.value))))
    ensures expectedValue.None? ==> e.details.content.group[1].cell == V(Text(""))
    ensures e.details.content.group[2].cell == V(Colorize(Red, Text(show(received))))
  {
    var expectedCell := if expectedValue.Some? then V(Colorize(Green, Text(show(expectedValue.value)))) else V(Text(""));
    AnyError("custom", None, Custom(Single([
      Entry("Property path", V(Colorize(White, Text(PathText(keyPath))))),
      Entry(ExpectedLabel(expectedValue.Some?, negated), expectedCell),
      Entry("Received object", V(Colorize(Red, Text(show(received)))))])))
  }

  /** `getPropertyByPath(received, keyPath)`; a path that is not a string is a lookup that throws. */
  function Lookup(received: JsValue, keyPath: JsValue): Result<JsValue> {
    if keyPath.Str? then PropertyAtPath(received, keyPath.s) else Failure("Key path is not a string")
  }

  /** The `received` of a type mismatch: `"null"` or the `typeof` of the value. */
  function ReceivedTypeName(received: JsValue): string {
    if received.Null? then "null" else TypeOf(received)
  }

  /**
   * `match(received, keyPath, expected)`. Only objects are searched; a lookup
   * that throws fails; a value other than `undefined` must be deep-equal to
   * the found property. `shown` is `arguments.length === 3`: it decides only
   * whether the error shows the expected value.
   */
  function Match(received: JsValue, keyPath: JsValue, expected: JsValue, shown: bool, show: PrintJsValue): (r: MatchOutcome)
    ensures !IsObject(received) ==>
      r == ThrewAssertionFailed(TypeMismatchError(["object"], Str(ReceivedTypeName(received))))
    ensures IsObject(received) ==>
      (r.Returned? <==>
         && Lookup(received, keyPath).Success?
         && (expected.Undefined? || IsDeepEqual(Lookup(received, keyPath).value, expected)))
    ensures IsObject(received) && !r.Returned? ==>
      r == ThrewAssertionFailed(FormatError(keyPath, received, if shown then Some(expected) else None, false, show))
    ensures r.Returned? ==>
      && r.result.Record? && r.result.negate.NegateFn?
      && forall args :: r.result.negate.f(args) == FormatError(keyPath, received, if shown then Some(expected) else None, true, show)
    ensures !r.ThrewOther?
  {
    var expectedValue := if shown then Some(expected) else None;
    if !IsObject(received) then
      ThrewAssertionFailed(TypeMismatchError(["object"], Str(ReceivedTypeName(received))))
    else
      match Lookup(received, keyPath)
      case Failure(_) => ThrewAssertionFailed(FormatError(keyPath, received, expectedValue, false, show))
      case Success(found) =>
        if !expected.Undefined? && !IsDeepEqual(found, expected) then
          ThrewAssertionFailed(FormatError(keyPath, received, expectedValue, false, show))
        else
          Returned(Record(NegateFn((args: seq<JsValue>) => FormatError(keyPath, received, expectedValue, true, show))))
  }

  /**
   * The implementation `extend` registers: `match` receives the received
   * value and then the arguments, so `arguments.length === 3` holds exactly
   * when two arguments were passed.
   */
  function Impl(show: PrintJsValue): MatcherImpl {
    MatcherImpl("match(received, keyPath, expected) {", (received: JsValue, args: seq<JsValue>) =>
      Match(received, if |args| > 0 then args[0] else JsValue.Undefined,
            if |args| > 1 then args[1] else JsValue.Undefined, |args| == 2, show))
  }

  /** A key of lower-case letters parses to the single segment it spells. */
  lemma LetterKeyPath(key: string)
    requires key != [] && forall i :: 0 <= i < |key| ==> 'a' <= key[i] <= 'z'
    ensures ParsePath(key) == Success([key])
  {
    assert NoBrackets(key) && '.' !in key;
    DottedPathSegments(key);
    SplitNoSep(key, '.');
    NonEmptyCons(key, []);
    assert [key] + [] == [key];
    assert NonEmpty([]) == [];
  }

  /** A missing property fails the matcher with the "to exist" error, so `not.toHaveProperty` passes. */
  lemma MissingKeyFails(id: nat, ps: seq<Prop>, key: string, show: PrintJsValue)
    requires key != [] && forall i :: 0 <= i < |key| ==> 'a' <= key[i] <= 'z'
    requires key !in PropKeys(ps)
    ensures Match(Obj(id, ps), Str(key), JsValue.Undefined, false, show) ==
      ThrewAssertionFailed(FormatError(Str(key), Obj(id, ps), None, false, show))
    ensures ContentLabels(FormatError(Str(key), Obj(id, ps), None, false, show))
      == ["Property path", "Expected property to exist", "Received object"]
  {
    LetterKeyPath(key);
    LetterSegment(key);
    assert Descend(Obj(id, ps), key, key).Failure?;
    assert Lookup(Obj(id, ps), Str(key)).Failure?;
  }

  /**
   * A present property passes without an expected value; with one it passes
   * exactly when the two are deep-equal, so `not.toHaveProperty("a", 2)` on
   * `{ a: 1 }` passes.
   */
  lemma PresentKeyPasses(id: nat, ps: seq<Prop>, i: nat, expected: JsValue, show: PrintJsValue)
    requires UniqueKeys(ps) && i < |ps|
    requires ps[i].key != [] && forall j :: 0 <= j < |ps[i].key| ==> 'a' <= ps[i].key[j] <= 'z'
    requires !expected.Undefined?
    ensures Match(Obj(id, ps), Str(ps[i].key), JsValue.Undefined, false, show).Returned?
    ensures Match(Obj(id, ps), Str(ps[i].key), expected, true, show).Returned? <==> IsDeepEqual(ps[i].val, expected)
  {
    var key := ps[i].key;
    LetterKeyPath(key);
    LetterKeyStep(Obj(id, ps), key, key, i);
    WalkThen(Obj(id, ps), key, [], key, ps[i].val);
    assert [key] + [] == [key];
    assert Lookup(Obj(id, ps), Str(key)) == Success(ps[i].val);
  }

  /**
   * Passing `undefined` explicitly only checks that the property exists, as
   * omitting it does; but the error then reads "to equal" instead of "to exist".
   */
  lemma ExplicitUndefinedChecksExistence(received: JsValue, keyPath: JsValue, show: PrintJsValue)
    requires IsObject(received)
    ensures Match(received, keyPath, JsValue.Undefined, true, show).Returned?
            <==> Match(received, keyPath, JsValue.Undefined, false, show).Returned?
    ensures ContentLabels(FormatError(keyPath, received, Some(JsValue.Undefined), false, show))[1] == "Expected property to equal"
    ensures ContentLabels(FormatError(keyPath, received, None, false, show))[1] == "Expected property to exist"
  {
  }

  /** A passing match reports, under `not`, the negated label for the same path and object. */
  lemma NegationNamesProperty(received: JsValue, keyPath: JsValue, expected: JsValue, shown: bool, args: seq<JsValue>,
                              show: PrintJsValue)
    requires Match(received, keyPath, expected, shown, show).Returned?
    ensures ContentLabels(ReportedError(Match(received, keyPath, expected, shown, show), args))
      == ["Property path", if shown then "Expected property not to equal" else "Expected property not to exist",
          "Received object"]
  {
    var e := FormatError(keyPath, received, if shown then Some(expected) else None, true, show);
    assert ReportedError(Match(received, keyPath, expected, shown, show), args) == e;
  }

  /**
   * A third argument is not counted as an expected value, yet the second one
   * is still checked: the property must equal it, while the error reads "to
   * exist".
   */
  lemma ExtraArgumentStillCompares(received: JsValue, keyPath: JsValue, expected: JsValue, extra: JsValue,
                                   show: PrintJsValue)
    requires IsObject(received) && !expected.Undefined?
    ensures var r := Impl(show).run(received, [keyPath, expected, extra]);
      && (r.Returned? <==> Lookup(received, keyPath).Success? && IsDeepEqual(Lookup(received, keyPath).value, expected))
      && (!r.Returned? ==> ContentLabels(ReportedError(r, [])) == ["Property path", "Expected property to exist", "Received object"])
  {
  }
}
