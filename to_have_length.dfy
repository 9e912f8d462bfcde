/**
 * `toHaveLength`: a string, or an object with a numeric `length`, has the
 * expected length.
 */
module ToHaveLength {
  import opened Wrappers
  import opened Text
  import opened JsValues
  import opened Values
  import opened Errors
  import opened Extend

  /**
   * `getLength(value)`: a string's length; for an object, its `length` when
   * `"length" in value` and the value is a number; nothing otherwise.
   */
  function GetLength(value: JsValue): (r: Option<int>)
    ensures value.Str? ==> r == Some(|value.s|)
    ensures !value.Str? && !IsObject(value) ==> r.None?
    ensures IsObject(value) ==>
      (r.Some? <==> In("length", value) && Get(value, "length").Num?)
    ensures IsObject(value) && r.Some? ==> r.value == Get(value, "length").n
  {
    if value.Str? then Some(|value.s|)
    else if !IsObject(value) then None
    else if In("length", value) && Get(value, "length").Num? then Some(Get(value, "length").n)
    else None
  }

  /** The error of both outcomes: the expected and the actual length, and the received value. */
  function LengthError(expected: JsValue, actualLength: int, received: JsValue, show: PrintJsValue): (e: AnyError)
    ensures e.format == "custom" && e.message.None?
    ensures ContentLabels(e) == ["Expected length", "Received length", "Received value"]
    ensures e.details.content.group[0].cell == V(Colorize(Green, Text(JsString(expected))))
    ensures e.details.content.group[1].cell == V(Colorize(Red, Text(IntToString(actualLength))))
    ensures e.details.content.group[2].cell == V(Colorize(Red, Text(show(received))))
  {
    AnyError("custom", None, Custom(Single([
      Entry("Expected length", V(Colorize(Green, Text(JsString(expected))))),
      Entry("Received length", V(Colorize(Red, Text(IntToString(actualLength))))),
      Entry("Received value", V(Colorize(Red, Text(show(received)))))])))
  }

  /**
   * `match(received, expected)`: a type mismatch when there is no length; it
   * passes exactly when `expected` is that number (`!==` is strict, so a
   * numeric string never matches).
   */
  function Match(received: JsValue, expected: JsValue, show: PrintJsValue): (r: MatchOutcome)
    ensures GetLength(received).None? ==>
      r == ThrewAssertionFailed(TypeMismatchError(["string", "array", "object"], received))
    ensures GetLength(received).Some? ==> (r.Returned? <==> expected == Num(GetLength(received).value))
    ensures GetLength(received).Some? && !r.Returned? ==>
      r == ThrewAssertionFailed(LengthError(expected, GetLength(received).value, received, show))
    ensures r.Returned? ==>
      r.result == Record(NegateError(LengthError(expected, GetLength(received).value, received, show)))
  {
    match GetLength(received)
    case None => ThrewAssertionFailed(TypeMismatchError(["string", "array", "object"], received))
    case Some(actualLength) =>
      if !Identical(Num(actualLength), expected) then
        ThrewAssertionFailed(LengthError(expected, actualLength, received, show))
      else Returned(Record(NegateError(LengthError(expected, actualLength, received, show))))
  }

  /** The implementation `extend` registers: the first argument is `expected`. */
  function Impl(show: PrintJsValue): MatcherImpl {
    MatcherImpl("match(received, expected) {", (received: JsValue, args: seq<JsValue>) =>
      Match(received, if |args| > 0 then args[0] else JsValue.Undefined, show))
  }

  /** An array's length is its number of elements, through its own `length` property. */
  lemma ArrayLength(id: nat, es: seq<JsValue>, n: int, show: PrintJsValue)
    ensures GetLength(Arr(id, es)) == Some(|es|)
    ensures Match(Arr(id, es), Num(n), show).Returned? <==> n == |es|
  {
    assert HasOwn(Arr(id, es), "length");
  }

  /** A Set has `size`, not `length`: it is a type mismatch whatever is expected. */
  lemma SetHasNoLength(id: nat, ms: seq<JsValue>, expected: JsValue, show: PrintJsValue)
    ensures Match(SetV(id, ms), expected, show)
      == ThrewAssertionFailed(TypeMismatchError(["string", "array", "object"], SetV(id, ms)))
  {
    assert Get(SetV(id, ms), "length") == JsValue.Undefined;
  }

  /** A plain object with a numeric `length` property has that length. */
  lemma ObjectLengthProperty(id: nat, ps: seq<Prop>, i: nat, n: int)
    requires UniqueKeys(ps) && i < |ps| && ps[i] == Prop("length", Num(n))
    ensures GetLength(Obj(id, ps)) == Some(n)
  {
    LookupPropAt(ps, i);
    assert PropKeys(ps)[i] == "length";
  }

  /** Under `not`, a matching length is reported with the same three entries as a failure. */
  lemma NegationSameContent(received: JsValue, expected: JsValue, args: seq<JsValue>, show: PrintJsValue)
    requires Match(received, expected, show).Returned?
    ensures ReportedError(Match(received, expected, show), args)
      == LengthError(expected, GetLength(received).value, received, show)
    ensures ContentLabels(ReportedError(Match(received, expected, show), args))
      == ["Expected length", "Received length", "Received value"]
  {
    var e := LengthError(expected, GetLength(received).value, received, show);
    assert GetNegationFunction(Record(NegateError(e)))(args) == e;
  }
}
