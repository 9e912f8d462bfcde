/**
 * `toContain`: a substring of a string, or an element of an array or a Set,
 * both by `===` identity.
 */
module ToContain {
  import opened Wrappers
  import opened Text
  import opened JsValues
  import opened Values
  import opened Errors
  import opened Extend

  /** The receivers `toContain` accepts: strings, arrays and Sets. */
  predicate IsCollectionLike(v: JsValue) {
    v.Str? || v.Arr? || v.SetV?
  }

  /** `getReceivedType(received)` */
  function ReceivedType(received: JsValue): (r: string)
    requires IsCollectionLike(received)
    ensures received.Str? <==> r == "string"
    ensures received.Arr? <==> r == "array"
    ensures received.SetV? <==> r == "set"
  {
    if received.Str? then "string" else if received.Arr? then "array" else "set"
  }

  /** `includes` on an array and `has` on a Set: some element is `===` the item. */
  predicate HasIdentical(items: seq<JsValue>, x: JsValue) {
    exists i :: 0 <= i < |items| && Identical(items[i], x)
  }

  /** `contains(received, expected)` */
  predicate Contains(received: JsValue, expected: JsValue) {
    match received
    case Str(s) => expected.Str? && Includes(s, expected.s)
    case Arr(_, es) => HasIdentical(es, expected)
    case SetV(_, ms) => HasIdentical(ms, expected)
    case _ => false
  }

  /** `toContainError(negated, expected, received)`: the expected item in green, the receiver in red. */
  function ToContainError(negated: bool, expected: JsValue, received: JsValue, show: PrintJsValue): (e: AnyError)
    requires IsCollectionLike(received)
    ensures e.format == "custom" && e.message.None?
    ensures ContentLabels(e) == [if negated then "Expected not to contain" else "Expected to contain", "Received " + ReceivedType(received)]
    ensures e.details.content.group[0].cell == V(Colorize(Green, Text(show(expected))))
    ensures e.details.content.group[1].cell == V(Colorize(Red, Text(show(received))))
  {
    var expectedLabel := if negated then "Expected not to contain" else "Expected to contain";
    AnyError("custom", None, Custom(Single([
      Entry(expectedLabel, V(Colorize(Green, Text(show(expected))))),
      Entry("Received " + ReceivedType(received), V(Colorize(Red, Text(show(received)))))])))
  }

  /**
   * `match(received, expected)`: a type mismatch for any other receiver; a
   * thrown failure when the item is not contained; otherwise a result whose
   * negation is the same error with the negated label.
   */
  function Match(received: JsValue, expected: JsValue, show: PrintJsValue): (r: MatchOutcome)
    ensures !IsCollectionLike(received) ==>
      r == ThrewAssertionFailed(TypeMismatchError(["Set", "Array", "string"], received))
    ensures IsCollectionLike(received) ==> (r.Returned? <==> Contains(received, expected))
    ensures IsCollectionLike(received) && !Contains(received, expected) ==>
      r == ThrewAssertionFailed(ToContainError(false, expected, received, show))
    ensures r.Returned? ==> r.result == Record(NegateError(ToContainError(true, expected, received, show)))
  {
    if !IsCollectionLike(received) then ThrewAssertionFailed(TypeMismatchError(["Set", "Array", "string"], received))
    else if !Contains(received, expected) then ThrewAssertionFailed(ToContainError(false, expected, received, show))
    else Returned(Record(NegateError(ToContainError(true, expected, received, show))))
  }

  /** The implementation `extend` registers: the first argument is `expected`. */
  function Impl(show: PrintJsValue): MatcherImpl {
    MatcherImpl("match(received, expected) {", (received: JsValue, args: seq<JsValue>) =>
      Match(received, if |args| > 0 then args[0] else JsValue.Undefined, show))
  }

  /** A string contains only strings: a number is not found even in the string of its own digits. */
  lemma StringContainsOnlyStrings(n: int, show: PrintJsValue)
    ensures Match(Str(IntToString(n)), Num(n), show) == ThrewAssertionFailed(ToContainError(false, Num(n), Str(IntToString(n)), show))
  {
  }

  /** An array is searched by identity: a distinct object never matches, whatever its contents. */
  lemma ArraySearchByIdentity(id: nat, es: seq<JsValue>, item: JsValue, show: PrintJsValue)
    requires item.Obj? && forall i :: 0 <= i < |es| ==> !(es[i].Obj? && es[i].id == item.id)
    ensures Match(Arr(id, es), item, show).ThrewAssertionFailed?
  {
  }

  /** An element that is present makes the matcher pass, and its negation names the array. */
  lemma PresentElementPasses(id: nat, es: seq<JsValue>, i: nat, show: PrintJsValue)
    requires i < |es|
    ensures Match(Arr(id, es), es[i], show).Returned?
    ensures ContentLabels(ReportedError(Match(Arr(id, es), es[i], show), [])) == ["Expected not to contain", "Received array"]
  {
    IdenticalReflexive(es[i]);
    var e := ToContainError(true, es[i], Arr(id, es), show);
    assert GetNegationFunction(Record(NegateError(e)))([]) == e;
    assert ReportedError(Match(Arr(id, es), es[i], show), []) == e;
    assert "Received " + ReceivedType(Arr(id, es)) == "Received array";
  }
}
