/**
 * `toContainEqual`: an array or a Set holding an element deep-equal to the
 * expected value.
 */
module ToContainEqual {
  import opened Wrappers
  import opened Text
  import opened JsValues
  import opened Values
  import opened Errors
  import opened Extend
  import opened MatcherUtils
  import ToContain

  /** The receivers `toContainEqual` accepts. */
  predicate IsArrayOrSet(v: JsValue) {
    v.Arr? || v.SetV?
  }

  /** `getReceivedType(received)` */
  function ReceivedType(received: JsValue): (r: string)
    requires IsArrayOrSet(received)
    ensures received.Arr? <==> r == "array"
    ensures received.SetV? <==> r == "set"
  {
    if received.Arr? then "array" else "set"
  }

  /** The elements of an array, or of a Set in insertion order. */
  function Elements(received: JsValue): seq<JsValue>
    requires IsArrayOrSet(received)
  {
    if received.Arr? then received.elems else received.members
  }

  /** `items.some((item) => isDeepEqual(item, expected))` */
  function SomeDeepEqual(items: seq<JsValue>, expected: JsValue): (r: bool)
    ensures r <==> exists i :: 0 <= i < |items| && IsDeepEqual(items[i], expected)
  {
    if items == [] then false
    else IsDeepEqual(items[0], expected) || SomeDeepEqual(items[1..], expected)
  }

  /** `toContainEqualError(negated, expected, received)` */
  function ToContainEqualError(negated: bool, expected: JsValue, received: JsValue, show: PrintJsValue): (e: AnyError)
    requires IsArrayOrSet(received)
    ensures e.format == "custom" && e.message.None?
    ensures ContentLabels(e) == [if negated then "Expected not to contain equal" else "Expected to contain equal",
                                 "Received " + ReceivedType(received)]
    ensures e.details.content.group[0].cell == V(Colorize(Green, Text(show(expected))))
    ensures e.details.content.group[1].cell == V(Colorize(Red, Text(show(received))))
  {
    var expectedLabel := if negated then "Expected not to contain equal" else "Expected to contain equal";
    AnyError("custom", None, Custom(Single([
      Entry(expectedLabel, V(Colorize(Green, Text(show(expected))))),
      Entry("Received " + ReceivedType(received), V(Colorize(Red, Text(show(received)))))])))
  }

  /**
   * `match(received, expected)`: a type mismatch for anything but an array or
   * a Set; it passes exactly when some element is deep-equal to `expected`.
   */
  function Match(received: JsValue, expected: JsValue, show: PrintJsValue): (r: MatchOutcome)
    ensures !IsArrayOrSet(received) ==> r == ThrewAssertionFailed(TypeMismatchError(["Array", "Set"], received))
    ensures IsArrayOrSet(received) ==>
      (r.Returned? <==> exists i :: 0 <= i < |Elements(received)| && IsDeepEqual(Elements(received)[i], expected))
    ensures IsArrayOrSet(received) && !r.Returned? ==>
      r == ThrewAssertionFailed(ToContainEqualError(false, expected, received, show))
    ensures r.Returned? ==> r.result == Record(NegateError(ToContainEqualError(true, expected, received, show)))
  {
    if !IsArrayOrSet(received) then ThrewAssertionFailed(TypeMismatchError(["Array", "Set"], received))
    else if !SomeDeepEqual(Elements(received), expected) then
      ThrewAssertionFailed(ToContainEqualError(false, expected, received, show))
    else Returned(Record(NegateError(ToContainEqualError(true, expected, received, show))))
  }

  /** The implementation `extend` registers: the first argument is `expected`. */
  function Impl(show: PrintJsValue): MatcherImpl {
    MatcherImpl("match(received, expected) {", (received: JsValue, args: seq<JsValue>) =>
      Match(received, if |args| > 0 then args[0] else JsValue.Undefined, show))
  }

  /** Whatever `toContain` finds in an array or a Set, `toContainEqual` finds too: identity implies deep equality. */
  lemma ContainImpliesContainEqual(received: JsValue, expected: JsValue, show: PrintJsValue)
    requires IsArrayOrSet(received)
    requires ToContain.Match(received, expected, show).Returned?
    ensures Match(received, expected, show).Returned?
  {
    var items := Elements(received);
    var i :| 0 <= i < |items| && Identical(items[i], expected);
    IdenticalIsDeepEqual(items[i], expected);
  }

  /** A copy with a new identity is not contained, but is contained equal. */
  lemma CopyIsContainedEqual(id: nat, es: seq<JsValue>, i: nat, copyId: nat, show: PrintJsValue)
    requires i < |es| && es[i].Arr?
    requires forall k :: 0 <= k < |es| ==> !(es[k].Arr? && es[k].id == copyId)
    ensures ToContain.Match(Arr(id, es), Arr(copyId, es[i].elems), show).ThrewAssertionFailed?
    ensures Match(Arr(id, es), Arr(copyId, es[i].elems), show).Returned?
  {
    var copy := Arr(copyId, es[i].elems);
    assert !ToContain.HasIdentical(es, copy) by {
      forall k | 0 <= k < |es| ensures !Identical(es[k], copy) {
      }
    }
    assert es[i] == Arr(es[i].id, es[i].elems);
    SameElementsDeepEqual(es[i].id, copyId, es[i].elems);
    assert IsDeepEqual(Elements(Arr(id, es))[i], copy);
  }

  /** Two arrays with the same elements are deep-equal, whatever their identities. */
  lemma SameElementsDeepEqual(id1: nat, id2: nat, es: seq<JsValue>)
    ensures IsDeepEqual(Arr(id1, es), Arr(id2, es))
  {
    forall i | 0 <= i < |es|
      ensures NatToString(i) in Keys(Arr(id2, es)) && IsDeepEqual(es[i], Get(Arr(id2, es), NatToString(i)))
    {
      assert Keys(Arr(id2, es))[i] == NatToString(i);
      KeyIndexOfIndexKey(i);
      IdenticalReflexive(es[i]);
      IdenticalIsDeepEqual(es[i], es[i]);
    }
  }
}
