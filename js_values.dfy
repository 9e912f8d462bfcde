/**
 * JavaScript values as the matchers see them. Arrays, plain objects and Sets
 * carry an identity tag (`id`): two compound values are `===` exactly when
 * they are the same kind of object with the same tag.
 */
module JsValues {
  import opened Wrappers
  import opened Text

  datatype JsValue =
    | Undefined
    | Null
    | Bool(b: bool)
    | Num(n: int)
    | Str(s: string)
    | Arr(id: nat, elems: seq<JsValue>)
    | Obj(id: nat, props: seq<Prop>)
    | SetV(id: nat, members: seq<JsValue>)

  /** One own enumerable property of a plain object, in insertion order. */
  datatype Prop = Prop(key: string, val: JsValue)

  /** `typeof v` */
  function TypeOf(v: JsValue): string {
    match v
    case Undefined => "undefined"
    case Bool(_) => "boolean"
    case Num(_) => "number"
    case Str(_) => "string"
    case _ => "object"
  }

  /** `typeof v === "object" && v !== null` */
  predicate IsObject(v: JsValue) {
    v.Arr? || v.Obj? || v.SetV?
  }

  /** JavaScript truthiness (`!!v`). */
  predicate Truthy(v: JsValue) {
    match v
    case Undefined => false
    case Null => false
    case Bool(b) => b
    case Num(n) => n != 0
    case Str(s) => s != ""
    case _ => true
  }

  /** `a === b`: primitives by value, objects by identity. */
  predicate Identical(a: JsValue, b: JsValue) {
    match a
    case Arr(i, _) => b.Arr? && b.id == i
    case Obj(i, _) => b.Obj? && b.id == i
    case SetV(i, _) => b.SetV? && b.id == i
    case _ => a == b
  }

  lemma IdenticalReflexive(v: JsValue)
    ensures Identical(v, v)
  {
  }

  /** The array index a property key denotes: a canonical decimal with no leading zero. */
  function KeyIndex(key: string): (r: Option<nat>)
    ensures r.Some? ==> AllDigits(key)
  {
    if key != [] && AllDigits(key) && (key == "0" || key[0] != '0')
    then Some(DigitsValue(key)) else None
  }

  lemma KeyIndexOfIndexKey(i: nat)
    ensures KeyIndex(NatToString(i)) == Some(i)
  {
    DigitsValueOfNatToString(i);
  }

  lemma IndexKeyInjective(i: nat, j: nat)
    requires NatToString(i) == NatToString(j)
    ensures i == j
  {
    KeyIndexOfIndexKey(i);
    KeyIndexOfIndexKey(j);
  }

  function PropKeys(ps: seq<Prop>): (r: seq<string>)
    ensures |r| == |ps| && forall i :: 0 <= i < |ps| ==> r[i] == ps[i].key
  {
    if ps == [] then [] else [ps[0].key] + PropKeys(ps[1..])
  }

  function IndexKeys(n: nat): (r: seq<string>)
    ensures |r| == n && forall i :: 0 <= i < n ==> r[i] == NatToString(i)
  {
    if n == 0 then [] else IndexKeys(n - 1) + [NatToString(n - 1)]
  }

  /** `Object.keys(v)`: own enumerable keys; an array's are its indices, a Set has none. */
  function Keys(v: JsValue): seq<string> {
    match v
    case Obj(_, ps) => PropKeys(ps)
    case Arr(_, es) => IndexKeys(|es|)
    case _ => []
  }

  /** The first property with the given key. */
  function LookupProp(ps: seq<Prop>, key: string): (r: Option<JsValue>)
    ensures r.None? <==> key !in PropKeys(ps)
  {
    if ps == [] then None
    else if ps[0].key == key then Some(ps[0].val)
    else LookupProp(ps[1..], key)
  }

  /** `v[key]` on an object. */
  function Get(v: JsValue, key: string): JsValue {
    match v
    case Obj(_, ps) => LookupProp(ps, key).GetOr(Undefined)
    case Arr(_, es) =>
      if key == "length" then Num(|es|)
      else
        (match KeyIndex(key)
         case Some(i) => if i < |es| then es[i] else Undefined
         case None => Undefined)
    case _ => Undefined
  }

  /** `Object.prototype.hasOwnProperty.call(v, key)` */
  predicate HasOwn(v: JsValue, key: string) {
    match v
    case Obj(_, ps) => key in PropKeys(ps)
    case Arr(_, es) => key == "length" || (KeyIndex(key).Some? && KeyIndex(key).value < |es|)
    case _ => false
  }

  /** No key occurs twice, as in every JavaScript object. */
  predicate UniqueKeys(ps: seq<Prop>) {
    forall i, j :: 0 <= i < j < |ps| ==> ps[i].key != ps[j].key
  }

  lemma LookupPropAt(ps: seq<Prop>, i: nat)
    requires UniqueKeys(ps) && i < |ps|
    ensures LookupProp(ps, ps[i].key) == Some(ps[i].val)
  {
    if i > 0 {
      LookupPropAt(ps[1..], i - 1);
    }
  }

  /** Names on `Object.prototype`, seen by `in` on every object. */
  const ObjectPrototypeNames: seq<string> := [
    "constructor", "hasOwnProperty", "isPrototypeOf", "propertyIsEnumerable",
    "toLocaleString", "toString", "valueOf"]

  /** Names on `Array.prototype`. */
  const ArrayPrototypeNames: seq<string> := [
    "at", "concat", "copyWithin", "entries", "every", "fill", "filter", "find",
    "findIndex", "findLast", "findLastIndex", "flat", "flatMap", "forEach",
    "includes", "indexOf", "join", "keys", "lastIndexOf", "map", "pop", "push",
    "reduce", "reduceRight", "reverse", "shift", "slice", "some", "sort",
    "splice", "toReversed", "toSorted", "toSpliced", "unshift", "values", "with"]

  /** Names on `Set.prototype`. */
  const SetPrototypeNames: seq<string> := [
    "add", "clear", "delete", "entries", "forEach", "has", "keys", "size", "values",
    "union", "intersection", "difference", "symmetricDifference", "isSubsetOf",
    "isSupersetOf", "isDisjointFrom"]

  /** `key in v` for an object: own properties and those of its prototype chain. */
  predicate In(key: string, v: JsValue) {
    match v
    case Obj(_, ps) => key in PropKeys(ps) || key in ObjectPrototypeNames
    case Arr(_, _) => HasOwn(v, key) || key in ArrayPrototypeNames || key in ObjectPrototypeNames
    case SetV(_, _) => key in SetPrototypeNames || key in ObjectPrototypeNames
    case _ => false
  }

  /** `printJsValue`, the JSON-like rendering of a value in error messages, supplied by the caller. */
  type PrintJsValue = JsValue -> string

  /** `String(v)`: primitives as JavaScript spells them, arrays comma-joined, other objects by their tag. */
  function JsString(v: JsValue): string
    decreases v, 1
  {
    match v
    case Undefined => "undefined"
    case Null => "null"
    case Bool(b) => if b then "true" else "false"
    case Num(n) => IntToString(n)
    case Str(s) => s
    case Arr(_, es) => Join(ElementStrings(es), ",")
    case Obj(_, _) => "[object Object]"
    case SetV(_, _) => "[object Set]"
  }

  /** The array elements as `join` writes them: `null` and `undefined` as the empty string. */
  function ElementStrings(es: seq<JsValue>): (r: seq<string>)
    ensures |r| == |es|
    decreases es, 0
  {
    if es == [] then []
    else [if es[0].Undefined? || es[0].Null? then "" else JsString(es[0])] + ElementStrings(es[1..])
  }
}
