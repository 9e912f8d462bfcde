/** `printError`: normalise a formatted message, then hand it to the chosen printer. */
module Printers {
  import opened Wrappers
  import opened Values
  import opened PrinterTypes
  import Pretty
  import Logfmt
  import JsValues
  import Errors

  /** `!value && value !== ""`: the placeholders that are dropped. A string, `""` included, stays. */
  predicate Kept(c: Cell) {
    c.V? || c.List? || c.Foreign?
  }

  function Normal(e: Entry): NormalEntry
    requires Kept(e.cell)
  {
    NormalEntry(e.key, match e.cell
      case V(v) => Inline(v)
      case List(items) => Bullets(items)
      case Foreign(raw, color) => InlineForeign(raw, color))
  }

  /** One group with its falsy entries removed, the rest in order. */
  function KeptEntries(g: Group): (r: NormalGroup)
    ensures |r| <= |g|
  {
    if g == [] then []
    else (if Kept(g[0].cell) then [Normal(g[0])] else []) + KeptEntries(g[1..])
  }

  /** `normalizeMessage(message)` */
  function NormalizeMessage(m: Message): (r: seq<NormalGroup>)
    ensures |r| == |GroupsOf(m)|
    ensures forall i :: 0 <= i < |r| ==> r[i] == KeptEntries(GroupsOf(m)[i])
  {
    NormalizeGroups(GroupsOf(m))
  }

  function NormalizeGroups(gs: seq<Group>): (r: seq<NormalGroup>)
    ensures |r| == |gs| && forall i :: 0 <= i < |gs| ==> r[i] == KeptEntries(gs[i])
  {
    if gs == [] then [] else [KeptEntries(gs[0])] + NormalizeGroups(gs[1..])
  }

  /** A single group becomes a one-group message. */
  lemma SingleGroup(g: Group)
    ensures NormalizeMessage(Single(g)) == [KeptEntries(g)]
  {
  }

  /** Removal keeps order: a group's halves are filtered independently. */
  lemma {:induction false} KeptConcat(a: Group, b: Group)
    ensures KeptEntries(a + b) == KeptEntries(a) + KeptEntries(b)
  {
    if a == [] {
      assert a + b == b;
    } else {
      var head: NormalGroup := if Kept(a[0].cell) then [Normal(a[0])] else [];
      assert (a + b)[1..] == a[1..] + b;
      assert (a + b)[0] == a[0];
      KeptConcat(a[1..], b);
      assert KeptEntries(a + b) == head + KeptEntries(a[1..] + b);
      assert KeptEntries(a) == head + KeptEntries(a[1..]);
    }
  }

  /** A group without falsy entries keeps every key and value. */
  lemma {:induction false} AllKept(g: Group)
    requires forall i :: 0 <= i < |g| ==> Kept(g[i].cell)
    ensures |KeptEntries(g)| == |g|
    ensures forall i :: 0 <= i < |g| ==> KeptEntries(g)[i] == Normal(g[i])
  {
    if g != [] {
      AllKept(g[1..]);
    }
  }

  /** Falsy entries disappear, the empty string does not. */
  lemma DroppedAndKept(key: string, rest: Group)
    ensures KeptEntries([Entry(key, Zero)] + rest) == KeptEntries(rest)
    ensures KeptEntries([Entry(key, False)] + rest) == KeptEntries(rest)
    ensures KeptEntries([Entry(key, Null)] + rest) == KeptEntries(rest)
    ensures KeptEntries([Entry(key, Undefined)] + rest) == KeptEntries(rest)
    ensures KeptEntries([Entry(key, V(Text("")))] + rest) == [NormalEntry(key, Inline(Text("")))] + KeptEntries(rest)
  {
    assert ([Entry(key, Zero)] + rest)[1..] == rest;
    assert ([Entry(key, False)] + rest)[1..] == rest;
    assert ([Entry(key, Null)] + rest)[1..] == rest;
    assert ([Entry(key, Undefined)] + rest)[1..] == rest;
    assert ([Entry(key, V(Text("")))] + rest)[1..] == rest;
  }

  /**
   * `printError({ error, printer, colorize })`. The pretty printer flattens
   * every inline value, and `flattenValue` reads `.value` of a foreign value's
   * contents until it reaches `undefined` or `null`, which throws.
   */
  function PrintError(error: Message, printer: Printer, colorize: (string, Color) -> string): (r: Result<string>)
    ensures printer == PrettyPrinter ==> (r.Failure? <==> Pretty.HasForeign(NormalizeMessage(error)))
    ensures printer == PrettyPrinter && r.Success? ==> r.value == Pretty.Print(NormalizeMessage(error), colorize)
    ensures printer == LogfmtPrinter ==> r == Success(Logfmt.Print(NormalizeMessage(error)))
    ensures r.Failure? ==> r.error == Pretty.ForeignValueError
  {
    match printer
    case PrettyPrinter =>
      var groups := NormalizeMessage(error);
      if Pretty.HasForeign(groups) then Failure(Pretty.ForeignValueError) else Success(Pretty.Print(groups, colorize))
    case LogfmtPrinter => Success(Logfmt.Print(NormalizeMessage(error)))
  }

  /** The type-mismatch report: its one group keeps both entries, in order. */
  lemma MismatchNormalized(types: seq<string>, received: JsValues.JsValue)
    ensures NormalizeMessage(Errors.TypeMismatchFormatter(Errors.TypeMismatchError(types, received)))
      == [[Normal(Errors.TypeMismatchFormatter(Errors.TypeMismatchError(types, received)).group[0]),
           Normal(Errors.TypeMismatchFormatter(Errors.TypeMismatchError(types, received)).group[1])]]
  {
    var m := Errors.TypeMismatchFormatter(Errors.TypeMismatchError(types, received));
    var g := m.group;
    assert Kept(g[1].cell) by {
      if AsValue(received).None? { assert g[1].cell.Foreign?; } else { assert g[1].cell.V?; }
    }
    AllKept(g);
    SingleGroup(g);
    assert m == Single(g);
    assert KeptEntries(g) == [Normal(g[0]), Normal(g[1])];
  }

  /**
   * Under the pretty printer, a type mismatch whose received value is not a
   * formatting value (a number, boolean, `null`, `undefined`, Set or plain
   * object) throws the `TypeError` instead of printing; logfmt writes it as
   * `[object Object]`. A received string, such as the type name
   * `toHaveProperty` passes, prints.
   */
  lemma ForeignReceivedPrinting(types: seq<string>, received: JsValues.JsValue, colorize: (string, Color) -> string)
    ensures AsValue(received).None? ==>
      PrintError(Errors.TypeMismatchFormatter(Errors.TypeMismatchError(types, received)), PrettyPrinter, colorize)
      == Failure(Pretty.ForeignValueError)
    ensures AsValue(received).Some? ==>
      PrintError(Errors.TypeMismatchFormatter(Errors.TypeMismatchError(types, received)), PrettyPrinter, colorize).Success?
    ensures AsValue(received).None? ==>
      Logfmt.EscapedValue(NormalizeMessage(Errors.TypeMismatchFormatter(Errors.TypeMismatchError(types, received)))[0][1].printable)
      == "[object Object]"
  {
    var m := Errors.TypeMismatchFormatter(Errors.TypeMismatchError(types, received));
    var groups := NormalizeMessage(m);
    MismatchNormalized(types, received);
    assert groups == [[Normal(m.group[0]), Normal(m.group[1])]];
    assert Entries(groups) == groups[0] by {
      assert groups[1..] == [];
    }
    assert groups[0][0].printable.Inline?;
    if AsValue(received).None? {
      assert groups[0][1].printable == InlineForeign(received, Red);
      assert groups[0][1] in Entries(groups);
      assert Pretty.HasForeign(groups);
    } else {
      assert groups[0][1].printable.Inline?;
      assert !Pretty.HasForeign(groups);
    }
  }
}
