/**
 * The formatting values: a tree of strings, lists and coloured values, the
 * `value` template, `join`, colour push-down (`flattenValue`) and `printValue`;
 * plus the groups and messages that formatters produce.
 */
module Values {
  import opened Wrappers
  import JsValues

  /** The colours a colorizer can apply. */
  datatype Color =
    | Reset | Black | Red | Green | Yellow | Blue | Magenta | Cyan | White
    | BrightBlack | BrightRed | BrightGreen | BrightYellow | BrightBlue
    | BrightMagenta | BrightCyan | BrightWhite | DarkGrey

  /** `Value = Value[] | ColoredValue | string` */
  datatype Value = Text(s: string) | Seq(items: seq<Value>) | Colored(inner: Value, color: Color)

  /** A flattened part: a plain string or a string with one colour. */
  datatype Part = Plain(s: string) | Painted(s: string, color: Color)

  /** `createColorizer(color)` applied to a value: the value, untouched, with a colour attached. */
  function Colorize(color: Color, v: Value): (r: Value)
    ensures r.Colored? && r.inner == v && r.color == color
  {
    Colored(v, color)
  }

  /** JavaScript's `values[i]` on substitutions that may be missing. */
  function Substitution(values: seq<Option<Value>>, i: nat): Option<Value> {
    if i < |values| then values[i] else None
  }

  /** The items the `value` template collects from the first `n` strings. */
  function Interleaved(strings: seq<string>, values: seq<Option<Value>>, n: nat): seq<Value>
    requires n <= |strings|
  {
    if n == 0 then []
    else
      Interleaved(strings, values, n - 1) + [Text(strings[n - 1])]
      + (match Substitution(values, n - 1) case Some(v) => [v] case None => [])
  }

  /** The template tag `value`, as its loop. */
  method Template(strings: seq<string>, values: seq<Option<Value>>) returns (r: Value)
    ensures r == Seq(Interleaved(strings, values, |strings|))
  {
    var result: seq<Value> := [];
    for i := 0 to |strings|
      invariant result == Interleaved(strings, values, i)
    {
      result := result + [Text(strings[i])];
      var value := Substitution(values, i);
      if value.Some? {
        result := result + [value.value];
      }
    }
    return Seq(result);
  }

  /**
   * A template literal supplies one substitution fewer than strings. Every
   * substitution present: strings and values alternate, starting and ending
   * with a string.
   */
  lemma {:induction false} InterleavedAlternates(strings: seq<string>, values: seq<Value>, n: nat)
    requires n <= |strings| && |values| + 1 == |strings|
    ensures var r := Interleaved(strings, Somes(values), n);
      && |r| == 2 * n - (if n == |strings| then 1 else 0)
      && (forall i :: 0 <= i < n ==> r[2 * i] == Text(strings[i]))
      && (forall i :: 0 <= i < n && i < |values| ==> r[2 * i + 1] == values[i])
  {
    if n > 0 {
      InterleavedAlternates(strings, values, n - 1);
    }
  }

  function Somes(values: seq<Value>): (r: seq<Option<Value>>)
    ensures |r| == |values| && forall i :: 0 <= i < |values| ==> r[i] == Some(values[i])
  {
    seq(|values|, i requires 0 <= i < |values| => Some(values[i]))
  }

  /** Undefined substitutions are skipped: with none present only the strings remain. */
  lemma {:induction false} InterleavedSkipsMissing(strings: seq<string>, n: nat)
    requires n <= |strings|
    ensures var r := Interleaved(strings, [], n);
      |r| == n && forall i :: 0 <= i < n ==> r[i] == Text(strings[i])
  {
    if n > 0 {
      InterleavedSkipsMissing(strings, n - 1);
    }
  }

  /** `join(values, separator)`: the separator between neighbours and nowhere else. */
  function Join(values: seq<Value>, separator: Value): (r: Value)
    ensures r.Seq?
    ensures |values| >= 1 ==> |r.items| == 2 * |values| - 1
    ensures values == [] ==> r.items == []
    ensures forall i :: 0 <= i < |values| ==> r.items[2 * i] == values[i]
    ensures forall i :: 0 <= i < |values| - 1 ==> r.items[2 * i + 1] == separator
  {
    if values == [] then Seq([])
    else if |values| == 1 then Seq([values[0]])
    else
      var rest := Join(values[..|values| - 1], separator);
      Seq(rest.items + [separator, values[|values| - 1]])
  }

  /** Colour every plain part; parts that already carry a colour keep it. */
  function Paint(parts: seq<Part>, color: Color): (r: seq<Part>)
    ensures |r| == |parts|
    ensures forall i :: 0 <= i < |parts| ==>
      r[i] == (if parts[i].Plain? then Painted(parts[i].s, color) else parts[i])
  {
    seq(|parts|, i requires 0 <= i < |parts| => if parts[i].Plain? then Painted(parts[i].s, color) else parts[i])
  }

  /** `flattenValue`: the string leaves in order, each with its innermost colour. */
  function Flatten(v: Value): seq<Part>
    decreases v, 1
  {
    match v
    case Text(s) => [Plain(s)]
    case Seq(items) => FlattenAll(items)
    case Colored(inner, color) => Paint(Flatten(inner), color)
  }

  function FlattenAll(items: seq<Value>): seq<Part>
    decreases items, 0
  {
    if items == [] then [] else FlattenAll(items[..|items| - 1]) + Flatten(items[|items| - 1])
  }

  /** The text content of a value, ignoring colours: an independent reading of the tree. */
  function PlainText(v: Value): string
    decreases v, 1
  {
    match v
    case Text(s) => s
    case Seq(items) => PlainTextAll(items)
    case Colored(inner, _) => PlainText(inner)
  }

  function PlainTextAll(items: seq<Value>): string
    decreases items, 0
  {
    if items == [] then "" else PlainTextAll(items[..|items| - 1]) + PlainText(items[|items| - 1])
  }

  /** The text of the parts, colours dropped. */
  function PartsText(parts: seq<Part>): string {
    if parts == [] then "" else PartsText(parts[..|parts| - 1]) + parts[|parts| - 1].s
  }

  /** The colorizer `printValue` uses by default: the string itself. */
  function DefaultColorize(s: string, color: Color): string {
    s
  }

  /** The printed parts, each coloured part through `colorize`. */
  function PrintParts(parts: seq<Part>, colorize: (string, Color) -> string): string {
    if parts == [] then ""
    else
      var last := parts[|parts| - 1];
      PrintParts(parts[..|parts| - 1], colorize)
      + (match last case Plain(s) => s case Painted(s, c) => colorize(s, c))
  }

  /** `printValue(value, colorize)` */
  function PrintValue(v: Value, colorize: (string, Color) -> string): string {
    PrintParts(Flatten(v), colorize)
  }

  /** Flattening yields only plain and singly-coloured strings; under a colour, none is plain. */
  lemma {:induction false} ColoredFlattenIsPainted(inner: Value, color: Color)
    ensures forall p :: p in Flatten(Colored(inner, color)) ==> p.Painted?
  {
    var ps := Flatten(inner);
    assert forall i :: 0 <= i < |ps| ==> Paint(ps, color)[i].Painted?;
  }

  /** An outer colour reaches the uncoloured leaves. */
  lemma OuterColorPushedDown(s: string, color: Color)
    ensures Flatten(Colored(Text(s), color)) == [Painted(s, color)]
  {
  }

  /** The innermost colour wins: colouring an already coloured value changes nothing. */
  lemma InnermostColorWins(inner: Value, c1: Color, c2: Color)
    ensures Flatten(Colored(Colored(inner, c1), c2)) == Flatten(Colored(inner, c1))
  {
    ColoredFlattenIsPainted(inner, c1);
    var ps := Flatten(Colored(inner, c1));
    assert forall i :: 0 <= i < |ps| ==> ps[i] in ps;
  }

  lemma {:induction false} PartsTextConcat(a: seq<Part>, b: seq<Part>)
    ensures PartsText(a + b) == PartsText(a) + PartsText(b)
    decreases |b|
  {
    if b == [] {
      assert a + b == a;
    } else {
      assert (a + b)[..|a + b| - 1] == a + b[..|b| - 1];
      PartsTextConcat(a, b[..|b| - 1]);
    }
  }

  lemma {:induction false} PartsTextPaint(parts: seq<Part>, color: Color)
    ensures PartsText(Paint(parts, color)) == PartsText(parts)
    decreases |parts|
  {
    if parts != [] {
      var r := Paint(parts, color);
      assert r[..|r| - 1] == Paint(parts[..|parts| - 1], color);
      PartsTextPaint(parts[..|parts| - 1], color);
    }
  }

  /** Flattening keeps every string, in order: no text is lost or reordered. */
  lemma {:induction false} FlattenKeepsText(v: Value)
    ensures PartsText(Flatten(v)) == PlainText(v)
    decreases v, 1
  {
    match v
    case Text(s) =>
      assert PartsText([Plain(s)]) == PartsText([]) + s;
    case Seq(items) => FlattenAllKeepsText(items);
    case Colored(inner, color) =>
      FlattenKeepsText(inner);
      PartsTextPaint(Flatten(inner), color);
  }

  lemma {:induction false} FlattenAllKeepsText(items: seq<Value>)
    ensures PartsText(FlattenAll(items)) == PlainTextAll(items)
    decreases items, 0
  {
    if items != [] {
      FlattenAllKeepsText(items[..|items| - 1]);
      FlattenKeepsText(items[|items| - 1]);
      PartsTextConcat(FlattenAll(items[..|items| - 1]), Flatten(items[|items| - 1]));
    }
  }

  lemma {:induction false} PrintPartsDefault(parts: seq<Part>)
    ensures PrintParts(parts, DefaultColorize) == PartsText(parts)
    decreases |parts|
  {
    if parts != [] {
      PrintPartsDefault(parts[..|parts| - 1]);
    }
  }

  /** With the default colorizer, printing is the value's text and colours are ignored. */
  lemma PrintDefaultIgnoresColor(v: Value, color: Color)
    ensures PrintValue(v, DefaultColorize) == PlainText(v)
    ensures PrintValue(Colorize(color, v), DefaultColorize) == PrintValue(v, DefaultColorize)
  {
    PrintPartsDefault(Flatten(v));
    FlattenKeepsText(v);
    PrintPartsDefault(Flatten(Colored(v, color)));
    FlattenKeepsText(Colored(v, color));
  }

  lemma {:induction false} PrintPartsConcat(a: seq<Part>, b: seq<Part>, colorize: (string, Color) -> string)
    ensures PrintParts(a + b, colorize) == PrintParts(a, colorize) + PrintParts(b, colorize)
    decreases |b|
  {
    if b == [] {
      assert a + b == a;
    } else {
      assert (a + b)[..|a + b| - 1] == a + b[..|b| - 1];
      PrintPartsConcat(a, b[..|b| - 1], colorize);
    }
  }

  /** Printing a list of values concatenates their printed forms in order. */
  lemma PrintSeqConcatenates(a: Value, b: Value, colorize: (string, Color) -> string)
    ensures PrintValue(Seq([a, b]), colorize) == PrintValue(a, colorize) + PrintValue(b, colorize)
  {
    assert [a, b][..1] == [a] && [a][..0] == [];
    PrintPartsConcat(Flatten(a), Flatten(b), colorize);
    assert FlattenAll([a]) == [] + Flatten(a) == Flatten(a);
    assert Flatten(Seq([a, b])) == FlattenAll([a, b]) == Flatten(a) + Flatten(b);
  }

  /** The text of a concatenation of items is the concatenation of their texts. */
  lemma {:induction false} PlainTextAllConcat(a: seq<Value>, b: seq<Value>)
    ensures PlainTextAll(a + b) == PlainTextAll(a) + PlainTextAll(b)
    decreases |b|
  {
    if b == [] {
      assert a + b == a;
    } else {
      assert (a + b)[..|a + b| - 1] == a + b[..|b| - 1];
      PlainTextAllConcat(a, b[..|b| - 1]);
    }
  }

  /** The text of a join grows by the separator and the last value. */
  lemma JoinTextStep(values: seq<Value>, separator: Value)
    requires |values| >= 2
    ensures PlainText(Join(values, separator)) ==
      PlainText(Join(values[..|values| - 1], separator)) + PlainText(separator) + PlainText(values[|values| - 1])
  {
    var rest := Join(values[..|values| - 1], separator);
    var last := values[|values| - 1];
    PlainTextAllConcat(rest.items, [separator, last]);
    assert [separator, last][..1] == [separator];
    PlainTextOne(separator);
  }

  /** The text of the first `k` items is that of the first `k - 1` and then item `k - 1`. */
  lemma PlainTextAllPrefix(items: seq<Value>, k: nat)
    requires 0 < k <= |items|
    ensures PlainTextAll(items[..k]) == PlainTextAll(items[..k - 1]) + PlainText(items[k - 1])
  {
    assert items[..k][..k - 1] == items[..k - 1];
  }

  lemma PlainTextOne(v: Value)
    ensures PlainTextAll([v]) == PlainText(v)
  {
    assert [v][..0] == [];
  }

  // ----------------------------------------------------------------- messages

  /**
   * What a group entry may hold: a value, a bulleted list, a colour applied
   * to a JavaScript value that is not a formatting value, or one of the falsy
   * placeholders.
   */
  datatype Cell =
    | V(v: Value) | List(items: seq<Value>) | Foreign(raw: JsValues.JsValue, color: Color)
    | Zero | False | Null | Undefined

  /**
   * The formatting value a JavaScript value already is: a string, or an
   * array of such values. Anything else is not one.
   */
  function AsValue(raw: JsValues.JsValue): (r: Option<Value>)
    ensures raw.Str? ==> r == Some(Text(raw.s))
    ensures r.Some? ==> raw.Str? || raw.Arr?
    decreases raw, 1
  {
    match raw
    case Str(s) => Some(Text(s))
    case Arr(_, es) =>
      var items := AsValues(es);
      if items.Some? then Some(Seq(items.value)) else None
    case _ => None
  }

  function AsValues(es: seq<JsValues.JsValue>): (r: Option<seq<Value>>)
    ensures r.Some? <==> forall i :: 0 <= i < |es| ==> AsValue(es[i]).Some?
    ensures r.Some? ==> |r.value| == |es| && forall i :: 0 <= i < |es| ==> r.value[i] == AsValue(es[i]).value
    decreases es, 0
  {
    if es == [] then Some([])
    else
      var head := AsValue(es[0]);
      var rest := AsValues(es[1..]);
      if head.Some? && rest.Some? then Some([head.value] + rest.value) else None
  }

  /**
   * A colorizer applied to any JavaScript value (`red(received)`): a
   * formatting value is coloured as usual; any other value stays foreign.
   */
  function ColorRaw(color: Color, raw: JsValues.JsValue): (r: Cell)
    ensures raw.Str? ==> r == V(Colorize(color, Text(raw.s)))
    ensures AsValue(raw).Some? ==> r == V(Colorize(color, AsValue(raw).value))
    ensures AsValue(raw).None? ==> r == Foreign(raw, color)
  {
    match AsValue(raw)
    case Some(v) => V(Colorize(color, v))
    case None => Foreign(raw, color)
  }

  datatype Entry = Entry(key: string, cell: Cell)

  /** A group: key/value pairs rendered together, in key order. */
  type Group = seq<Entry>

  /** `FormattedMessage = Group[] | Group` */
  datatype Message = Groups(groups: seq<Group>) | Single(group: Group)

  /** `Array.of(message).flat()` */
  function GroupsOf(m: Message): (r: seq<Group>)
    ensures m.Single? ==> r == [m.group]
    ensures m.Groups? ==> r == m.groups
  {
    match m
    case Groups(gs) => gs
    case Single(g) => [g]
  }
}
