/**
 * Assertion errors: a format name, an optional message, and the fields that
 * the format's formatter reads; plus the registry of formatters.
 */
module Errors {
  import opened Wrappers
  import opened JsValues
  import opened Values
  import TextUtils = Text

  /** The format-specific fields of the formats the core builds. */
  datatype Details =
    | Custom(content: Message)
    | TypeMismatch(expectedTypes: seq<string>, actual: JsValue)
    | ExpectedReceived(expected: JsValue, received: JsValue)
    | Trace(inner: AnyError, trace: seq<string>)
    | Fields(props: seq<Prop>)

  /** `AnyError`: `{ format, message?, ...fields }`. */
  datatype AnyError = AnyError(format: string, message: Option<string>, details: Details)

  /** The module-level table of formatters, one per error format. */
  class FormatterRegistry {
    var formatters: map<string, AnyError -> Message>

    /** The table starts empty. */
    constructor()
      ensures formatters == map[]
    {
      formatters := map[];
    }

    /** `registerFormatter(type, formatter)`: the last registration for a type wins. */
    method Register(format: string, formatter: AnyError -> Message)
      modifies this
      ensures formatters == old(formatters)[format := formatter]
      ensures forall e: AnyError :: e.format == format ==> FormatError(e) == Success(formatter(e))
      ensures forall e: AnyError :: e.format != format ==> FormatError(e) == old(FormatError(e))
    {
      formatters := formatters[format := formatter];
    }

    /** `formatError(error)`, the thrown error as `Failure`. */
    function FormatError(error: AnyError): (r: Result<Message>)
      reads this
      ensures r.Success? <==> error.format in formatters
      ensures r.Success? ==> r.value == formatters[error.format](error)
      ensures r.Failure? ==> r.error == "No formatter registered for error type: " + error.format
    {
      if error.format in formatters then Success(formatters[error.format](error))
      else Failure("No formatter registered for error type: " + error.format)
    }
  }

  /** With nothing registered, every error is unformattable. */
  method FreshRegistryRefuses(error: AnyError) returns (r: Result<Message>)
    ensures r == Failure("No formatter registered for error type: " + error.format)
  {
    var registry := new FormatterRegistry();
    r := registry.FormatError(error);
  }

  /** A second registration for a type replaces the first, and other types keep theirs. */
  method ReregisterKeepsLast(f: AnyError -> Message, g: AnyError -> Message, h: AnyError -> Message,
                             e: AnyError, other: AnyError)
    returns (r: Result<Message>, s: Result<Message>)
    requires e.format == "custom" && other.format == "trace"
    ensures r == Success(g(e)) && s == Success(h(other))
  {
    var registry := new FormatterRegistry();
    registry.Register("trace", h);
    registry.Register("custom", f);
    registry.Register("custom", g);
    r := registry.FormatError(e);
    s := registry.FormatError(other);
  }

  /** A `type-mismatch` error: the accepted types and what was received. */
  function TypeMismatchError(expectedTypes: seq<string>, received: JsValue): (e: AnyError)
    ensures e.format == "type-mismatch" && e.message.None?
  {
    AnyError("type-mismatch", None, TypeMismatch(expectedTypes, received))
  }

  /** The labels of a `custom` error whose content is one group, in order; none otherwise. */
  function ContentLabels(e: AnyError): (r: seq<string>)
    ensures e.details.Custom? && e.details.content.Single? ==> |r| == |e.details.content.group|
  {
    if e.details.Custom? && e.details.content.Single? then EntryKeys(e.details.content.group) else []
  }

  /**
   * The `custom` formatter: the content the matcher built, handed on as it
   * is. An error of another shape has no content; it formats as no groups.
   */
  function CustomFormatter(e: AnyError): (r: Message)
    ensures e.details.Custom? ==> r == e.details.content
    ensures e.details.Custom? && e.details.content.Single? ==> r.Single? && EntryKeys(r.group) == ContentLabels(e)
    ensures !e.details.Custom? ==> r == Groups([])
  {
    if e.details.Custom? then e.details.content else Groups([])
  }

  /**
   * The `type-mismatch` formatter: one group, the accepted types joined by
   * `" | "` in green under "Expected" and `red(received)` under "Received".
   * `received` is whatever the matcher put there, unprinted: a type name
   * from `toHaveProperty`, the received value itself from the others. An
   * error of another shape formats as no groups.
   */
  function TypeMismatchFormatter(e: AnyError): (r: Message)
    ensures e.details.TypeMismatch? ==>
      r.Single? && EntryKeys(r.group) == ["Expected", "Received"]
      && r.group[0].cell == V(Colorize(Green, Text(TextUtils.Join(e.details.expectedTypes, " | "))))
      && r.group[1].cell == ColorRaw(Red, e.details.actual)
    ensures e.details.TypeMismatch? && e.details.actual.Str? ==>
      r.group[1].cell == V(Colorize(Red, Text(e.details.actual.s)))
    ensures e.details.TypeMismatch? && AsValue(e.details.actual).None? ==>
      r.group[1].cell == Foreign(e.details.actual, Red)
    ensures !e.details.TypeMismatch? ==> r == Groups([])
  {
    match e.details
    case TypeMismatch(types, actual) =>
      Single([Entry("Expected", V(Colorize(Green, Text(TextUtils.Join(types, " | "))))),
              Entry("Received", ColorRaw(Red, actual))])
    case _ => Groups([])
  }

  /** Every accepted type appears in the "Expected" text of a type mismatch. */
  lemma {:induction false} JoinedTypesInclude(types: seq<string>, sep: string, i: nat)
    requires i < |types|
    ensures TextUtils.Includes(TextUtils.Join(types, sep), types[i])
  {
    if |types| == 1 {
      assert TextUtils.OccursAt(TextUtils.Join(types, sep), types[0], 0);
    } else {
      TextUtils.JoinCons(types[0], types[1..], sep);
      assert [types[0]] + types[1..] == types;
      var rest := TextUtils.Join(types[1..], sep);
      if i == 0 {
        assert TextUtils.OccursAt(types[0] + sep + rest, types[0], 0);
      } else {
        JoinedTypesInclude(types[1..], sep, i - 1);
        var k :| 0 <= k <= |rest| - |types[i]| && TextUtils.OccursAt(rest, types[i], k);
        var off := |types[0] + sep|;
        assert (types[0] + sep + rest)[off + k..off + k + |types[i]|] == rest[k..k + |types[i]|];
        assert TextUtils.OccursAt(types[0] + sep + rest, types[i], off + k);
      }
    }
  }

  /**
   * With the `custom` and `type-mismatch` formatters registered, a matcher's
   * type mismatch formats as "Expected" and "Received", naming every accepted
   * type, and a custom error formats as its own content.
   */
  method BuiltinFormatsApply(types: seq<string>, received: JsValue, content: Message)
    returns (mismatch: Result<Message>, custom: Result<Message>)
    ensures mismatch.Success? && mismatch.value.Single? && EntryKeys(mismatch.value.group) == ["Expected", "Received"]
    ensures received.Str? ==> mismatch.value.group[1].cell == V(Colorize(Red, Text(received.s)))
    ensures AsValue(received).None? ==> mismatch.value.group[1].cell == Foreign(received, Red)
    ensures forall i :: 0 <= i < |types| ==>
      mismatch.value.group[0].cell.V? && mismatch.value.group[0].cell.v.Colored?
      && mismatch.value.group[0].cell.v.inner.Text?
      && TextUtils.Includes(mismatch.value.group[0].cell.v.inner.s, types[i])
    ensures custom == Success(content)
  {
    var registry := new FormatterRegistry();
    registry.Register("custom", CustomFormatter);
    registry.Register("type-mismatch", TypeMismatchFormatter);
    mismatch := registry.FormatError(TypeMismatchError(types, received));
    custom := registry.FormatError(AnyError("custom", None, Custom(content)));
    forall i | 0 <= i < |types|
      ensures TextUtils.Includes(TextUtils.Join(types, " | "), types[i])
    {
      JoinedTypesInclude(types, " | ", i);
    }
  }

  function EntryKeys(g: Group): (r: seq<string>)
    ensures |r| == |g|
    ensures forall i :: 0 <= i < |g| ==> r[i] == g[i].key
  {
    if g == [] then [] else [g[0].key] + EntryKeys(g[1..])
  }
}
