/** What the printers receive: groups of entries whose falsy values have been removed. */
module PrinterTypes {
  import opened Values
  import JsValues

  /**
   * A value printed inline, a list printed as bullets, or a colour applied to
   * a JavaScript value that is not a formatting value.
   */
  datatype Printable = Inline(v: Value) | Bullets(items: seq<Value>) | InlineForeign(raw: JsValues.JsValue, color: Color)

  datatype NormalEntry = NormalEntry(key: string, printable: Printable)

  /** One group of a `NormalizedMessage`. */
  type NormalGroup = seq<NormalEntry>

  /** The printer `printError` dispatches to. */
  datatype Printer = PrettyPrinter | LogfmtPrinter

  /** Every entry of every group, in order. */
  function Entries(groups: seq<NormalGroup>): (r: seq<NormalEntry>)
    ensures |groups| == 1 ==> r == groups[0]
  {
    if groups == [] then [] else groups[0] + Entries(groups[1..])
  }
}
