/** The `logfmt` printer: `key=value` pairs on one line. */
module Logfmt {
  import opened Text
  import opened Values
  import StringUtils
  import opened PrinterTypes

  /** `${value}` for a value that is not a string: arrays comma-joined, other objects `[object Object]`. */
  function ValueString(v: Value): string
    decreases v, 1
  {
    match v
    case Text(s) => s
    case Seq(items) => Text.Join(ValueStrings(items), ",")
    case Colored(_, _) => "[object Object]"
  }

  function ValueStrings(items: seq<Value>): (r: seq<string>)
    ensures |r| == |items|
    decreases items, 0
  {
    if items == [] then [] else [ValueString(items[0])] + ValueStrings(items[1..])
  }

  /** A string value with a space is quoted; any other value is left as it is. */
  function EscapedValue(p: Printable): string {
    match p
    case Inline(Text(s)) => if Includes(s, " ") then "\"" + s + "\"" else s
    case Inline(v) => ValueString(v)
    case Bullets(_) => "[object Object]"
    case InlineForeign(_, _) => "[object Object]"
  }

  /** `.replace(/\s+/g, "_")`: every run of whitespace becomes one `_`. */
  function UnderscoreRuns(s: string): (r: string)
    ensures forall i :: 0 <= i < |r| ==> !IsWs(r[i])
    ensures |r| <= |s|
    decreases |s|
  {
    if s == [] then ""
    else if IsWs(s[0]) then
      var rest := UnderscoreRuns(TrimStart(s[1..]));
      assert forall i :: 0 < i < |rest| + 1 ==> ("_" + rest)[i] == rest[i - 1];
      "_" + rest
    else
      var rest := UnderscoreRuns(s[1..]);
      assert forall i :: 0 < i < |rest| + 1 ==> ([s[0]] + rest)[i] == rest[i - 1];
      [s[0]] + rest
  }

  /** A string without whitespace needs no replacement. */
  lemma {:induction false} UnderscoreRunsNoWs(s: string)
    requires forall i :: 0 <= i < |s| ==> !IsWs(s[i])
    ensures UnderscoreRuns(s) == s
    decreases |s|
  {
    if s != [] {
      UnderscoreRunsNoWs(s[1..]);
    }
  }

  /**
   * Replacing runs by `_` is the whitespace collapse of `normalizeWhiteSpace`
   * with `_` written for the space: both replace each maximal run by one character.
   */
  lemma {:induction false} UnderscoreRunsIsCollapse(s: string)
    ensures UnderscoreRuns(s) == ReplaceChar(StringUtils.Collapse(s), ' ', '_')
    decreases |s|
  {
    if s != [] {
      var rest := if IsWs(s[0]) then TrimStart(s[1..]) else s[1..];
      var head := if IsWs(s[0]) then ' ' else s[0];
      UnderscoreRunsIsCollapse(rest);
      assert StringUtils.Collapse(s) == [head] + StringUtils.Collapse(rest);
      ReplaceCharConcat([head], StringUtils.Collapse(rest), ' ', '_');
    }
  }

  /** A whitespace run between two words becomes one `_`, and the words are replaced on their own. */
  lemma UnderscoreRunsBetween(a: string, w: string, b: string)
    requires w != [] && AllWs(w)
    requires a == [] || !IsWs(a[|a| - 1])
    requires b == [] || !IsWs(b[0])
    ensures UnderscoreRuns(a + w + b) == UnderscoreRuns(a) + "_" + UnderscoreRuns(b)
  {
    var x, y := StringUtils.Collapse(a), StringUtils.Collapse(b);
    StringUtils.CollapseBetween(a, w, b);
    UnderscoreRunsIsCollapse(a + w + b);
    ReplaceCharConcat(x + " ", y, ' ', '_');
    ReplaceCharConcat(x, " ", ' ', '_');
    assert ReplaceChar(" ", ' ', '_') == "_";
    UnderscoreRunsIsCollapse(a);
    UnderscoreRunsIsCollapse(b);
  }

  /** Text on either side of a seam outside any whitespace run is replaced on its own. */
  lemma UnderscoreRunsConcat(a: string, b: string)
    requires a == [] || b == [] || !IsWs(a[|a| - 1]) || !IsWs(b[0])
    ensures UnderscoreRuns(a + b) == UnderscoreRuns(a) + UnderscoreRuns(b)
  {
    StringUtils.CollapseConcat(a, b);
    UnderscoreRunsIsCollapse(a + b);
    UnderscoreRunsIsCollapse(a);
    UnderscoreRunsIsCollapse(b);
    ReplaceCharConcat(StringUtils.Collapse(a), StringUtils.Collapse(b), ' ', '_');
  }

  /** `key.toLowerCase().replace(/\s+/g, "_")` */
  function EscapedLabel(key: string): (r: string)
    ensures forall i :: 0 <= i < |r| ==> !IsWs(r[i])
  {
    UnderscoreRuns(ToLower(key))
  }

  function Pair(e: NormalEntry): string {
    EscapedLabel(e.key) + "=" + EscapedValue(e.printable)
  }

  function Pairs(entries: seq<NormalEntry>): (r: seq<string>)
    ensures |r| == |entries| && forall i :: 0 <= i < |entries| ==> r[i] == Pair(entries[i])
  {
    if entries == [] then [] else [Pair(entries[0])] + Pairs(entries[1..])
  }

  /** `print(normalizedError)`: every entry of every group, in order, as `key=value`, joined by spaces. */
  function Print(groups: seq<NormalGroup>): string {
    Text.Join(Pairs(Entries(groups)), " ")
  }

  /** n entries give their n pairs and exactly n - 1 separating spaces. */
  lemma PrintLength(groups: seq<NormalGroup>)
    requires Entries(groups) != []
    ensures |Print(groups)| == TotalLength(Pairs(Entries(groups))) + |Entries(groups)| - 1
  {
    JoinLength(Pairs(Entries(groups)), " ");
  }

  /** A key without whitespace or capitals is emitted as it is. */
  lemma PlainLabelKept(key: string)
    requires forall i :: 0 <= i < |key| ==> !IsWs(key[i]) && !('A' <= key[i] <= 'Z')
    ensures EscapedLabel(key) == key
  {
    assert ToLower(key) == key;
    UnderscoreRunsNoWs(key);
  }
}
