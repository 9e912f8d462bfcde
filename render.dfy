/**
 * The line-based error renderers: the registry of per-matcher renderers and
 * its configuration, the error line, the ordered lines of a report, and the
 * `pretty` and `inline` display formats.
 */
module Render {
  import opened Wrappers
  import opened Text
  import opened Execution
  import Logfmt

  datatype RenderConfig = RenderConfig(colorize: bool, display: string)

  /** The keys a `configure` call supplies; an absent key is `None`. */
  datatype ConfigPatch = ConfigPatch(colorize: Option<bool>, display: Option<string>)

  /** One report line: a label, its (already coloured) value, its group, and whether it is printed raw. */
  datatype Line = Line(key: string, value: string, group: int, raw: bool)

  /** `MatcherErrorInfo`: what a failed matcher reports. */
  datatype MatcherErrorInfo = MatcherErrorInfo(
    matcherName: string, customMessage: Option<string>,
    at: string, fileName: string, lineNumber: Number,
    expected: string, received: string, timeout: Option<int>)

  /**
   * The renderer kinds: the fallback `DefaultMatcherErrorRenderer`, the two
   * base classes with the matcher name their subclass gives, and the
   * boolean-state renderers of the retrying matchers.
   */
  datatype Renderer =
    | DefaultRenderer
    | ReceivedOnly(name: string)
    | ExpectedReceived(name: string)
    | BooleanState(state: string, oppositeState: string)

  /** The colorizer of `colors.ts`, applied by colour name. */
  type Paint = (string, string) -> string

  /** `maybeColorize`: the colorizer when colourising is on, otherwise the text itself. */
  function MaybeColorize(config: RenderConfig, paint: Paint, text: string, color: string): (r: string)
    ensures !config.colorize ==> r == text
    ensures config.colorize ==> r == paint(text, color)
  {
    if config.colorize then paint(text, color) else text
  }

  function UpperChar(c: char): char {
    if 'a' <= c <= 'z' then (c as int - 32) as char else c
  }

  /** `${s[0].toUpperCase()}${s.slice(1)}` */
  function Capitalize(s: string): (r: string)
    ensures |r| == |s|
    ensures s != [] ==> r[0] == UpperChar(s[0]) && r[1..] == s[1..]
  {
    if s == [] then "" else [UpperChar(s[0])] + s[1..]
  }

  /** `getMatcherName()` */
  function MatcherName(r: Renderer): string
    requires !r.DefaultRenderer?
  {
    match r
    case ReceivedOnly(name) => name
    case ExpectedReceived(name) => name
    case BooleanState(state, _) => "toBe" + Capitalize(state)
  }

  /** `getReceivedPlaceholder()`: `locator` for the boolean-state renderers, `received` otherwise. */
  function ReceivedPlaceholder(r: Renderer): string {
    if r.BooleanState? then "locator" else "received"
  }

  /** `renderMatcherArgs(maybeColorize)` */
  function MatcherArgs(r: Renderer, config: RenderConfig, paint: Paint): string {
    if r.ExpectedReceived? then
      MaybeColorize(config, paint, "(", "darkGrey") + MaybeColorize(config, paint, "expected", "green")
      + MaybeColorize(config, paint, ")", "darkGrey")
    else MaybeColorize(config, paint, "()", "darkGrey")
  }

  /** `renderErrorLine(info, config)` */
  function RenderErrorLine(r: Renderer, info: MatcherErrorInfo, config: RenderConfig, paint: Paint): string {
    if r.DefaultRenderer? then
      MaybeColorize(config, paint, "expect(", "darkGrey") + MaybeColorize(config, paint, "received", "red")
      + MaybeColorize(config, paint, ").", "darkGrey") + MaybeColorize(config, paint, info.matcherName, "white")
      + MaybeColorize(config, paint, "(", "darkGrey") + MaybeColorize(config, paint, "expected", "green")
      + MaybeColorize(config, paint, ")", "darkGrey")
    else if info.customMessage.Some? then MaybeColorize(config, paint, info.customMessage.value, "white")
    else
      MaybeColorize(config, paint, "expect(", "darkGrey") + MaybeColorize(config, paint, ReceivedPlaceholder(r), "red")
      + MaybeColorize(config, paint, ").", "darkGrey") + MaybeColorize(config, paint, MatcherName(r), "white")
      + MatcherArgs(r, config, paint)
  }

  /** A string custom message replaces the whole error line (the fallback renderer has none). */
  lemma CustomMessageReplacesLine(r: Renderer, info: MatcherErrorInfo, paint: Paint)
    requires !r.DefaultRenderer? && info.customMessage.Some?
    ensures RenderErrorLine(r, info, RenderConfig(false, "pretty"), paint) == info.customMessage.value
  {
  }

  /** Uncoloured, the error line reads as the call it reports. */
  lemma PlainErrorLine(r: Renderer, info: MatcherErrorInfo, display: string, paint: Paint)
    requires info.customMessage.None?
    ensures RenderErrorLine(r, info, RenderConfig(false, display), paint) ==
      "expect(" + ReceivedPlaceholder(r) + ")."
      + (if r.DefaultRenderer? then info.matcherName else MatcherName(r))
      + (if r.DefaultRenderer? || r.ExpectedReceived? then "(expected)" else "()")
  {
    var c := RenderConfig(false, display);
    if r.DefaultRenderer? {
      assert "(" + "expected" + ")" == "(expected)";
    } else if r.ExpectedReceived? {
      assert MatcherArgs(r, c, paint) == "(" + "expected" + ")" == "(expected)";
    } else {
      assert MatcherArgs(r, c, paint) == "()";
    }
  }

  /** `getSpecificLines(info, maybeColorize)` of the renderers built on the base class. */
  function SpecificLines(r: Renderer, info: MatcherErrorInfo, config: RenderConfig, paint: Paint): seq<Line>
    requires !r.DefaultRenderer?
  {
    match r
    case ReceivedOnly(_) => [Line("Received", MaybeColorize(config, paint, info.received, "red"), 2, false)]
    case ExpectedReceived(_) =>
      [Line("Expected", MaybeColorize(config, paint, info.expected, "green"), 2, false),
       Line("Received", MaybeColorize(config, paint, info.received, "red"), 2, false)]
    case BooleanState(state, opposite) =>
      var timeout := if info.timeout.Some? then IntToString(info.timeout.value) else "undefined";
      [Line("Expected", state, 3, false), Line("Received", opposite, 3, false), Line("Call log", "", 3, false),
       Line("", MaybeColorize(config, paint, "  - expect.toBe" + Capitalize(state) + " with timeout " + timeout + "ms", "darkGrey"), 3, true),
       Line("", MaybeColorize(config, paint, "  - waiting for locator", "darkGrey"), 3, true)]
  }

  /** `info.executionContext.at || "unknown location"` */
  function AtText(info: MatcherErrorInfo): string {
    if info.at == "" then "unknown location" else info.at
  }

  /**
   * The lines `render` hands to the display format: `Error` and `At` in
   * group 1, the matcher's own lines, then `Filename` and `Line` (group 99,
   * or group 3 in the fallback renderer).
   */
  function ReportLines(r: Renderer, info: MatcherErrorInfo, config: RenderConfig, paint: Paint): (lines: seq<Line>)
    ensures |lines| >= 4
    ensures lines[0] == Line("Error", RenderErrorLine(r, info, config, paint), 1, false)
    ensures lines[1] == Line("At", MaybeColorize(config, paint, AtText(info), "darkGrey"), 1, false)
    ensures var n := |lines|; var g := if r.DefaultRenderer? then 3 else 99;
      && lines[n - 2] == Line("Filename", MaybeColorize(config, paint, info.fileName, "darkGrey"), g, false)
      && lines[n - 1] == Line("Line", MaybeColorize(config, paint, NumberText(info.lineNumber), "darkGrey"), g, false)
    ensures !r.DefaultRenderer? ==> lines[2..|lines| - 2] == SpecificLines(r, info, config, paint)
  {
    var head := [Line("Error", RenderErrorLine(r, info, config, paint), 1, false),
                 Line("At", MaybeColorize(config, paint, AtText(info), "darkGrey"), 1, false)];
    if r.DefaultRenderer? then
      head + [Line("Expected", MaybeColorize(config, paint, info.expected, "green"), 2, false),
              Line("Received", MaybeColorize(config, paint, info.received, "red"), 2, false),
              Line("Filename", MaybeColorize(config, paint, info.fileName, "darkGrey"), 3, false),
              Line("Line", MaybeColorize(config, paint, NumberText(info.lineNumber), "darkGrey"), 3, false)]
    else
      head + SpecificLines(r, info, config, paint)
      + [Line("Filename", MaybeColorize(config, paint, info.fileName, "darkGrey"), 99, false),
         Line("Line", MaybeColorize(config, paint, NumberText(info.lineNumber), "darkGrey"), 99, false)]
  }

  // ------------------------------------------------------- display formats

  datatype DisplayFormat = PrettyFormat | InlineFormat

  /** `DisplayFormatRegistry.getFormatter(format)` */
  function GetFormatter(format: string): (r: Result<DisplayFormat>)
    ensures r.Success? <==> format == "pretty" || format == "inline"
    ensures format == "pretty" ==> r == Success(PrettyFormat)
    ensures format == "inline" ==> r == Success(InlineFormat)
    ensures r.Failure? ==> r.error == "Unknown display format: " + format
  {
    if format == "pretty" then Success(PrettyFormat)
    else if format == "inline" then Success(InlineFormat)
    else Failure("Unknown display format: " + format)
  }

  /** The widest `label:` among the lines that are not raw (0 when all are raw). */
  function LabelWidth(lines: seq<Line>): (w: nat)
    ensures forall i :: 0 <= i < |lines| && !lines[i].raw ==> |lines[i].key| + 1 <= w
    ensures (exists i :: 0 <= i < |lines| && !lines[i].raw) ==>
      exists i :: 0 <= i < |lines| && !lines[i].raw && |lines[i].key| + 1 == w
    ensures (forall i :: 0 <= i < |lines| ==> lines[i].raw) ==> w == 0
  {
    if lines == [] then 0
    else
      var rest := LabelWidth(lines[1..]);
      assert forall i :: 1 <= i < |lines| ==> lines[i] == lines[1..][i - 1];
      if !lines[0].raw && |lines[0].key| + 1 >= rest then |lines[0].key| + 1
      else
        assert rest > 0 || forall i :: 0 <= i < |lines| ==> lines[i].raw;
        rest
  }

  /** One line as printed: raw text, or the label right-aligned to `width` followed by the value. */
  function PrettyLine(line: Line, width: nat): string
    requires line.raw || |line.key| + 1 <= width
  {
    if line.raw then line.value
    else Spaces(width - (|line.key| + 1)) + line.key + ":" + " " + line.value
  }

  predicate LabelsFit(lines: seq<Line>, width: nat) {
    forall k :: 0 <= k < |lines| ==> lines[k].raw || |lines[k].key| + 1 <= width
  }

  /** Line `k` as printed; a group change after it adds a newline, which makes a blank line once joined. */
  function LineAt(lines: seq<Line>, width: nat, k: nat): string
    requires k < |lines| && LabelsFit(lines, width)
  {
    PrettyLine(lines[k], width) + (if k + 1 < |lines| && lines[k].group != lines[k + 1].group then "\n" else "")
  }

  function PrettyLines(lines: seq<Line>, width: nat): (r: seq<string>)
    requires LabelsFit(lines, width)
    ensures |r| == |lines| && forall k :: 0 <= k < |lines| ==> r[k] == LineAt(lines, width, k)
  {
    seq(|lines|, k requires 0 <= k < |lines| => LineAt(lines, width, k))
  }

  /** `PrettyFormatRenderer.renderLines(lines)` */
  function PrettyRender(lines: seq<Line>): (r: string)
    ensures |r| >= 4 && r[..2] == "\n\n" && r[|r| - 2..] == "\n\n"
  {
    var width := LabelWidth(lines);
    "\n\n" + Join(PrettyLines(lines, width), "\n") + "\n\n"
  }

  /** Every label line is exactly as wide as the widest label, ending in `label:`. */
  lemma LabelsRightAligned(line: Line, width: nat)
    requires !line.raw && |line.key| + 1 <= width
    ensures var s := PrettyLine(line, width);
      |s| >= width && s[width - (|line.key| + 1)..width] == line.key + ":" && s[width..width + 1] == " "
      && forall k :: 0 <= k < width - (|line.key| + 1) ==> s[k] == ' '
  {
  }

  /** `InlineFormatRenderer.renderLines(lines)`: `label=value` pairs joined by spaces. */
  function InlineRender(lines: seq<Line>): string {
    Join(InlinePairs(lines), " ")
  }

  function InlineValue(value: string): string {
    if Includes(value, " ") then "\"" + value + "\"" else value
  }

  function InlinePairs(lines: seq<Line>): (r: seq<string>)
    ensures |r| == |lines|
    ensures forall i :: 0 <= i < |lines| ==>
      r[i] == Logfmt.EscapedLabel(lines[i].key) + "=" + InlineValue(lines[i].value)
  {
    if lines == [] then []
    else [Logfmt.EscapedLabel(lines[0].key) + "=" + InlineValue(lines[0].value)] + InlinePairs(lines[1..])
  }

  /** `render(info, config)`: the report lines in the configured display format. */
  function RenderReport(r: Renderer, info: MatcherErrorInfo, config: RenderConfig, paint: Paint): (s: Result<string>)
    ensures s.Success? <==> config.display == "pretty" || config.display == "inline"
    ensures config.display == "pretty" ==> s == Success(PrettyRender(ReportLines(r, info, config, paint)))
    ensures config.display == "inline" ==> s == Success(InlineRender(ReportLines(r, info, config, paint)))
  {
    var format :- GetFormatter(config.display);
    var lines := ReportLines(r, info, config, paint);
    Success(if format.PrettyFormat? then PrettyRender(lines) else InlineRender(lines))
  }

  // -------------------------------------------------------------- registry

  /** The shallow spread `{ ...config, ...patch }`. */
  function Merge(config: RenderConfig, patch: ConfigPatch): (r: RenderConfig)
    ensures r.colorize == patch.colorize.GetOr(config.colorize)
    ensures r.display == patch.display.GetOr(config.display)
  {
    RenderConfig(patch.colorize.GetOr(config.colorize), patch.display.GetOr(config.display))
  }

  /** `MatcherErrorRendererRegistry`: its static `renderers` map and `config`. */
  class MatcherErrorRendererRegistry {
    var renderers: map<string, Renderer>
    var config: RenderConfig

    /** Nothing registered; colourised `pretty` output. */
    constructor()
      ensures renderers == map[] && config == RenderConfig(true, "pretty")
    {
      renderers := map[];
      config := RenderConfig(true, "pretty");
    }

    method Register(matcherName: string, renderer: Renderer)
      modifies this
      ensures renderers == old(renderers)[matcherName := renderer] && config == old(config)
    {
      renderers := renderers[matcherName := renderer];
    }

    /** `getRenderer(name)`: the registered renderer, or a fresh default one. */
    function GetRenderer(matcherName: string): (r: Renderer)
      reads this
      ensures matcherName in renderers ==> r == renderers[matcherName]
      ensures matcherName !in renderers ==> r == DefaultRenderer
    {
      if matcherName in renderers then renderers[matcherName] else DefaultRenderer
    }

    /** `configure(config)`: supplied keys replace, the others keep their values. */
    method Configure(patch: ConfigPatch)
      modifies this
      ensures config == Merge(old(config), patch) && renderers == old(renderers)
    {
      config := Merge(config, patch);
    }
  }

  /** Configuring twice with disjoint keys keeps both, and the registered renderer is found again. */
  method ConfigureKeepsEarlierKeys(name: string, renderer: Renderer) returns (c: RenderConfig, found: Renderer, other: Renderer)
    ensures c == RenderConfig(false, "inline")
    ensures found == renderer
    ensures name != "unregistered" ==> other == DefaultRenderer
  {
    var registry := new MatcherErrorRendererRegistry();
    registry.Register(name, renderer);
    registry.Configure(ConfigPatch(Some(false), None));
    registry.Configure(ConfigPatch(None, Some("inline")));
    c := registry.config;
    found := registry.GetRenderer(name);
    other := registry.GetRenderer("unregistered");
  }
}
