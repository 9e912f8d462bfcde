/**
 * The parts of the bundled runtime that are pure: the `assert` dispatch, the
 * environment-variable parsers and stack-trace parsing.
 */
module Embed {
  import opened Wrappers
  import opened Text
  import opened Execution

  // ---------------------------------------------------------------- assert

  /** What `assert` does: nothing, `test.fail`, a thrown `AssertionFailedError`, or `test.abort`. */
  datatype AssertEffect = NoEffect | TestFail(message: string) | ThrowAssertionFailed(message: string) | TestAbort(message: string)

  /** The soft mode `assert` uses when its caller passes none. */
  const DefaultSoftMode := "throw"

  /** `assert(condition, message, soft, softMode = "throw")` */
  function Assert(condition: bool, message: string, soft: bool, softMode: string): (r: AssertEffect)
    ensures r.NoEffect? <==> condition
    ensures !condition && soft && softMode == "fail" ==> r == TestFail(message)
    ensures !condition && soft && softMode != "fail" ==> r == ThrowAssertionFailed(message)
    ensures !condition && !soft ==> r == TestAbort(message)
  {
    if condition then NoEffect
    else if soft then (if softMode == "fail" then TestFail(message) else ThrowAssertionFailed(message))
    else TestAbort(message)
  }

  // ------------------------------------------------------------- envParser

  /** `env`: the variables that are set. */
  type Env = map<string, string>

  function NotSet(key: string): string {
    "Environment variable " + key + " is not set"
  }

  /** `envParser.boolean(key)`: `"false"` in any case is false, any other value true. */
  function EnvBoolean(env: Env, key: string): (r: Result<bool>)
    ensures r.Failure? <==> key !in env
    ensures r.Failure? ==> r.error == NotSet(key)
    ensures r.Success? ==> (r.value <==> ToLower(env[key]) != "false")
  {
    if key !in env then Failure(NotSet(key)) else Success(ToLower(env[key]) != "false")
  }

  /** The boolean ignores case. */
  lemma EnvBooleanIgnoresCase(env: Env, key: string, other: string)
    requires key in env && ToLower(env[key]) == ToLower(other)
    ensures EnvBoolean(env, key) == EnvBoolean(env[key := other], key)
  {
  }

  /** `envParser.enum(key, allowedValues)`: the lowercased value when it is allowed. */
  function EnvEnum(env: Env, key: string, allowed: seq<string>): (r: Result<string>)
    ensures r.Success? <==> key in env && ToLower(env[key]) in allowed
    ensures r.Success? ==> r.value == ToLower(env[key]) && r.value in allowed
    ensures key !in env ==> r == Failure(NotSet(key))
    ensures key in env && ToLower(env[key]) !in allowed ==>
      r == Failure("Invalid value for " + key + ". Must be one of: " + Join(allowed, ", "))
  {
    if key !in env then Failure(NotSet(key))
    else
      var value := ToLower(env[key]);
      if value !in allowed then Failure("Invalid value for " + key + ". Must be one of: " + Join(allowed, ", "))
      else Success(value)
  }

  // --------------------------------------------------------- stack traces

  /** The longest prefix of decimal digits. */
  function LeadingDigits(s: string): (r: string)
    ensures AllDigits(r) && StartsWith(s, r)
    ensures |r| < |s| ==> !IsDigit(s[|r|])
  {
    if s != [] && IsDigit(s[0]) then [s[0]] + LeadingDigits(s[1..]) else ""
  }

  /** `parseInt(s, 10)`: leading whitespace, a sign, then the digits that follow; none is `NaN`. */
  function ParseInt(s: string): Number {
    var t := TrimStart(s);
    var negative := t != [] && t[0] == '-';
    var body := if t != [] && (t[0] == '-' || t[0] == '+') then t[1..] else t;
    var digits := LeadingDigits(body);
    if digits == [] then NaN
    else if negative then Int(0 - DigitsValue(digits))
    else Int(DigitsValue(digits))
  }

  lemma {:induction false} LeadingDigitsAll(s: string)
    requires AllDigits(s)
    ensures LeadingDigits(s) == s
  {
    if s != [] {
      assert AllDigits(s[1..]) by { assert forall i :: 0 <= i < |s| - 1 ==> s[1..][i] == s[i + 1]; }
      LeadingDigitsAll(s[1..]);
    }
  }

  /** `parseInt` reads back what `toString` writes for a non-negative integer. */
  lemma ParseIntOfNatToString(n: nat)
    ensures ParseInt(NatToString(n)) == Int(n)
  {
    var s := NatToString(n);
    DigitsValueOfNatToString(n);
    assert TrimStart(s) == s by {
      assert !IsWs(s[0]);
    }
    assert s[0] != '-' && s[0] != '+';
    assert LeadingDigits(s) == s by {
      LeadingDigitsAll(s);
    }
  }

  /** The parts of a location `path:line:column`. */
  datatype Location = Location(path: string, lineText: string, columnText: string)

  /** The location split at the colons found at `second` and `last`; -1 means no colon was found. */
  function SplitAt(info: string, last: int, second: int): Option<Location>
    requires -1 <= second < |info| && -1 <= last < |info|
  {
    if last == -1 || second == -1 then None
    else Some(Location(info[..second], Slice(info, second + 1, last), info[last + 1..]))
  }

  /** The location split at its last two colons; without two colons there is none. */
  function SplitLocation(info: string): Option<Location> {
    var last := LastIndexOf(info, ':');
    SplitAt(info, last, LastIndexOfFrom(info, ':', last - 1))
  }

  /**
   * A split location gives back the text around its last two colons and the
   * fields hold no colon. The one exception: a location whose only colon is
   * its first character is split there twice (the search before index 0
   * starts at index 0), giving an empty path and line.
   */
  lemma SplitLocationParts(info: string, loc: Location)
    requires SplitLocation(info) == Some(loc)
    ensures ':' !in loc.columnText
    ensures info == loc.path + ":" + loc.lineText + ":" + loc.columnText
      || (info[0] == ':' && ':' !in info[1..] && loc == Location("", "", info[1..]))
  {
    var last := LastIndexOf(info, ':');
    var second := LastIndexOfFrom(info, ':', last - 1);
    assert 0 <= second <= last && loc == Location(info[..second], Slice(info, second + 1, last), info[last + 1..]);
    if second < last {
      ColonParts(info, second, last);
    } else {
      assert second == 0 == last;
    }
  }

  /** A text with colons at `i < j` is the three parts around them. */
  lemma ColonParts(info: string, i: nat, j: nat)
    requires i < j < |info| && info[i] == ':' && info[j] == ':'
    ensures info == info[..i] + ":" + info[i + 1..j] + ":" + info[j + 1..]
  {
    assert info[i..j] == [':'] + info[i + 1..j];
    assert info[j..] == [':'] + info[j + 1..];
    assert info == info[..i] + info[i..j] + info[j..];
  }

  /** A location is split at two colons when no colon follows the first but the second. */
  lemma SplitAtColons(info: string, i: nat, j: nat)
    requires i < j < |info| && info[i] == ':' && info[j] == ':'
    requires ':' !in info[i + 1..j] && ':' !in info[j + 1..]
    ensures SplitLocation(info) == Some(Location(info[..i], info[i + 1..j], info[j + 1..]))
  {
    LastIndexOfIs(info, ':', j);
    LastIndexOfFromIs(info, ':', j - 1, i);
    SplitAtIs(info, j, i);
  }

  lemma SplitAtIs(info: string, j: nat, i: nat)
    requires i < j < |info|
    ensures SplitAt(info, j, i) == Some(Location(info[..i], info[i + 1..j], info[j + 1..]))
  {
  }

  /** A location is split at the two colons that precede colon-free line and column fields. */
  lemma SplitLocationOf(path: string, l: string, c: string)
    requires ':' !in l && ':' !in c
    ensures SplitLocation(path + ":" + l + ":" + c) == Some(Location(path, l, c))
  {
    var info := path + ":" + l + ":" + c;
    var last := |path| + 1 + |l|;
    assert info[..|path|] == path;
    assert info[|path| + 1..last] == l;
    assert info[last + 1..] == c;
    SplitAtColons(info, |path|, last);
  }

  /** A location text as the execution context writes it is split back into its parts. */
  lemma LocationRoundTrip(path: string, line: nat, column: nat)
    ensures SplitLocation(path + ":" + NatToString(line) + ":" + NatToString(column)) ==
      Some(Location(path, NatToString(line), NatToString(column)))
  {
    var l := NatToString(line);
    var c := NatToString(column);
    assert ':' !in l && ':' !in c;
    SplitLocationOf(path, l, c);
  }

  /** `filePath.split("/").pop()`: the text after the last `/`, or the whole path without one. */
  function FileName(path: string): (r: string)
    ensures '/' !in r
    ensures r == path[LastIndexOf(path, '/') + 1..]
    ensures '/' !in path ==> r == path
  {
    SplitLastPart(path, '/');
    Last(Split(path, '/'))
  }

  /** The function name and location text of a trimmed `at ` line, after the `at `. */
  function FrameText(l: string): (string, string) {
    var firstParen := IndexOf(l, '(');
    if StartsWith(l, "file://") then ("<anonymous>", l)
    else if firstParen >= 0 then
      var name := Trim(l[..firstParen]);
      (if name == "" then "<anonymous>" else name, Trim(Slice(l, firstParen + 1, LastIndexOf(l, ')'))))
    else ("<anonymous>", l)
  }

  /** Where the location ends: at its last `(`, or at its end without one. */
  function CutAt(info: string): (r: nat)
    ensures r <= |info|
  {
    var offset := LastIndexOf(info, '(');
    if offset >= 0 then offset else |info|
  }

  /** The location with a trailing `(...)` offset and a `file://` prefix removed. */
  function CleanLocation(info: string): string {
    var cut := info[..CutAt(info)];
    if StartsWith(cut, "file://") then cut[7..] else cut
  }

  /** One line of the trace; `first` says whether it is line 0, which may be the `Error` header. */
  function ParseLine(first: bool, raw: string): (r: Option<StackFrame>)
    ensures first && StartsWith(Trim(raw), "Error") ==> r.None?
    ensures !StartsWith(Trim(raw), "at ") ==> r.None?
  {
    var lineStr := Trim(raw);
    if first && StartsWith(lineStr, "Error") then None
    else if !StartsWith(lineStr, "at ") then None
    else FrameOf(Trim(lineStr[3..]))
  }

  /** The frame of the text after `at `: its name, then the location split at its last two colons. */
  function FrameOf(l: string): Option<StackFrame> {
    var (name, info) := FrameText(l);
    match SplitLocation(CleanLocation(info))
    case None => None
    case Some(loc) =>
      Some(StackFrame(name, loc.path, FileName(loc.path), ParseInt(loc.lineText), ParseInt(loc.columnText)))
  }

  /** A line that trims to an `at ` line, and is not a header, is parsed from its text after `at `. */
  lemma ParseLineUnfold(first: bool, raw: string)
    requires StartsWith(Trim(raw), "at ") && !(first && StartsWith(Trim(raw), "Error"))
    ensures ParseLine(first, raw) == FrameOf(Trim(Trim(raw)[3..]))
  {
  }

  lemma AtLineTrimmed(l: string)
    requires l != [] && !IsWs(l[0]) && !IsWs(l[|l| - 1])
    ensures Trim("at " + l) == "at " + l
  {
    TrimNoOp("at " + l);
  }

  lemma AtLinePrefix(l: string)
    ensures StartsWith("at " + l, "at ") && !StartsWith("at " + l, "Error")
  {
    assert ("at " + l)[..3] == "at ";
    assert ("at " + l)[0] == 'a';
  }

  lemma AtLineRest(l: string)
    requires l != [] && !IsWs(l[0]) && !IsWs(l[|l| - 1])
    ensures Trim(("at " + l)[3..]) == l
  {
    assert ("at " + l)[3..] == l;
    TrimNoOp(l);
  }

  /** A trimmed `at ` line is parsed from the text after `at `, on line 0 as on any other. */
  lemma ParseLineAt(first: bool, l: string)
    requires l != [] && !IsWs(l[0]) && !IsWs(l[|l| - 1])
    ensures ParseLine(first, "at " + l) == FrameOf(l)
  {
    AtLineTrimmed(l);
    AtLinePrefix(l);
    AtLineRest(l);
    ParseLineUnfold(first, "at " + l);
  }

  /** A location text `path:line:column`, cleaned, gives the frame of that path and those numbers. */
  lemma FrameOfLocation(l: string, name: string, info: string, path: string, line: nat, column: nat)
    requires FrameText(l) == (name, info)
    requires CleanLocation(info) == path + ":" + NatToString(line) + ":" + NatToString(column)
    ensures FrameOf(l) == Some(StackFrame(name, path, FileName(path), Int(line), Int(column)))
  {
    LocationRoundTrip(path, line, column);
    ParseIntOfNatToString(line);
    ParseIntOfNatToString(column);
  }

  // ------------------------------------------------------ parsed frames

  /** The bytecode offset in parentheses that may follow a location, as in `a.js:3:7(12)`. */
  function OffsetText(offset: Option<nat>): string {
    if offset.Some? then "(" + NatToString(offset.value) + ")" else ""
  }

  /** The `file://` protocol prefix, when the location carries one. */
  function ProtocolText(protocol: bool): string {
    if protocol then "file://" else ""
  }

  /** A name followed by a space is trimmed back to the name. */
  lemma TrimNameSpace(name: string)
    requires name != [] && !IsWs(name[0]) && !IsWs(name[|name| - 1])
    ensures Trim(name + " ") == name
  {
    var t := name + " ";
    assert TrimStart(t) == t;
    assert t[..|t| - 1] == name;
    assert TrimEnd(t) == TrimEnd(name);
    TrimNoOp(name);
  }

  /** A text starting with a character other than the protocol's first is not `file://`-prefixed. */
  lemma NotProtocolByName(name: string, rest: string)
    requires ':' !in name
    ensures !StartsWith(name + " " + rest, "file://")
  {
    var x := name + " " + rest;
    if |name| > 4 {
      assert x[4] == name[4];
    } else if |x| >= 7 {
      assert x[|name|] == ' ' && "file://"[|name|] != ' ';
    }
  }

  /** A location whose path does not start with `file://` does not either. */
  lemma NotProtocolByPath(path: string, l: string, c: string)
    requires !StartsWith(path, "file://") && l != [] && IsDigit(l[0])
    ensures !StartsWith(path + ":" + l + ":" + c, "file://")
  {
    var x := path + ":" + l + ":" + c;
    if |path| >= 7 {
      assert x[..7] == path[..7];
    } else if |path| != 4 {
      assert x[|path|] == ':' && "file://"[|path|] != ':';
    } else if |x| >= 7 {
      assert x[5] == l[0];
    }
  }

  /**
   * The function-name branch: `name (info)` gives the trimmed name and the
   * text between the first `(` and the last `)`.
   */
  lemma FrameTextNamed(name: string, info: string)
    requires name != [] && !IsWs(name[0]) && !IsWs(name[|name| - 1])
    requires '(' !in name && ':' !in name
    requires info == [] || (!IsWs(info[0]) && !IsWs(info[|info| - 1]))
    ensures FrameText(name + " (" + info + ")") == (name, info)
  {
    var l := name + " (" + info + ")";
    assert l == name + " " + ("(" + info + ")");
    NotProtocolByName(name, "(" + info + ")");
    assert l[|name| + 1] == '(' && l[..|name| + 1] == name + " ";
    IndexOfIs(l, '(', |name| + 1);
    TrimNameSpace(name);
    LastIndexOfIs(l, ')', |l| - 1);
    assert Slice(l, |name| + 2, |l| - 1) == info;
    TrimNoOp(info);
  }

  /** An offset after a location without `(` is where the location is cut. */
  lemma CutAtOffset(cut: string, offset: Option<nat>)
    requires '(' !in cut
    ensures CutAt(cut + OffsetText(offset)) == |cut|
  {
    var info := cut + OffsetText(offset);
    if offset.Some? {
      var t := OffsetText(offset);
      OffsetOpensOnce(offset.value);
      assert info[|cut|] == t[0];
      assert info[|cut| + 1..] == t[1..];
      LastIndexOfIs(info, '(', |cut|);
    } else {
      assert info == cut;
    }
  }

  /** An offset text opens with its only `(`. */
  lemma OffsetOpensOnce(n: nat)
    ensures OffsetText(Some(n))[0] == '('
    ensures '(' !in OffsetText(Some(n))[1..]
  {
    assert OffsetText(Some(n))[1..] == NatToString(n) + ")";
  }

  /**
   * The location is kept up to the last `(`, which drops an offset, and one
   * leading `file://` is removed.
   */
  lemma CleanLocationOf(protocol: bool, loc: string, offset: Option<nat>)
    requires '(' !in loc
    requires protocol || !StartsWith(loc, "file://")
    ensures CleanLocation(ProtocolText(protocol) + loc + OffsetText(offset)) == loc
  {
    var cut := ProtocolText(protocol) + loc;
    var info := cut + OffsetText(offset);
    assert '(' !in cut;
    CutAtOffset(cut, offset);
    assert info[..CutAt(info)] == cut;
    if protocol {
      assert cut[..7] == "file://" && cut[7..] == loc;
    } else {
      assert cut == loc;
    }
  }

  /** `path:line:column` as an execution context writes it. */
  function PlainLocation(path: string, line: nat, column: nat): string {
    path + ":" + NatToString(line) + ":" + NatToString(column)
  }

  /** A location as a frame writes it: an optional `file://`, `path:line:column`, an optional offset. */
  function LocationText(protocol: bool, path: string, line: nat, column: nat, offset: Option<nat>): string {
    ProtocolText(protocol) + PlainLocation(path, line, column) + OffsetText(offset)
  }

  /** A plain location holds no `(` when its path does not, and starts with `file://` only when its path does. */
  lemma PlainLocationFacts(path: string, line: nat, column: nat)
    requires '(' !in path
    ensures '(' !in PlainLocation(path, line, column)
    ensures StartsWith(PlainLocation(path, line, column), "file://") ==> StartsWith(path, "file://")
  {
    var ls, cs := NatToString(line), NatToString(column);
    assert '(' !in ls && '(' !in cs;
    if !StartsWith(path, "file://") {
      NotProtocolByPath(path, ls, cs);
    }
  }

  /** A location text starts where its protocol or path starts, and ends with a digit or the offset's `)`. */
  lemma LocationTextEnds(protocol: bool, path: string, line: nat, column: nat, offset: Option<nat>)
    requires protocol || path == [] || !IsWs(path[0])
    ensures var info := LocationText(protocol, path, line, column, offset);
      info != [] && !IsWs(info[0]) && !IsWs(info[|info| - 1])
  {
    var cs := NatToString(column);
    var info := LocationText(protocol, path, line, column, offset);
    assert info[0] == (if protocol then 'f' else if path != [] then path[0] else ':');
    assert info[|info| - 1] == (if offset.Some? then ')' else cs[|cs| - 1]);
    assert '0' <= cs[|cs| - 1] <= '9';
  }

  /** The location text of a frame, cleaned, is its plain location. */
  lemma CleanLocationText(protocol: bool, path: string, line: nat, column: nat, offset: Option<nat>)
    requires '(' !in path && (protocol || !StartsWith(path, "file://"))
    ensures CleanLocation(LocationText(protocol, path, line, column, offset)) == PlainLocation(path, line, column)
  {
    PlainLocationFacts(path, line, column);
    CleanLocationOf(protocol, PlainLocation(path, line, column), offset);
  }

  /** The text after `at ` of a named frame gives the frame of its name and location. */
  lemma NamedFrameOf(name: string, protocol: bool, path: string, line: nat, column: nat, offset: Option<nat>)
    requires name != [] && !IsWs(name[0]) && !IsWs(name[|name| - 1])
    requires '(' !in name && ':' !in name
    requires '(' !in path && (path == [] || !IsWs(path[0])) && !StartsWith(path, "file://")
    ensures FrameOf(name + " (" + LocationText(protocol, path, line, column, offset) + ")")
      == Some(StackFrame(name, path, FileName(path), Int(line), Int(column)))
  {
    var info := LocationText(protocol, path, line, column, offset);
    LocationTextEnds(protocol, path, line, column, offset);
    FrameTextNamed(name, info);
    CleanLocationText(protocol, path, line, column, offset);
    FrameOfLocation(name + " (" + info + ")", name, info, path, line, column);
  }

  /**
   * A frame `at name (location)` is parsed into the name, the path before the
   * last two colons, the path's last component, and the line and column as
   * numbers. One `file://` prefix and a trailing offset are dropped.
   */
  lemma NamedFrameParsed(first: bool, name: string, protocol: bool, path: string, line: nat, column: nat,
                         offset: Option<nat>)
    requires name != [] && !IsWs(name[0]) && !IsWs(name[|name| - 1])
    requires '(' !in name && ':' !in name
    requires '(' !in path && (path == [] || !IsWs(path[0])) && !StartsWith(path, "file://")
    ensures ParseLine(first, "at " + (name + " (" + LocationText(protocol, path, line, column, offset) + ")"))
      == Some(StackFrame(name, path, FileName(path), Int(line), Int(column)))
  {
    var l := name + " (" + LocationText(protocol, path, line, column, offset) + ")";
    assert l[0] == name[0] && l[|l| - 1] == ')';
    ParseLineAt(first, l);
    NamedFrameOf(name, protocol, path, line, column, offset);
  }

  /** The text after `at ` of a `file://` frame gives an `<anonymous>` frame of its location. */
  lemma ProtocolFrameOf(path: string, line: nat, column: nat, offset: Option<nat>)
    requires '(' !in path
    ensures FrameOf(LocationText(true, path, line, column, offset))
      == Some(StackFrame("<anonymous>", path, FileName(path), Int(line), Int(column)))
  {
    var l := LocationText(true, path, line, column, offset);
    assert l[..7] == "file://";
    assert FrameText(l) == ("<anonymous>", l);
    CleanLocationText(true, path, line, column, offset);
    FrameOfLocation(l, "<anonymous>", l, path, line, column);
  }

  /**
   * A frame `at file://location` has no function name: it is `<anonymous>`,
   * with the location parsed as for a named frame.
   */
  lemma ProtocolFrameParsed(first: bool, path: string, line: nat, column: nat, offset: Option<nat>)
    requires '(' !in path
    ensures ParseLine(first, "at " + LocationText(true, path, line, column, offset))
      == Some(StackFrame("<anonymous>", path, FileName(path), Int(line), Int(column)))
  {
    var l := LocationText(true, path, line, column, offset);
    LocationTextEnds(true, path, line, column, offset);
    ParseLineAt(first, l);
    ProtocolFrameOf(path, line, column, offset);
  }

  /** Each line parsed on its own. */
  function ParsedLines(lines: seq<string>): (r: seq<Option<StackFrame>>)
    ensures |r| == |lines|
  {
    seq(|lines|, i requires 0 <= i < |lines| => ParseLine(i == 0, lines[i]))
  }

  /** The frames that parsed, in line order. */
  function Present(parsed: seq<Option<StackFrame>>): (r: seq<StackFrame>)
    ensures |r| <= |parsed|
  {
    if parsed == [] then []
    else
      var prev := Present(parsed[..|parsed| - 1]);
      match parsed[|parsed| - 1]
      case Some(f) => prev + [f]
      case None => prev
  }

  /** The frames of a trace. */
  function Frames(stack: string): seq<StackFrame> {
    Present(ParsedLines(Split(stack, '\n')))
  }

  /** Every frame comes from a line that parsed, and a trace has no more frames than lines. */
  lemma {:induction false} PresentFromParsed(parsed: seq<Option<StackFrame>>)
    ensures forall f :: f in Present(parsed) ==> exists i :: 0 <= i < |parsed| && parsed[i] == Some(f)
  {
    if parsed != [] {
      var init := parsed[..|parsed| - 1];
      PresentFromParsed(init);
      forall f | f in Present(parsed) ensures exists i :: 0 <= i < |parsed| && parsed[i] == Some(f) {
        if f in Present(init) {
          var i :| 0 <= i < |init| && init[i] == Some(f);
          assert parsed[i] == Some(f);
        } else {
          assert parsed[|parsed| - 1] == Some(f);
        }
      }
    }
  }

  /** A frame of a trace is the parse of one of its lines; line 0 only when it is no `Error` header. */
  lemma FramesFromLines(stack: string, f: StackFrame)
    requires f in Frames(stack)
    ensures exists i :: 0 <= i < |Split(stack, '\n')| && ParseLine(i == 0, Split(stack, '\n')[i]) == Some(f)
  {
    var lines := Split(stack, '\n');
    PresentFromParsed(ParsedLines(lines));
    var i :| 0 <= i < |lines| && ParsedLines(lines)[i] == Some(f);
  }

  /** `parseStackTrace(stack)` */
  method ParseStackTrace(stack: Option<string>) returns (frames: seq<StackFrame>)
    ensures stack.None? || stack.value == "" ==> frames == []
    ensures stack.Some? && stack.value != "" ==> frames == Frames(stack.value)
  {
    if stack.None? || stack.value == "" {
      return [];
    }
    var lines := Split(stack.value, '\n');
    ghost var parsed := ParsedLines(lines);
    frames := [];
    for i := 0 to |lines|
      invariant frames == Present(parsed[..i])
    {
      var frame := ParseLine(i == 0, lines[i]);
      PresentSnoc(parsed, i);
      if frame.Some? {
        frames := frames + [frame.value];
      }
    }
    assert parsed[..|lines|] == parsed;
  }

  /** Extending the parsed prefix by one line adds that line's frame, if any. */
  lemma PresentSnoc(parsed: seq<Option<StackFrame>>, i: nat)
    requires i < |parsed|
    ensures Present(parsed[..i + 1]) ==
      if parsed[i].Some? then Present(parsed[..i]) + [parsed[i].value] else Present(parsed[..i])
  {
    assert parsed[..i + 1][..i] == parsed[..i];
  }
}
