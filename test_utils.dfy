/**
 * The text helpers of the test scripts: `dedent`, which removes the common
 * indentation of a template's lines, and `trimEmptyLines`, which drops the
 * blank lines at both ends of a text.
 */
module TestUtils {
  import opened Text

  /** A line matched by `/^\s*$/`. */
  predicate Blank(line: string) {
    AllWs(line)
  }

  /** The width of a line's leading whitespace: `line.length - line.trimStart().length`. */
  function Indentation(line: string): (n: nat)
    ensures n <= |line| && AllWs(line[..n])
    ensures n < |line| ==> !IsWs(line[n])
    ensures n == |line| <==> Blank(line)
  {
    var t := TrimStart(line);
    assert line[|line| - |t|..] == t;
    |line| - |t|
  }

  /** `lines.reduce((result, line) => Math.max(result, line.length), acc)` */
  function MaxWidth(lines: seq<string>, acc: nat): (r: nat)
    ensures r >= acc
  {
    if lines == [] then acc
    else MaxWidth(lines[1..], if |lines[0]| > acc then |lines[0]| else acc)
  }

  /** Every line fits in the maximum width. */
  lemma {:induction false} MaxWidthBounds(lines: seq<string>, acc: nat, i: nat)
    requires i < |lines|
    ensures |lines[i]| <= MaxWidth(lines, acc)
  {
    if i > 0 {
      MaxWidthBounds(lines[1..], if |lines[0]| > acc then |lines[0]| else acc, i - 1);
    }
  }

  /** The minimum-indentation reduction: blank lines keep the running result. */
  function MinIndent(lines: seq<string>, acc: nat): (r: nat)
    ensures r <= acc
  {
    if lines == [] then acc
    else
      var next := if Blank(lines[0]) then acc
        else if Indentation(lines[0]) < acc then Indentation(lines[0]) else acc;
      MinIndent(lines[1..], next)
  }

  /** No line that is not blank is indented less than the minimum. */
  lemma {:induction false} MinIndentBelow(lines: seq<string>, acc: nat, i: nat)
    requires i < |lines| && !Blank(lines[i])
    ensures MinIndent(lines, acc) <= Indentation(lines[i])
  {
    var next := if Blank(lines[0]) then acc
      else if Indentation(lines[0]) < acc then Indentation(lines[0]) else acc;
    if i > 0 {
      MinIndentBelow(lines[1..], next, i - 1);
    }
  }

  /** The minimum is the starting value or the indentation of a line that is not blank. */
  lemma {:induction false} MinIndentAttained(lines: seq<string>, acc: nat)
    ensures MinIndent(lines, acc) == acc
      || exists i :: 0 <= i < |lines| && !Blank(lines[i]) && MinIndent(lines, acc) == Indentation(lines[i])
  {
    if lines != [] {
      var next := if Blank(lines[0]) then acc
        else if Indentation(lines[0]) < acc then Indentation(lines[0]) else acc;
      MinIndentAttained(lines[1..], next);
      var r := MinIndent(lines, acc);
      if r != next {
        var j :| 0 <= j < |lines[1..]| && !Blank(lines[1..][j]) && r == Indentation(lines[1..][j]);
        assert lines[1..][j] == lines[j + 1];
      }
    }
  }

  /** `line.slice(n)` for a non-negative `n`. */
  function SliceFrom(line: string, n: nat): (r: string)
    ensures r == if n >= |line| then "" else line[n..]
  {
    if n >= |line| then "" else line[n..]
  }

  function SliceAll(lines: seq<string>, n: nat): (r: seq<string>)
    ensures |r| == |lines|
    ensures forall i :: 0 <= i < |lines| ==> r[i] == SliceFrom(lines[i], n)
  {
    if lines == [] then [] else [SliceFrom(lines[0], n)] + SliceAll(lines[1..], n)
  }

  /** The indentation `dedent` removes from every line of the text. */
  function CommonIndent(lines: seq<string>): nat {
    MinIndent(lines, MaxWidth(lines, 0))
  }

  /**
   * `dedent(strings)` applied to the joined template. `lines.unshift()`
   * with no argument adds nothing, so every line is kept, a blank first line
   * included.
   */
  function Dedent(text: string): string {
    var lines := Split(text, '\n');
    Join(SliceAll(lines, CommonIndent(lines)), "\n")
  }

  lemma {:induction false} SliceFromKeepsOut(line: string, n: nat, c: char)
    requires c !in line
    ensures c !in SliceFrom(line, n)
  {
    if n < |line| {
      assert forall k :: 0 <= k < |line[n..]| ==> line[n..][k] == line[n + k];
    }
  }

  /** The lines of the dedented text. */
  lemma {:induction false} DedentLines(text: string)
    ensures Split(Dedent(text), '\n') == SliceAll(Split(text, '\n'), CommonIndent(Split(text, '\n')))
  {
    var lines := Split(text, '\n');
    var out := SliceAll(lines, CommonIndent(lines));
    forall i | 0 <= i < |out|
      ensures '\n' !in out[i]
    {
      SliceFromKeepsOut(lines[i], CommonIndent(lines), '\n');
    }
    SplitJoin(out, '\n');
  }

  /** Cutting no more than a line's indentation, or anything off a blank line, removes only whitespace. */
  lemma {:induction false} SliceRemovesWhitespace(line: string, n: nat)
    requires Blank(line) || n <= Indentation(line)
    ensures |SliceFrom(line, n)| <= |line|
    ensures line == line[..|line| - |SliceFrom(line, n)|] + SliceFrom(line, n)
    ensures AllWs(line[..|line| - |SliceFrom(line, n)|])
  {
    if n < |line| {
      if !Blank(line) {
        assert forall k :: 0 <= k < n ==> line[..n][k] == line[..Indentation(line)][k];
      }
    } else {
      assert line[..|line|] == line;
    }
  }

  /**
   * Every line keeps its place and loses only leading whitespace: the line
   * is what was removed, all whitespace, followed by the new line.
   */
  lemma {:induction false} DedentRemovesOnlyIndentation(text: string, i: nat)
    requires i < |Split(text, '\n')|
    ensures |Split(Dedent(text), '\n')| == |Split(text, '\n')|
    ensures |Split(Dedent(text), '\n')[i]| <= |Split(text, '\n')[i]|
    ensures Split(text, '\n')[i]
      == Split(text, '\n')[i][..|Split(text, '\n')[i]| - |Split(Dedent(text), '\n')[i]|] + Split(Dedent(text), '\n')[i]
    ensures AllWs(Split(text, '\n')[i][..|Split(text, '\n')[i]| - |Split(Dedent(text), '\n')[i]|])
  {
    var lines := Split(text, '\n');
    var n := CommonIndent(lines);
    DedentLines(text);
    if !Blank(lines[i]) {
      MinIndentBelow(lines, MaxWidth(lines, 0), i);
    }
    SliceRemovesWhitespace(lines[i], n);
  }

  /** When some line is not blank, the least indented of them ends up starting with its first non-space character. */
  lemma {:induction false} DedentAlignsLeastIndented(text: string, k: nat)
    requires k < |Split(text, '\n')| && !Blank(Split(text, '\n')[k])
    ensures exists i :: (0 <= i < |Split(Dedent(text), '\n')| && !Blank(Split(Dedent(text), '\n')[i]) &&
      Indentation(Split(Dedent(text), '\n')[i]) == 0)
  {
    var lines := Split(text, '\n');
    var width := MaxWidth(lines, 0);
    var n := CommonIndent(lines);
    assert n < width by {
      MinIndentBelow(lines, width, k);
      MaxWidthBounds(lines, 0, k);
    }
    MinIndentAttained(lines, width);
    var j :| 0 <= j < |lines| && !Blank(lines[j]) && n == Indentation(lines[j]);
    var out := Split(Dedent(text), '\n');
    assert out[j] == SliceFrom(lines[j], n) by {
      DedentLines(text);
    }
    UnindentedLine(lines[j]);
  }

  /** A line that is not blank, cut at its indentation, starts with a character that is not whitespace. */
  lemma {:induction false} UnindentedLine(line: string)
    requires !Blank(line)
    ensures !Blank(SliceFrom(line, Indentation(line))) && Indentation(SliceFrom(line, Indentation(line))) == 0
  {
    var n := Indentation(line);
    var out := SliceFrom(line, n);
    assert out == line[n..];
    assert !IsWs(out[0]);
  }

  /** A text whose lines are all blank dedents to empty lines. */
  lemma {:induction false} DedentAllBlank(text: string)
    requires forall i :: 0 <= i < |Split(text, '\n')| ==> Blank(Split(text, '\n')[i])
    ensures forall i :: 0 <= i < |Split(Dedent(text), '\n')| ==> Split(Dedent(text), '\n')[i] == ""
  {
    DedentLines(text);
    var lines := Split(text, '\n');
    var width := MaxWidth(lines, 0);
    assert CommonIndent(lines) == width by {
      MinIndentOfBlank(lines, width);
    }
    forall i | 0 <= i < |lines|
      ensures |lines[i]| <= width
    {
      MaxWidthBounds(lines, 0, i);
    }
  }

  lemma {:induction false} MinIndentOfBlank(lines: seq<string>, acc: nat)
    requires forall i :: 0 <= i < |lines| ==> Blank(lines[i])
    ensures MinIndent(lines, acc) == acc
  {
    if lines != [] {
      assert forall i :: 0 <= i < |lines[1..]| ==> Blank(lines[1..][i]) by {
        assert forall i :: 0 <= i < |lines[1..]| ==> lines[1..][i] == lines[i + 1];
      }
      MinIndentOfBlank(lines[1..], acc);
    }
  }

  lemma {:induction false} MaxWidthOfEmpty(lines: seq<string>, acc: nat)
    requires forall i :: 0 <= i < |lines| ==> lines[i] == ""
    ensures MaxWidth(lines, acc) == acc
  {
    if lines != [] {
      assert forall i :: 0 <= i < |lines[1..]| ==> lines[1..][i] == lines[i + 1];
      MaxWidthOfEmpty(lines[1..], acc);
    }
  }

  /** A blank first line is kept: it is only stripped like every other line. */
  lemma {:induction false} LeadingBlankLineKept(text: string)
    requires Blank(Split(text, '\n')[0])
    ensures Split(Dedent(text), '\n')[0] == SliceFrom(Split(text, '\n')[0], CommonIndent(Split(text, '\n')))
    ensures Blank(Split(Dedent(text), '\n')[0])
  {
    DedentLines(text);
    var line := Split(text, '\n')[0];
    var n := CommonIndent(Split(text, '\n'));
    if n < |line| {
      assert forall k :: 0 <= k < |line[n..]| ==> line[n..][k] == line[k + n];
    }
  }

  /** `dedent` of a text that has a non-blank, unindented line, or no line over zero width, changes nothing. */
  lemma {:induction false} DedentNoOp(text: string)
    requires CommonIndent(Split(text, '\n')) == 0
    ensures Dedent(text) == text
  {
    var lines := Split(text, '\n');
    assert SliceAll(lines, 0) == lines;
    JoinSplit(text, '\n');
  }

  /** Dedenting twice is dedenting once. */
  lemma {:induction false} DedentIdempotent(text: string)
    ensures Dedent(Dedent(text)) == Dedent(text)
  {
    var lines := Split(text, '\n');
    var out := Split(Dedent(text), '\n');
    if k :| 0 <= k < |lines| && !Blank(lines[k]) {
      DedentAlignsLeastIndented(text, k);
      var j :| 0 <= j < |out| && !Blank(out[j]) && Indentation(out[j]) == 0;
      MinIndentBelow(out, MaxWidth(out, 0), j);
    } else {
      DedentAllBlank(text);
      MaxWidthOfEmpty(out, 0);
    }
    DedentNoOp(Dedent(text));
  }

  // ----------------------------------------------------------- trimEmptyLines

  /** The lines after the leading blank ones. */
  function DropLeading(lines: seq<string>): (r: seq<string>)
    ensures |r| <= |lines| && r == lines[|lines| - |r|..]
    ensures r == [] || !Blank(r[0])
  {
    if lines != [] && Blank(lines[0]) then DropLeading(lines[1..]) else lines
  }

  /** The lines before the trailing blank ones. */
  function DropTrailing(lines: seq<string>): (r: seq<string>)
    ensures |r| <= |lines| && r == lines[..|r|]
    ensures r == [] || !Blank(r[|r| - 1])
  {
    if lines != [] && Blank(lines[|lines| - 1]) then DropTrailing(lines[..|lines| - 1]) else lines
  }

  /** Only blank lines are dropped from the front. */
  lemma {:induction false} DropLeadingOnlyBlank(lines: seq<string>, i: nat)
    requires i < |lines| - |DropLeading(lines)|
    ensures Blank(lines[i])
  {
    if i > 0 {
      DropLeadingOnlyBlank(lines[1..], i - 1);
    }
  }

  /** Only blank lines are dropped from the back. */
  lemma {:induction false} DropTrailingOnlyBlank(lines: seq<string>, i: nat)
    requires |DropTrailing(lines)| <= i < |lines|
    ensures Blank(lines[i])
  {
    if i < |lines| - 1 {
      DropTrailingOnlyBlank(lines[..|lines| - 1], i);
    }
  }

  lemma {:induction false} DropLeadingStep(lines: seq<string>)
    requires lines != [] && Blank(lines[0])
    ensures DropLeading(lines[1..]) == DropLeading(lines)
  {
  }

  lemma {:induction false} DropTrailingStep(lines: seq<string>)
    requires lines != [] && Blank(lines[|lines| - 1])
    ensures DropTrailing(lines[..|lines| - 1]) == DropTrailing(lines)
  {
  }

  /**
   * `trimEmptyLines(text)`: shifts blank lines off the front, then pops
   * blank lines off the back, and joins what is left.
   */
  method TrimEmptyLines(text: string) returns (r: string)
    ensures r == Join(DropTrailing(DropLeading(Split(text, '\n'))), "\n")
  {
    var lines := Split(text, '\n');
    while |lines| > 0 && Blank(lines[0])
      invariant DropLeading(lines) == DropLeading(Split(text, '\n'))
      decreases |lines|
    {
      DropLeadingStep(lines);
      lines := lines[1..];
    }
    while |lines| > 0 && Blank(lines[|lines| - 1])
      invariant DropTrailing(lines) == DropTrailing(DropLeading(Split(text, '\n')))
      decreases |lines|
    {
      DropTrailingStep(lines);
      lines := lines[..|lines| - 1];
    }
    r := Join(lines, "\n");
  }

  /** The lines kept by `trimEmptyLines`. */
  function Trimmed(lines: seq<string>): seq<string> {
    DropTrailing(DropLeading(lines))
  }

  lemma {:induction false} SliceOfSlice<T>(s: seq<T>, a: nat, k: nat)
    requires a + k <= |s|
    ensures s[a..][..k] == s[a..a + k]
  {
  }

  /**
   * The kept lines are one contiguous, in-order run of the input, starting
   * after the `a` leading blank lines: only blank lines lie before and after
   * it, and it is empty or starts and ends with a line that is not blank.
   */
  lemma {:induction false} TrimmedIsInteriorRun(lines: seq<string>, a: nat)
    requires a == |lines| - |DropLeading(lines)|
    ensures a + |Trimmed(lines)| <= |lines| && Trimmed(lines) == lines[a..a + |Trimmed(lines)|]
    ensures forall i :: 0 <= i < a ==> Blank(lines[i])
    ensures forall i :: a + |Trimmed(lines)| <= i < |lines| ==> Blank(lines[i])
    ensures Trimmed(lines) == [] || (!Blank(Trimmed(lines)[0]) && !Blank(Trimmed(lines)[|Trimmed(lines)| - 1]))
  {
    TrimmedRun(lines, a);
    forall i | 0 <= i < a
      ensures Blank(lines[i])
    {
      DropLeadingOnlyBlank(lines, i);
    }
    forall i | a + |Trimmed(lines)| <= i < |lines|
      ensures Blank(lines[i])
    {
      TrimmedAfterBlank(lines, a, i);
    }
    TrimmedEnds(lines);
  }

  lemma {:induction false} TrimmedRun(lines: seq<string>, a: nat)
    requires a == |lines| - |DropLeading(lines)|
    ensures a + |Trimmed(lines)| <= |lines| && Trimmed(lines) == lines[a..a + |Trimmed(lines)|]
  {
    var d := DropLeading(lines);
    var t := DropTrailing(d);
    assert d == lines[a..];
    assert t == d[..|t|];
    SliceOfSlice(lines, a, |t|);
  }

  lemma {:induction false} TrimmedAfterBlank(lines: seq<string>, a: nat, i: nat)
    requires a == |lines| - |DropLeading(lines)|
    requires a + |Trimmed(lines)| <= i < |lines|
    ensures Blank(lines[i])
  {
    var d := DropLeading(lines);
    assert lines[i] == d[i - a];
    DropTrailingOnlyBlank(d, i - a);
  }

  lemma {:induction false} TrimmedEnds(lines: seq<string>)
    ensures Trimmed(lines) == [] || (!Blank(Trimmed(lines)[0]) && !Blank(Trimmed(lines)[|Trimmed(lines)| - 1]))
  {
    var d := DropLeading(lines);
    var t := DropTrailing(d);
    if t != [] {
      assert t[0] == d[0];
    }
  }

  /** A text with no blank line at either end comes through unchanged, and trimming twice is trimming once. */
  lemma {:induction false} TrimmedIdempotent(lines: seq<string>)
    ensures Trimmed(Trimmed(lines)) == Trimmed(lines)
  {
    var t := Trimmed(lines);
    if t != [] {
      assert DropLeading(t) == t;
    }
  }

  /** Splitting the result gives back exactly the kept lines when any are left. */
  lemma {:induction false} TrimmedLines(text: string)
    requires Trimmed(Split(text, '\n')) != []
    ensures Split(Join(Trimmed(Split(text, '\n')), "\n"), '\n') == Trimmed(Split(text, '\n'))
  {
    var lines := Split(text, '\n');
    var t := Trimmed(lines);
    var d := DropLeading(lines);
    assert forall i :: 0 <= i < |t| ==> '\n' !in t[i] by {
      forall i | 0 <= i < |t|
        ensures '\n' !in t[i]
      {
        assert t[i] == d[i];
        assert d[i] == lines[|lines| - |d| + i];
      }
    }
    SplitJoin(t, '\n');
  }
}
