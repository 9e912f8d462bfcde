/** The `pretty` printer: aligned `key: value` lines, groups apart by a blank line. */
module Pretty {
  import opened Text
  import opened Values
  import opened PrinterTypes

  /** The longest key of all groups (0 when there is none). */
  function MaxKeyLength(groups: seq<NormalGroup>): (r: nat)
    ensures forall e :: e in Entries(groups) ==> |e.key| <= r
    ensures Entries(groups) != [] ==> exists e :: e in Entries(groups) && |e.key| == r
  {
    LongestKey(Entries(groups))
  }

  function LongestKey(entries: seq<NormalEntry>): (r: nat)
    ensures forall e :: e in entries ==> |e.key| <= r
    ensures entries != [] ==> exists e :: e in entries && |e.key| == r
  {
    if entries == [] then 0
    else
      var rest := LongestKey(entries[1..]);
      assert forall e :: e in entries[1..] ==> e in entries;
      if |entries[0].key| >= rest then |entries[0].key| else rest
  }

  /** The first line as it is, every later line after `pad`. */
  function PadLater(lines: seq<string>, pad: string): (r: seq<string>)
    ensures |r| == |lines|
    ensures forall i :: 0 < i < |lines| ==> r[i] == pad + lines[i]
    ensures lines != [] ==> r[0] == lines[0]
  {
    if lines == [] then [] else [lines[0]] + Prefixed(lines[1..], pad)
  }

  function Prefixed(lines: seq<string>, pad: string): (r: seq<string>)
    ensures |r| == |lines| && forall i :: 0 <= i < |lines| ==> r[i] == pad + lines[i]
  {
    if lines == [] then [] else [pad + lines[0]] + Prefixed(lines[1..], pad)
  }

  /** `printInlineValue(indent, value, colorize)` */
  function InlineValue(indent: nat, v: Value, colorize: (string, Color) -> string): string {
    Text.Join(PadLater(Split(PrintValue(v, colorize), '\n'), Spaces(indent + 2)), "\n")
  }

  /**
   * A multi-line value keeps its first line and indents every later one by
   * `indent + 2` spaces; no line is added, dropped or reordered.
   */
  lemma InlineValueLines(indent: nat, v: Value, colorize: (string, Color) -> string)
    ensures Split(InlineValue(indent, v, colorize), '\n') ==
      PadLater(Split(PrintValue(v, colorize), '\n'), Spaces(indent + 2))
  {
    var lines := Split(PrintValue(v, colorize), '\n');
    var padded := PadLater(lines, Spaces(indent + 2));
    forall i | 0 <= i < |padded|
      ensures '\n' !in padded[i]
    {
      if i > 0 {
        assert '\n' !in Spaces(indent + 2);
      }
    }
    SplitJoin(padded, '\n');
  }

  /** The bullet before each list item: two spaces past the start of the unpadded key. */
  function Bullet(indent: nat, key: string): string
    requires |key| <= indent
  {
    Spaces(indent - |key| + 2) + "- "
  }

  function BulletLines(bullet: string, items: seq<Value>, colorize: (string, Color) -> string): (r: seq<string>)
    ensures |r| == |items|
    ensures forall i :: 0 <= i < |items| ==> r[i] == bullet + InlineValue(2, items[i], colorize)
  {
    if items == [] then [] else [bullet + InlineValue(2, items[0], colorize)] + BulletLines(bullet, items[1..], colorize)
  }

  /** `printBulletedList(indent, key, list, colorize)` */
  function BulletedList(indent: nat, key: string, items: seq<Value>, colorize: (string, Color) -> string): (r: string)
    requires |key| <= indent
    ensures |r| >= 1 && r[0] == '\n'
  {
    "\n" + Text.Join(BulletLines(Bullet(indent, key), items, colorize), "\n")
  }

  /** `${paddedKey}: ${printedValue}` */
  function EntryLine(indent: nat, e: NormalEntry, colorize: (string, Color) -> string): (r: string)
    requires |e.key| <= indent
    ensures |r| >= indent + 2
    ensures r[..indent] == PadStart(e.key, indent) && r[indent..indent + 2] == ": "
    ensures r[indent - |e.key|..indent] == e.key
  {
    var printed := match e.printable
      case Inline(v) => InlineValue(indent, v, colorize)
      case Bullets(items) => BulletedList(indent, e.key, items, colorize)
      case InlineForeign(_, _) => "";
    PadStart(e.key, indent) + ": " + printed
  }

  predicate KeysFit(indent: nat, g: NormalGroup) {
    forall i :: 0 <= i < |g| ==> |g[i].key| <= indent
  }

  function EntryLines(indent: nat, g: NormalGroup, colorize: (string, Color) -> string): (r: seq<string>)
    requires KeysFit(indent, g)
    ensures |r| == |g| && forall i :: 0 <= i < |g| ==> r[i] == EntryLine(indent, g[i], colorize)
  {
    if g == [] then [] else [EntryLine(indent, g[0], colorize)] + EntryLines(indent, g[1..], colorize)
  }

  /** One group: its entry lines joined by newlines. */
  function GroupText(indent: nat, g: NormalGroup, colorize: (string, Color) -> string): string
    requires KeysFit(indent, g)
  {
    Text.Join(EntryLines(indent, g, colorize), "\n")
  }

  function GroupTexts(indent: nat, groups: seq<NormalGroup>, colorize: (string, Color) -> string): (r: seq<string>)
    requires forall i :: 0 <= i < |groups| ==> KeysFit(indent, groups[i])
    ensures |r| == |groups| && forall i :: 0 <= i < |groups| ==> r[i] == GroupText(indent, groups[i], colorize)
  {
    if groups == [] then [] else [GroupText(indent, groups[0], colorize)] + GroupTexts(indent, groups[1..], colorize)
  }

  lemma {:induction false} EntriesHold(groups: seq<NormalGroup>, i: nat, j: nat)
    requires i < |groups| && j < |groups[i]|
    ensures groups[i][j] in Entries(groups)
  {
    if i > 0 {
      EntriesHold(groups[1..], i - 1, j);
    }
  }

  /** Every key fits the indent, so no list bullet ever sits less than two spaces in. */
  lemma IndentFitsEveryKey(groups: seq<NormalGroup>)
    ensures forall i :: 0 <= i < |groups| ==> KeysFit(MaxKeyLength(groups), groups[i])
    ensures forall i, j :: 0 <= i < |groups| && 0 <= j < |groups[i]| ==>
      MaxKeyLength(groups) - |groups[i][j].key| + 2 >= 2
  {
    forall i, j | 0 <= i < |groups| && 0 <= j < |groups[i]|
      ensures |groups[i][j].key| <= MaxKeyLength(groups)
    {
      EntriesHold(groups, i, j);
    }
  }

  /**
   * Some entry holds a foreign value, which `printInlineValue` cannot
   * flatten: printing such groups throws, so `Print` is only reached
   * without one and prints nothing in its place.
   */
  predicate HasForeign(groups: seq<NormalGroup>) {
    exists e :: e in Entries(groups) && e.printable.InlineForeign?
  }

  /** The `TypeError` `flattenValue` throws on reading `.value` of `undefined` or `null`. */
  const ForeignValueError := "TypeError: cannot read property 'value' of undefined"

    /** `print(error, { colorize })` */
  function Print(groups: seq<NormalGroup>, colorize: (string, Color) -> string): (r: string)
    ensures |r| >= 2 && r[0] == '\n' && r[|r| - 1] == '\n'
  {
    IndentFitsEveryKey(groups);
    "\n" + Text.Join(GroupTexts(MaxKeyLength(groups), groups, colorize), "\n\n") + "\n"
  }

  /** Groups are set apart by exactly one blank line: a further group adds `"\n\n"` and its text. */
  lemma GroupsSeparated(indent: nat, groups: seq<NormalGroup>, g: NormalGroup, colorize: (string, Color) -> string)
    requires groups != []
    requires forall i :: 0 <= i < |groups| ==> KeysFit(indent, groups[i])
    requires KeysFit(indent, g)
    ensures Text.Join(GroupTexts(indent, groups + [g], colorize), "\n\n") ==
      Text.Join(GroupTexts(indent, groups, colorize), "\n\n") + "\n\n" + GroupText(indent, g, colorize)
  {
    var all := groups + [g];
    assert forall i :: 0 <= i < |all| ==> KeysFit(indent, all[i]);
    assert GroupTexts(indent, all, colorize) == GroupTexts(indent, groups, colorize) + [GroupText(indent, g, colorize)];
    Text.JoinAppend(GroupTexts(indent, groups, colorize), [GroupText(indent, g, colorize)], "\n\n");
  }
}
