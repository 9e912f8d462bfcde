# k6 jslib-testing: a verified model of the assertion library core

This project models, in Dafny, the JavaScript/TypeScript core of k6's
`jslib-testing` library: the `expect` assertion API that k6 test scripts
import, together with its test-suite runner helpers. The Go side of the
repository only embeds the bundled script, so everything modelled here is
the library itself.

The model has one module per source file:

- **Values and equality** (`JsValues`, `MatcherUtils`): JavaScript values as
  a datatype in which arrays, objects and Sets carry an identity, so that
  `===` is reference equality. `isDeepEqual` goes by `Object.keys`.
  `getPropertyByPath` is a character loop that splits a path like
  `a.b[1].c` into segments, followed by a checked traversal.
- **Matchers** (`ToContain`, `ToContainEqual`, `ToHaveProperty`,
  `ToHaveLength`): each matcher's type check, its pass/fail decision and the
  labelled error it throws or offers for `not`.
- **Failure protocols**:
  - `Extend`: how `extend` dispatches a matcher's return or throw to
    `context.fail`, and how it picks the negation error.
  - `NewExpect`: the `ExpectationContext` class, where the first reason
    wins, plus `not`, `soft`, `configure` and `register`.
  - `ExpectationResult`: the self-inverse `pass`/`fail` results.
- **Message pipeline**:
  - `Values`: the coloured `Value` tree, `value`, `join` and `printValue`.
  - `Errors`: the formatter registry (a class over a map).
  - `FormattingUtils`: error-line and header formatting.
  - `Printers`, `Pretty`, `Logfmt`: message normalisation and the `pretty`
    and `logfmt` printers.
  - `Trace`: run-length aggregation of retry traces.
  - `Render`: the older renderer registry, the `PrettyFormatRenderer` and
    `InlineFormatRenderer`, and the display-format registry.
- **Runtime plumbing**:
  - `Embed`: stack-trace parsing, the environment boolean and enum parsers,
    and the soft/hard `assert`.
  - `Execution`: execution-context capture.
  - `ConfigLoader`: configuration defaults and precedence.
  - `Retry`: the `withRetry` loop, run against a scripted clock and scripted
    attempt outcomes.
  - `Suites`: test-tree flattening and the mutable group tree of
    `TestSuite`.
  - `Summary`: summary formatting.
- **Text utilities**:
  - `StringUtils`: `normalizeWhiteSpace`.
  - `PathUtils`: `normalizePath`, `dirname` and the `makeRelativePath` loop.
  - `TestUtils`: `dedent` and `trimEmptyLines`.

Where the source updates state in place, the model does too:
- the formatter registry, the renderer registries, `ExpectationContext` and
  `TestSuite` are classes whose methods modify their fields;
- the loops of `parseStackTrace`, `createMatchers`, `parseArgs`,
  `getPropertyByPath`, the matcher calls and `makeApplicableMatchers`, the
  common-prefix and climbing loops of `makeRelativePath`, `withRetry`,
  `trimEmptyLines`, `aggregateMessages` and the template tag are methods with
  invariants, proved against specification functions;
- `dedent` and the printers build their text with `reduce`, `map` and
  recursion rather than loops, and are functions here.

## Model

| member | source | states |
|---|---|---|
| StringUtils.RemoveInvisible | utils/string.js:3 | the result is the input without zero-width spaces and soft hyphens, other characters kept in order |
| StringUtils.Collapse | utils/string.js:4 | only the empty text collapses to the empty text, and the first character is a space exactly when the text starts with whitespace |
| StringUtils.CollapseNoWs | utils/string.js:4 | a text without whitespace is left as it is |
| StringUtils.CollapseRun | utils/string.js:4 | a non-empty run of whitespace becomes exactly one space |
| StringUtils.CollapseConcat | utils/string.js:4 | two texts whose seam is not inside a whitespace run collapse independently, and the results are concatenated |
| StringUtils.CollapseBetween | utils/string.js:4 | a maximal whitespace run between two texts becomes one space, and the texts on either side collapse on their own |
| StringUtils.CollapseShape | utils/string.js:4 | after collapsing, every whitespace character is a space, no two are adjacent, and no invisible character appears |
| StringUtils.NormalizeIsNormal | utils/string.js:1-5 | the output of `normalizeWhiteSpace` has no invisible character, single spaces only, and no leading or trailing whitespace |
| StringUtils.NormalIsFixedPoint | utils/string.js:1-5 | the normal strings are exactly those that `normalizeWhiteSpace` leaves unchanged |
| StringUtils.NormalizeIdempotent | utils/string.js:1-5 | normalising twice gives the same text as normalising once |
| StringUtils.InvisibleBetweenSpaces | utils/string.js:3-4 | invisible characters are removed before collapsing, so spaces on both sides of one merge into a single space |
| StringUtils.CollapseSpaces | utils/string.js:4 | a double space collapses the same as a single one |
| StringUtils.TrimStartSpaces | utils/string.js:4 | leading whitespace is trimmed the same way whether one or two spaces follow |
| PathUtils.NormalizePath | utils/path.ts:1-4 | every backslash becomes a forward slash and every other character is kept |
| PathUtils.NormalizedHasNoBackslash | utils/path.ts:1-4 | a normalised path has no backslash, and normalising again changes nothing |
| PathUtils.NormalizeNoBackslash | utils/path.ts:1-4 | a path without backslashes is already normal |
| PathUtils.DirnameCases | utils/path.ts:6-19 | `.` when there is no slash, `/` when the only slash is first, otherwise the text before the last slash |
| PathUtils.DirnameAtSlash | utils/path.ts:14-18 | when the last slash of a normalised path is at a position k > 0, the directory is the text before it |
| PathUtils.DirnameNested | utils/path.ts:6-19 | the directory of `a/b/c.js` is `a/b` |
| PathUtils.DirnameWindows | utils/path.ts:6-19 | a backslash-separated path is normalised before its last separator is searched |
| PathUtils.CommonPrefixUnique | utils/path.ts:38-42 | the first index where two component lists disagree is their common-prefix length |
| PathUtils.MakeRelativePath | utils/path.ts:21-56 | the method's two loops compute the relative path of the specification function |
| PathUtils.CountCommon | utils/path.ts:38-42 | the `while` loop stops at the common-prefix length of the two component lists |
| PathUtils.Climb | utils/path.ts:44-55 | the `for` loop yields `upLevels` times `..` followed by the remaining path components |
| PathUtils.OutsideRootDiverges | utils/path.ts:25-42 | outside the prefix branch the components differ before the root's run out, so the `while` loop ends |
| PathUtils.RelativeToItself | utils/path.ts:25-32 | a path relative to itself is the empty string |
| PathUtils.BelowRoot | utils/path.ts:25-32 | under the root, the result is the rest of the path with one leading `/` removed |
| PathUtils.OutsideRoot | utils/path.ts:35-55 | outside the root, the result is one `..` per root component past the common prefix, then the path's remaining components |
| PathUtils.ClimbSplits | utils/path.ts:44-55 | splitting the joined result gives back the climbing parts, which lead from the root to the path |
| PathUtils.SiblingDirectory | utils/path.ts:21-56 | relative to `x/m/y`, the path `x/m/z` is `../z` |
| TestUtils.Indentation | tests/utils.ts:17-24 | a line's indentation is the length of its leading whitespace run, and what follows it is not whitespace |
| TestUtils.MaxWidthBounds | tests/utils.ts:12-14 | every line fits within the maximum line width |
| TestUtils.MinIndentBelow | tests/utils.ts:16-25 | no line that is not blank is indented less than the minimum indentation |
| TestUtils.MinIndentAttained | tests/utils.ts:16-25 | the minimum is the starting width or the indentation of some line that is not blank |
| TestUtils.DedentLines | tests/utils.ts:4-28 | the dedented text has one line per input line, each cut by the common indentation |
| TestUtils.DedentRemovesOnlyIndentation | tests/utils.ts:27 | each line keeps its place and loses only leading whitespace |
| TestUtils.DedentAlignsLeastIndented | tests/utils.ts:16-27 | when some line is not blank, the least indented one ends up starting with a character that is not whitespace |
| TestUtils.UnindentedLine | tests/utils.ts:17-24 | a line that is not blank, cut at its indentation, starts with a character that is not whitespace |
| TestUtils.DedentAllBlank | tests/utils.ts:4-28 | a text whose lines are all blank dedents to empty lines |
| TestUtils.LeadingBlankLineKept | tests/utils.ts:8-10 | a blank first line is kept, because `unshift()` with no argument leaves the list unchanged |
| TestUtils.DedentNoOp | tests/utils.ts:4-28 | a text whose common indentation is zero comes back unchanged |
| TestUtils.DedentIdempotent | tests/utils.ts:4-28 | dedenting twice is the same as dedenting once |
| TestUtils.DropLeadingOnlyBlank | tests/utils.ts:33-35 | only blank lines are shifted off the front |
| TestUtils.DropTrailingOnlyBlank | tests/utils.ts:37-39 | only blank lines are popped off the back |
| TestUtils.TrimEmptyLines | tests/utils.ts:30-42 | the two loops join exactly the lines left between the leading and trailing blank runs |
| TestUtils.TrimmedIsInteriorRun | tests/utils.ts:30-42 | the kept lines are one contiguous, in-order run of the input with only blank lines before and after it, and they start and end with lines that are not blank |
| TestUtils.TrimmedIdempotent | tests/utils.ts:30-42 | trimming the kept lines again changes nothing |
| TestUtils.TrimmedLines | tests/utils.ts:41 | splitting the result gives back exactly the kept lines |
| Summary.FormatTestName | suites/summary.ts:4-6 | the name alone for a top-level test; otherwise the text starts with the first group and `" > "` and ends with the test name |
| Summary.FormatTestNameCons | suites/summary.ts:4-6 | one group deeper, the name is the group, `" > "`, then the inner name |
| Summary.IndentRoundTrip | suites/summary.ts:23-25 | the indented message has one line per message line, each behind two spaces, so removing them gives the message back |
| Summary.FormatFailures | suites/summary.ts:16-28 | one entry per failed test, in order |
| Summary.FormatErrors | suites/summary.ts:8-31 | empty exactly when nothing failed; otherwise it starts with a blank line and the first failure |
| Summary.FormatErrorsConcat | suites/summary.ts:8-31 | the failures appear in result order: the section for a concatenation is the two sections one after the other |
| Summary.Failures | suites/summary.ts:37 | every kept result is a failed one from the input, and every failed result of the input is kept |
| Summary.FailuresConcat | suites/summary.ts:37 | the filter keeps order and multiplicity: the failures of two runs are those of the first, then those of the second |
| Summary.FailuresOne | suites/summary.ts:37 | a single result is kept exactly when it failed |
| Summary.CountsAddUp | suites/summary.ts:37-41 | every result is a pass or a failure, so `total - failed` counts the passes |
| Summary.SummaryColor | suites/summary.ts:44 | green exactly when every test passed, red otherwise |
| Summary.FormatSummary | suites/summary.ts:33-52 | the summary starts with the failures section |
| Summary.SummaryEndsWithCounts | suites/summary.ts:43-51 | after the failures section comes the count line, in the summary colour, with the passes, the failures and the total |
| Summary.AllPassedIsGreenLine | suites/summary.ts:12-51 | with every test passed there is no failures section, only the green count line |
| Suites.BuildTestCaseInstances | suites/suite.ts:21-39 | every instance's path starts with the group's name |
| Suites.ChildInstances | suites/suite.ts:22-37 | a direct test gets the path `[group]`; a nested group's instances get the group's name in front of their paths |
| Suites.Within | suites/suite.ts:30-36 | the group name is put in front of each path, tests and order kept |
| Suites.OneInstancePerTest | suites/suite.ts:21-39 | there is exactly one instance per test in the tree |
| Suites.InstancesOfConcat | suites/suite.ts:22 | `flatMap` keeps child order: the instances of two runs of children are the two lists one after the other |
| Suites.DirectTestPath | suites/suite.ts:23-28 | a test directly in a group runs with the path `[group]`, at its place among the instances |
| Suites.NestedGroupPath | suites/suite.ts:30-36 | a nested group's instances have paths starting with the outer group's name, then the inner group's |
| Suites.TestSuite.constructor | suites/suite.ts:41-44 | a new suite has no open group and no root groups |
| Suites.TestSuite.CurrentGroup | suites/suite.ts:46-75 | the innermost open group; with none open, the calling file's root group, created on first use; without an execution context it throws "Could not determine execution context for root test suite" and nothing changes |
| Suites.TestSuite.Add | suites/suite.ts:77-79 | the test is appended to the current group only: every other group keeps its contents, and `roots` and the next identity change only when the calling file's root group is created; without an execution context it throws and nothing changes |
| Suites.TestSuite.Run | suites/suite.ts:92-93 | the function passed to `enterGroup` leaves the open groups as they were, and only the innermost open group grows |
| Suites.TestSuite.EnterGroup | suites/suite.ts:81-99 | the open groups are the same after the call whether or not the function throws; the new group carries the given name and is appended to the group that was current at the start, only when the function returns; every group that existed before, other than that one, is unchanged, and `roots` gains at most the calling file's root group |
| Suites.TestSuite.OpenGroup | suites/suite.ts:84-98 | the new group carries the given name, other groups are untouched, and the parent gains the new group exactly when the function returned |
| Suites.TestSuite.Clear | suites/suite.ts:161-164 | afterwards no group is open and no file has a root group |
| ConfigLoader.Spread | config.js:33-37 | `{ ...base, ...over }`: each key the options carry replaces the base's, every other key keeps the base value |
| ConfigLoader.SpreadNothing | config.js:33-37 | spreading an empty object changes nothing |
| ConfigLoader.SpreadTwice | config.js:33-37 | spreading two objects one after the other is spreading their merge |
| ConfigLoader.SpreadIdempotent | config.js:33-37 | spreading the same options twice is spreading them once |
| ConfigLoader.EnvNumber | embed/index.iife.js:119-136 | a non-negative finite number is returned; an unset or empty variable, a value that is not a number, and a negative number each throw their own message |
| ConfigLoader.EmptyNumberIsNotSet | embed/index.iife.js:79-123 | a variable set to the empty string passes `hasValue` but the number parser rejects it as not set |
| ConfigLoader.LoadFromEnv | config.js:43-72 | a key is present exactly when its variable is set, with its parser's value; the first parser that throws, in the order colorize, display, timeout, interval, softMode, ends the load with its error; `soft` is never read from the environment |
| ConfigLoader.Load | config.js:31-38 | every key resolves to the environment's value, else the explicit one, else the default; an invalid variable makes it throw |
| ConfigLoader.LoadKeepsEnumsAllowed | config.js:49-70 | a successful load holds only allowed display and soft-mode values, provided the explicit ones are allowed |
| ConfigLoader.LoadWithoutEnv | config.js:31-38 | with no variable set, loading spreads the explicit options over the defaults (timeout 5000, interval 100, soft off, soft mode `throw`, colorize on, display `pretty`) |
| Embed.Assert | embed/index.iife.js:48-59 | nothing happens exactly when the condition holds; otherwise a soft failure in `fail` mode fails the test, a soft failure in any other mode throws `AssertionFailedError`, and a hard failure aborts the test |
| Embed.EnvBoolean | embed/index.iife.js:88-95 | an unset variable throws "is not set"; otherwise the value is false exactly when it lowercases to `false` |
| Embed.EnvBooleanIgnoresCase | embed/index.iife.js:88-95 | two values equal up to letter case parse the same |
| Embed.EnvEnum | embed/index.iife.js:100-112 | the lowercased value when it is allowed; an unset variable and a value not allowed throw their own messages, the latter listing the allowed values |
| Embed.LeadingDigits | embed/index.iife.js:263-264 | the longest prefix of decimal digits, as `parseInt` reads it |
| Embed.ParseIntOfNatToString | embed/index.iife.js:263-264 | `parseInt` reads back the decimal text of a non-negative integer |
| Embed.SplitLocationParts | embed/index.iife.js:251-258 | a split location rebuilds the text around its last two colons, and the column holds no colon; the exception is a text whose only colon is its first character, because `lastIndexOf(":", -1)` still looks at index 0 |
| Embed.SplitAtColons | embed/index.iife.js:251-258 | a text is split at colons i < j when no colon lies after i except at j |
| Embed.SplitLocationOf | embed/index.iife.js:251-258 | `path:line:column` with colon-free line and column splits back into those three parts |
| Embed.LocationRoundTrip | embed/index.iife.js:210-258 | the `at` text the execution context writes is split back into its path, line and column |
| Embed.FileName | embed/index.iife.js:256 | the file name is the text after the last `/`, or the whole path when it has none, and it holds no slash |
| Embed.ParseLine | embed/index.iife.js:227-265 | an `Error` header on line 0 and a line not starting with `at ` give no frame |
| Embed.NamedFrameParsed | embed/index.iife.js:227-265 | a line `at name (path:line:column)`, with or without `file://` and a trailing `(offset)`, gives the frame with that function name, path, file name after the last `/`, line and column |
| Embed.ProtocolFrameParsed | embed/index.iife.js:227-265 | a line `at file://path:line:column`, with or without a trailing `(offset)`, gives an `<anonymous>` frame with the path cut after the protocol, its file name, line and column |
| Embed.PresentFromParsed | embed/index.iife.js:226-266 | every frame comes from a line that parsed |
| Embed.FramesFromLines | embed/index.iife.js:221-268 | each frame of a trace is the parse of one of its lines, line 0 only when it is not the `Error` header |
| Embed.ParseStackTrace | embed/index.iife.js:221-268 | an absent or empty trace gives no frame; otherwise the loop collects the frames of the parsed lines, in line order |
| Execution.CaptureExecutionContext | execution.ts:46-70 | no context without at least two frames; otherwise the caller's frame, the second one, with its path, name, line and column, and `at` written as `path:line:column` |
| Execution.FirstFrameIgnored | execution.ts:47-55 | the first frame, the matcher itself, never affects the captured context |
| Values.Colorize | expect/formatting/values.ts:48-50 | a colorizer keeps the value untouched and attaches its colour |
| Values.Template | expect/formatting/values.ts:82-99 | the template tag's loop pushes every string and, after it, the substitution of the same index when it is not `undefined` |
| Values.InterleavedAlternates | expect/formatting/values.ts:82-99 | with every substitution present, strings sit at the even positions and substitutions at the odd ones, one item fewer than twice the strings |
| Values.InterleavedSkipsMissing | expect/formatting/values.ts:91-95 | `undefined` substitutions are skipped: only the strings remain, in order |
| Values.Join | expect/formatting/values.ts:105-113 | the values at the even positions and the separator at every odd one: between neighbours and nowhere else |
| Values.JoinTextStep | expect/formatting/values.ts:105-113 | the text of a join is the join of all but the last value, the separator, and the last value |
| Values.Paint | expect/formatting/values.ts:129-138 | a colour reaches every uncoloured part and leaves coloured parts alone |
| Values.ColoredFlattenIsPainted | expect/formatting/values.ts:120-139 | under a colour, no flattened part is left uncoloured |
| Values.OuterColorPushedDown | expect/formatting/values.ts:129-138 | a coloured string flattens to that string with that colour |
| Values.InnermostColorWins | expect/formatting/values.ts:129-138 | wrapping an already coloured value in another colour changes nothing: the innermost colour wins |
| Values.FlattenKeepsText | expect/formatting/values.ts:120-139 | flattening keeps every string of the value, in order |
| Values.PrintDefaultIgnoresColor | expect/formatting/values.ts:146-157 | with the default colorizer the printed value is its text, whatever colours it carries |
| Values.PrintSeqConcatenates | expect/formatting/values.ts:146-157 | a list of two values prints as the first's print followed by the second's |
| Values.GroupsOf | expect/formatting/utils.ts:115-117 | one group becomes a list holding it; a list of groups is kept as it is |
| FormattingUtils.ScanFindsMatch | expect/formatting/utils.ts:40-53 | the depth-counting scan stops right after the `)` that closes the first `(`, with the depth never reaching zero before it, or at the end of the text with the parenthesis still open |
| FormattingUtils.ParseArgs | expect/formatting/utils.ts:33-59 | the loop finds the same end as the depth-counting scan, so the method returns the parameter names of its specification |
| FormattingUtils.ParsedArgsNames | expect/formatting/utils.ts:55-58 | one name per comma-separated parameter except the first (`received`); each name is trimmed and holds neither a comma nor an `=` |
| FormattingUtils.Shown | expect/formatting/utils.ts:71 | as many leading names as arguments were passed, never more than there are |
| FormattingUtils.FormatErrorLine | expect/formatting/utils.ts:61-81 | a custom message is returned verbatim; otherwise the line is dark grey |
| FormattingUtils.ErrorLineIsTemplate | expect/formatting/utils.ts:80 | the line's items are what the `value` template interleaves from its four strings and three substitutions |
| FormattingUtils.JoinedNamesText | expect/formatting/utils.ts:68-74 | the green names joined by `", "` read as the plain names joined by `", "` |
| FormattingUtils.ErrorLineText | expect/formatting/utils.ts:61-81 | without a custom message the line reads `expect(received).<name or not.name>(<the passed parameters' names>)` |
| FormattingUtils.FormatHeader | expect/formatting/utils.ts:83-95 | an `Error` and `At` group, then a red `Message` group exactly when the error carries a message |
| FormattingUtils.FormatFooter | expect/formatting/utils.ts:97-106 | one group with the file name and the line number as text |
| FormattingUtils.FormatErrorWithContext | expect/formatting/utils.ts:112-124 | the header groups, then the groups of the error's registered formatter, then the footer; it fails exactly when the error's format has no formatter |
| Errors.FormatterRegistry.constructor | expect/formatting/formatter.ts:4-8 | the formatter table starts empty |
| Errors.FormatterRegistry.Register | expect/formatting/formatter.ts:46-51 | the type now maps to the new formatter, so errors of that type format with it, and every other type formats as before |
| Errors.FormatterRegistry.FormatError | expect/formatting/formatter.ts:56-66 | an error of a registered type is formatted by its formatter; any other fails with "No formatter registered for error type: " and the type |
| Errors.FreshRegistryRefuses | expect/formatting/formatter.ts:4-63 | before any registration, formatting any error fails |
| Errors.ReregisterKeepsLast | expect/formatting/formatter.ts:46-51 | the last registration for a type wins, and the other types keep theirs |
| Errors.TypeMismatchError | expect/formats/typeMismatch.ts:15-22 | a `type-mismatch` error, carrying no message |
| Errors.ContentLabels | expect/formats/custom.ts:4-10 | one label per entry of a single-group custom error, in order |
| Errors.CustomFormatter | expect/formats/custom.ts:14-16 | a custom error formats as its own content, so its labels are the content's labels |
| Values.AsValue | expect/formatting/values.ts:120-139 | a received string is the formatting value with that text; only strings and arrays of such values are formatting values, everything else is foreign to the formatter |
| Values.ColorRaw | expect/formatting/values.ts:120-139 | `red(received)` / `green(received)` on an unprinted value: a string becomes that text in the colour, a foreign value is kept as it is, to fail later at printing |
| Errors.TypeMismatchFormatter | expect/formats/typeMismatch.ts:24-29 | one group: "Expected" with the accepted types joined by a vertical bar between spaces, in green, then "Received" with `red(received)` on the value as passed, unprinted: a string is shown as its own text, a non-string stays a foreign value |
| Errors.JoinedTypesInclude | expect/formats/typeMismatch.ts:26 | every accepted type appears in the joined "Expected" text |
| Errors.BuiltinFormatsApply | expect/formats/typeMismatch.ts:24-29 | once both formatters are registered, a type mismatch formats as "Expected" and "Received" naming every accepted type, and a custom error formats as its content; a received string is shown as its text in red, a non-string received is kept as a foreign value |
| Printers.KeptEntries | expect/printers/index.ts:13-20 | an entry is dropped only when falsy, so the group never grows |
| Printers.NormalizeMessage | expect/printers/index.ts:7-23 | one normalised group per group of the message, each with its falsy entries removed |
| Printers.SingleGroup | expect/printers/index.ts:10-11 | a single group becomes a message of one group |
| Printers.KeptConcat | expect/printers/index.ts:14-20 | removal keeps order: the two halves of a group are filtered independently |
| Printers.AllKept | expect/printers/index.ts:14-20 | a group without falsy entries keeps every key and value, in order |
| Printers.DroppedAndKept | expect/printers/index.ts:15-17 | `0`, `false`, `null` and `undefined` entries disappear; an empty string stays |
| Printers.PrintError | expect/printers/index.ts:28-41 | the normalised message goes to the `pretty` or the `logfmt` printer, as chosen; the pretty printer throws the `TypeError` of `flattenValue` exactly when some kept entry holds a foreign value, logfmt never throws |
| Printers.MismatchNormalized | expect/printers/index.ts:13-20 | normalising a type-mismatch report keeps its one group with both entries, in order |
| Printers.ForeignReceivedPrinting | expect/formats/typeMismatch.ts:27 | a type mismatch whose received value is not a formatting value (a number, boolean, `null`, Set, plain object) makes the pretty printer throw instead of printing, and is written `[object Object]` by logfmt; a received string, such as the type name from `toHaveProperty`, prints |
| PrinterTypes.Entries | expect/printers/logfmt.ts:7 | every entry of every group, in order |
| Pretty.MaxKeyLength | expect/printers/pretty.ts:48-51 | the indent is the length of the longest key of all groups: no key is longer, and one key has it |
| Pretty.PadLater | expect/printers/pretty.ts:15-23 | the first line is kept as it is and every later line gets the padding, none added or dropped |
| Pretty.InlineValueLines | expect/printers/pretty.ts:9-26 | the lines of an inline value are those of the printed value, every line after the first indented by `indent + 2` spaces |
| Pretty.BulletLines | expect/printers/pretty.ts:38-39 | one line per list item: the bullet, then the item printed inline at indent 2 |
| Pretty.BulletedList | expect/printers/pretty.ts:28-42 | a bulleted list always starts on a new line |
| Pretty.EntryLine | expect/printers/pretty.ts:54-61 | the key right-aligned to the indent, then `: `, then the printed value |
| Pretty.EntryLines | expect/printers/pretty.ts:54-63 | one line per entry of the group, in order |
| Pretty.GroupTexts | expect/printers/pretty.ts:53-64 | one text per group, in order |
| Pretty.IndentFitsEveryKey | expect/printers/pretty.ts:35-51 | every key fits the indent, so a list bullet sits at least two spaces in |
| Pretty.Print | expect/printers/pretty.ts:44-67 | the printed error starts and ends with a newline |
| Pretty.GroupsSeparated | expect/printers/pretty.ts:66 | each further group adds exactly one blank line and its text |
| Logfmt.UnderscoreRuns | expect/printers/logfmt.ts:15 | `replace(/\s+/g, "_")`: no whitespace is left and the text never grows |
| Logfmt.UnderscoreRunsNoWs | expect/printers/logfmt.ts:15 | a text without whitespace is left unchanged |
| Logfmt.UnderscoreRunsIsCollapse | expect/printers/logfmt.ts:15 | replacing runs by `_` is collapsing them to one space, with `_` written for that space |
| Logfmt.UnderscoreRunsBetween | expect/printers/logfmt.ts:15 | a maximal whitespace run between two texts becomes one `_`, and the texts on either side are replaced on their own |
| Logfmt.UnderscoreRunsConcat | expect/printers/logfmt.ts:15 | two texts whose seam is not inside a whitespace run are replaced independently |
| Logfmt.EscapedLabel | expect/printers/logfmt.ts:15 | a label holds no whitespace |
| Logfmt.Pairs | expect/printers/logfmt.ts:7-17 | one `label=value` pair per entry, in order |
| Logfmt.PrintLength | expect/printers/logfmt.ts:3-19 | the pairs are joined by exactly one space between neighbours |
| Logfmt.PlainLabelKept | expect/printers/logfmt.ts:15 | a key without whitespace or capitals is emitted as it is |
| Trace.AggregateMessages | expect/formats/trace.ts:14-44 | the loop over the remaining messages, bumping the current run or opening a new one, computes the run-length aggregation |
| Trace.AggregatedExpands | expect/formats/trace.ts:14-44 | aggregation loses nothing: expanding the runs gives the trace back, and the counts add up to its length |
| Trace.AggregatedWellFormed | expect/formats/trace.ts:14-44 | every count is at least one, neighbouring runs carry different messages, and the last run holds the last message |
| Trace.AggregatedEmpty | expect/formats/trace.ts:17-19 | an empty trace gives no runs |
| Trace.OnlyConsecutiveMerge | expect/formats/trace.ts:28-41 | only consecutive duplicates merge: `a, a, b, a` is three runs |
| Trace.RunPrinted | expect/formats/trace.ts:53-63 | a single occurrence prints as the message; a repeated one gets ` (xN)` appended |
| Trace.CallLog | expect/formats/trace.ts:52-63 | one call-log item per run, in order |
| Trace.TraceFormatter | expect/formats/trace.ts:47-71 | as written: without a receiver the formatter throws on `this.format`; with one, it fails when formatting the inner error fails and otherwise gives the corrected format of the formatted inner error |
| Trace.UnboundTraceThrows | expect/formats/trace.ts:47-48 | called as `formatError` calls it, with no receiver, the trace formatter throws for every trace error and never gives the trace format |
| Trace.FormatTrace | expect/formats/trace.ts:47-71 | corrected: the inner error's groups, then one `Call log` group listing the aggregated runs |
| ExpectationResult.Resolve | expectations/result.ts:37-41 | a `negate` function is called for its failure details; a plain value is used as it is |
| ExpectationResult.Pass | expectations/result.ts:31-44 | `pass` always gives a passed result |
| ExpectationResult.Fail | expectations/result.ts:50-67 | `fail` gives a failed result carrying the expected and received text it was given |
| ExpectationResult.Negate | expectations/result.ts:3-63 | negation flips whether the result passed |
| ExpectationResult.NegatePass | expectations/result.ts:36-42 | negating a pass fails with the details its `negate` option gives, calling it when it is a function |
| ExpectationResult.NegateFail | expectations/result.ts:56-63 | negating a failure passes |
| ExpectationResult.DoubleNegationOfFail | expectations/result.ts:53-66 | negating a failure twice gives back a failure with the same fields |
| ExpectationResult.DoubleNegation | expectations/result.ts:31-67 | negating any result twice keeps whether it passed; a failure comes back unchanged |
| ExpectationUtils.NonObjectsRejected | expectations/utils.js:9-60 | falsy values and non-objects are neither locators nor pages |
| ExpectationUtils.PlainObjectChecks | expectations/utils.js:13-75 | a plain object is a locator exactly when it has all 26 locator methods, and a page exactly when it has the six page methods |
| ExpectationUtils.LocatorNamesNotInherited | expectations/utils.js:13-43 | no locator method name is one every object inherits, so `in` cannot be satisfied by the prototype |
| ExpectationUtils.PageNamesNotInherited | expectations/utils.js:61-71 | no page method name is one every object inherits |
| ExpectationUtils.TapAndUrlNotOnObjects | expectations/utils.js:39-70 | the required `tap` and `url` names are not inherited by every object, so `prop in value` does not hold for them by the prototype |
| ExpectationUtils.TapNotOnCollections | expectations/utils.js:39-42 | an array or a Set has no `tap`, so the locator check's `every` fails on it |
| ExpectationUtils.UrlNotOnCollections | expectations/utils.js:64-70 | an array or a Set has no `url`, so the page check's `every` fails on it |
| ExpectationUtils.CollectionsRejected | expectations/utils.js:9-75 | arrays and Sets are neither locators nor pages, whatever they hold |
| ExpectationUtils.ExtraPropertiesKeep | expectations/utils.js:41-71 | extra properties never turn either check from true to false |
| MatcherUtils.IdenticalIsDeepEqual | expect/matchers/utils.ts:2 | `===`-identical values are deep-equal |
| MatcherUtils.DeepEqualRejects | expect/matchers/utils.ts:4-5 | values that are not identical are unequal when one is `null` or one is not an object |
| MatcherUtils.DeepEqualSameKeyCount | expect/matchers/utils.ts:7-10 | two deep-equal objects that are not identical have as many keys |
| MatcherUtils.SetsAreDeepEqual | expect/matchers/utils.ts:7-18 | any two Sets are deep-equal, and so are a Set and `{}`, because neither has an own key |
| MatcherUtils.IndexedProps | expect/matchers/utils.ts:7-8 | the plain object holding an array's index keys and elements |
| MatcherUtils.ArrayEqualsIndexedObject | expect/matchers/utils.ts:7-18 | an array is deep-equal to the plain object with its index keys and elements |
| MatcherUtils.KeyOrderIrrelevant | expect/matchers/utils.ts:7-18 | two objects with the same key/value mapping are deep-equal, whatever the order of their keys |
| MatcherUtils.EmptyPathFails | expect/matchers/utils.ts:34-36 | the empty path throws "Invalid path: empty string" |
| MatcherUtils.StrayCloseBracketFails | expect/matchers/utils.ts:58-65 | a `]` with no open `[` makes the whole path invalid, whatever follows it |
| MatcherUtils.ParseFromConcat | expect/matchers/utils.ts:44-69 | the character loop over a concatenation runs over the first part, then from where it stopped over the second |
| MatcherUtils.NonEmpty | expect/matchers/utils.ts:48-74 | only non-empty segments are pushed, in order |
| MatcherUtils.DotSegments | expect/matchers/utils.ts:44-74 | without brackets, the segments are the `.`-separated parts with the empty ones dropped |
| MatcherUtils.DottedPathSegments | expect/matchers/utils.ts:34-74 | a non-empty path without brackets parses to its `.`-separated parts, empty ones dropped |
| MatcherUtils.InsideBrackets | expect/matchers/utils.ts:47-68 | inside brackets every character other than a bracket, `.` included, joins the segment |
| MatcherUtils.BracketSegment | expect/matchers/utils.ts:52-62 | `[x]` closes the open segment and adds `x` as one segment, even when `x` is empty or holds dots |
| MatcherUtils.PlainRun | expect/matchers/utils.ts:66-68 | outside brackets, a run of plain characters extends the open segment |
| MatcherUtils.DotThen | expect/matchers/utils.ts:47-51 | outside brackets, a `.` closes the open segment |
| MatcherUtils.MixedPathSegments | expect/matchers/utils.ts:34-74 | a path shaped `x.y[w].z` parses to the four segments `x`, `y`, `w`, `z` |
| MatcherUtils.GetPropertyByPath | expect/matchers/utils.ts:30-109 | the parsing loop and the traversal loop together return the specified value or throw the specified error |
| MatcherUtils.NumericSegment | expect/matchers/utils.ts:84-93 | a numeric segment succeeds exactly on an array and below its length, and then gives that element |
| MatcherUtils.NamedSegment | expect/matchers/utils.ts:94-105 | a non-numeric segment succeeds exactly on an object owning that key, and then gives its value |
| MatcherUtils.ThroughNothingFails | expect/matchers/utils.ts:80-82 | stepping on from `null` or `undefined` throws "Property <path> does not exist" |
| MatcherUtils.LetterSegment | expect/matchers/utils.ts:84 | a segment of lower-case letters is not a number, so it names a property |
| MatcherUtils.DigitSegment | expect/matchers/utils.ts:84-86 | a segment of digits is the index it spells |
| MatcherUtils.IndexKeyStep | expect/matchers/utils.ts:84-93 | the decimal spelling of an index below an array's length steps to that element |
| MatcherUtils.LetterKeyStep | expect/matchers/utils.ts:94-105 | a lower-case key of an object steps to that key's value |
| MatcherUtils.WalkChain | expect/matchers/utils.ts:79-108 | a chain of successful single steps walks to its last value |
| Render.MaybeColorize | render.js:32-33 | the colorizer's output when colourising is on, the text itself otherwise |
| Render.Capitalize | expectRetrying.ts:550-552 | the first character upper-cased and the rest kept |
| Render.CustomMessageReplacesLine | render.js:31-36 | a string custom message replaces the whole error line of the base renderers |
| Render.PlainErrorLine | render.js:31-172 | uncoloured, the error line reads `expect(<placeholder>).<matcher>(expected)` for the fallback and expected/received renderers, and `...()` for the others |
| Render.ReportLines | render.js:46-157 | `Error` and `At` (or "unknown location") in group 1, the renderer's own lines, then `Filename` and `Line` in group 99, or in group 3 for the fallback renderer |
| Render.GetFormatter | render.js:226-238 | `pretty` and `inline` are the only display formats; any other throws "Unknown display format: " and its name |
| Render.LabelWidth | render.js:182-186 | the widest `label:` among the lines that are not raw: none is wider and one has that width |
| Render.PrettyLines | render.js:187-203 | one printed line per report line, with a newline added where the next line starts a new group |
| Render.PrettyRender | render.js:180-206 | the report starts and ends with a blank line |
| Render.LabelsRightAligned | render.js:193-195 | every labelled line is padded with spaces so that `label:` ends at the common width, then a space |
| Render.InlinePairs | render.js:211-224 | one `label=value` pair per line, the label escaped as in `logfmt` and a value with a space quoted |
| Render.RenderReport | render.js:46-161 | the report lines in the `pretty` or `inline` format; any other display format throws |
| Render.Merge | render.js:14-16 | a supplied key replaces the configured one; an absent key keeps it |
| Render.MatcherErrorRendererRegistry.constructor | render.js:6-7 | no renderer registered; colourised `pretty` output |
| Render.MatcherErrorRendererRegistry.Register | render.js:8-10 | the name now maps to the renderer; the configuration is unchanged |
| Render.MatcherErrorRendererRegistry.GetRenderer | render.js:11-13 | the registered renderer, or the fallback renderer for an unknown name |
| Render.MatcherErrorRendererRegistry.Configure | render.js:14-16 | the configuration becomes the merge of the old one and the patch; the renderers are unchanged |
| Render.ConfigureKeepsEarlierKeys | render.js:6-16 | two configurations with different keys both take effect, and a registered renderer is found again while an unknown name gets the fallback |
| Retry.WithRetry | expectRetrying.ts:672-713 | every run starts before the deadline; every run but the last threw and was followed by one sleep of the interval; it resolves after the first run that passes, and otherwise rejects with a `RetryTimeoutError` naming the timeout once the clock passes the deadline |
| Retry.FirstPassReturnsAtOnce | expectRetrying.ts:684-690 | an assertion that passes at once runs once and never sleeps |
| Retry.NonPositiveTimeoutNeverRuns | expectRetrying.ts:682-700 | with a timeout of zero or less the assertion never runs and the timeout error is thrown |
| Retry.DefaultsApply | expectRetrying.ts:679-693 | without options the deadline is 5000 ms and every sleep 100 ms |
| Retry.BooleanStateReport | expectRetrying.ts:545-587 | a boolean-state renderer is named `toBe` and the capitalised state, shows `locator`, and reports the expected state, its opposite, and a call log naming the matcher and its timeout |
| Extend.GetNegationFunction | expect/extend.ts:219-233 | a function result, or a function `negate`, is the negation itself; a plain `negate` value becomes a function returning it for any arguments |
| Extend.ConstantNegation | expect/extend.ts:232 | a plain `negate` value reports the same error whatever the arguments |
| Extend.PrinterName | expect/extend.ts:283-285 | display `inline` prints with the `logfmt` printer; any other display names its printer directly |
| Extend.PrintNamed | expect/printers/index.ts:31-40 | `pretty` and `logfmt` go to their printers, the pretty printer throwing on a foreign value; a printer name the switch does not know is returned as the output |
| Extend.ColorizerFor | expect/extend.ts:287-289 | the given colorizer when colourising is on; otherwise the text unchanged, whatever the colour |
| Extend.DisplayChoosesPrinter | expect/extend.ts:282-290 | display `inline` prints the error with logfmt; `pretty` prints it with the pretty printer, or throws its `TypeError` when the report holds a foreign value |
| Extend.HandleFail | expect/extend.ts:266-293 | `fail` is called with the printed error exactly when the error's format has a formatter and printing does not throw; otherwise the formatter's "No formatter registered" error, or the pretty printer's `TypeError`, is thrown |
| Extend.Call | expect/extend.ts:209-326 | without an execution context the call throws "Failed to capture execution context"; otherwise it succeeds exactly when `match` neither threw a foreign error nor should fail, rethrows a foreign error, and on failure formats and reports the negation's error or the thrown details |
| Extend.FailCalledExactly | expect/extend.ts:236-262 | with a formatter for the reported format, `fail` is called exactly when `match` returned under `not` or threw `AssertionFailed` without it, and the chosen printer does not throw on the report |
| Extend.NegationReportsNegateError | expect/extend.ts:236-249 | a `match` that returns passes without `not`, and under `not` reports the error of its `negate` |
| Extend.MatcherRegistry.constructor | expect/extend.ts:164 | the registry starts empty |
| Extend.MatcherRegistry.Extend | expect/extend.ts:198-205 | the name now maps to the new implementation, replacing an earlier one |
| Extend.MatcherRegistry.CreateMatchers | expect/extend.ts:335-345 | one matcher function per registered name, each bound to its implementation and the shared context |
| Extend.ReextendKeepsLast | expect/extend.ts:205-342 | extending a name twice leaves the second implementation in the matchers built afterwards |
| NewExpect.First | newExpect.ts:122-126 | after a sequence of `fail` calls the reason held is the first one, and there is none only when nothing was reported |
| NewExpect.FirstOfLonger | newExpect.ts:123 | later `fail` calls never replace a reason already held |
| NewExpect.Verdict | newExpect.ts:154 | a plain expectation passes exactly when no reason is held, a negated one exactly when one is |
| NewExpect.Recorded | newExpect.ts:196-215 | the reasons a call records: those the matcher reported, in order, then its uncaught error when it threw |
| NewExpect.Held | newExpect.ts:134-157 | the reason held when asserting is the first recorded one, or the negated-assertion reason for a negated expectation without one; there is none only for a plain expectation with no report |
| NewExpect.Decision | newExpect.ts:134-157 | as written: the assert call passes when the expectation is negated or nothing was recorded, carries the soft flag, and renders the reason held (the empty message when a plain one passes) |
| NewExpect.DecisionCorrected | newExpect.ts:134-157 | corrected: the verdict is taken on the first recorded reason, so a negated expectation passes exactly when something was recorded; same soft flag and message |
| NewExpect.DecisionsAgree | newExpect.ts:134-157 | the decision as written and the corrected one render the same message and differ in verdict exactly on a negated expectation with nothing recorded |
| NewExpect.FailureHasReason | newExpect.ts:134-157 | as written, a failing expectation is a plain one whose matcher reported something, and its message renders the first report |
| NewExpect.FailureHasReasonCorrected | newExpect.ts:134-157 | corrected, a failing expectation's message is a rendered reason: its matcher's first one, or the negated-assertion reason when a negated one has none |
| NewExpect.NegationFlipsCorrectedVerdict | newExpect.ts:154 | corrected, `not` turns every verdict around |
| NewExpect.UncaughtErrorFails | newExpect.ts:128-215 | a matcher that throws before reporting anything fails a plain expectation with the uncaught error as its reason, and passes a negated one |
| NewExpect.ExpectationContext.constructor | newExpect.ts:93-120 | no reason held; the call's name, value, negation, configuration, message and execution context are stored |
| NewExpect.ExpectationContext.Fail | newExpect.ts:122-126 | the first recorded reason stays; a later one is dropped |
| NewExpect.ExpectationContext.Assert | newExpect.ts:134-157 | as written: the negated-assertion reason is recorded first, so every negated expectation passes; the message renders the reason finally held |
| NewExpect.ExpectationContext.AssertCorrected | newExpect.ts:134-157 | corrected: the verdict is taken on the reason held before a negated expectation records the negated-assertion reason, so `not` passes exactly when the matcher reported a failure; the message renders the reason finally held |
| NewExpect.ExpectationContext.Catch | newExpect.ts:128-132 | an uncaught error becomes the reason unless one is held, and the expectation then fails exactly when it is not negated |
| NewExpect.NegatedAssertAlwaysPasses | newExpect.ts:134-157 | under `not`, the assert as written passes whether or not the matcher reported a failure, while the corrected one passes exactly when it did |
| NewExpect.Not | newExpect.ts:228-235 | `not` gives the same matchers with the negation flipped |
| NewExpect.NotNot | newExpect.ts:228-235 | going through `not` twice gives back the matchers one started from |
| NewExpect.CallMatcher | newExpect.ts:177-216 | without an execution context the call throws "Failed to capture execution context in matcher"; otherwise a fresh context receives the matcher's reports in order, then its uncaught error, and the assert call is the decision as written on them |
| NewExpect.CallMatcherCorrected | newExpect.ts:177-216 | corrected: the same call with the corrected `assert` ends in the corrected decision on the recorded reasons |
| NewExpect.Expect | newExpect.ts:242-249 | `expect(actual, message)` gives non-negated matchers on the loaded configuration |
| NewExpect.Soft | newExpect.ts:254-264 | `expect.soft` is the same with `soft` set and every other key kept |
| NewExpect.SoftNeverAborts | newExpect.ts:156 | a soft expectation never aborts the test; `assert` gets no soft mode and falls back to `"throw"`, so a failing soft expectation throws `AssertionFailedError` and never calls `test.fail`, whatever the configured soft mode |
| NewExpect.AsOptions | newExpect.ts:267 | a complete configuration spread over the defaults is itself |
| NewExpect.MakeExpect | newExpect.ts:239-240 | loading fails exactly when an environment variable is invalid; with none set, the configuration is the given keys spread over the defaults |
| NewExpect.Configure | newExpect.ts:266-268 | the new keys spread over the current configuration and loaded again: a set variable still wins, `soft` always follows the new keys, and an invalid variable makes it throw |
| NewExpect.GlobalExpect.constructor | newExpect.ts:272-274 | the global `expect` starts with no registered matcher |
| NewExpect.GlobalExpect.Register | newExpect.ts:279-284 | a matcher is stored under its name, replacing an earlier one |
| NewExpect.GlobalExpect.ApplicableMatchers | newExpect.ts:170-217 | one matcher function per registered matcher, each on the same applicable side |
| NewExpect.RegisteredMatcherApplies | newExpect.ts:172-235 | a registered matcher is found by its name both on `expect(...)` and on `.not` |
| ToContain.ReceivedType | expect/matchers/toContain.ts:28-38 | `string`, `array` or `set`, each exactly for its kind of receiver |
| ToContain.ToContainError | expect/matchers/toContain.ts:57-75 | a custom error whose first label says "Expected (not) to contain" with the item in green, and whose second names the receiver's type, in red |
| ToContain.Match | expect/matchers/toContain.ts:77-103 | a type mismatch for any other receiver; it passes exactly when the receiver contains the item (a substring for a string, an `===` element for an array or Set), fails with the error otherwise, and negates to the error with the negated label |
| ToContain.StringContainsOnlyStrings | expect/matchers/toContain.ts:41-44 | a string contains only strings: a number is not found even in the text of its own digits |
| ToContain.ArraySearchByIdentity | expect/matchers/toContain.ts:46-48 | arrays are searched by identity: a distinct object never matches, whatever its contents |
| ToContain.PresentElementPasses | expect/matchers/toContain.ts:93-101 | an element that is present makes the matcher pass, and its negation reads "Expected not to contain" and "Received array" |
| ToContainEqual.ReceivedType | expect/matchers/toContainEqual.ts:25-27 | `array` exactly for an array, `set` exactly for a Set |
| ToContainEqual.SomeDeepEqual | expect/matchers/toContainEqual.ts:29-35 | some element is deep-equal to the expected value |
| ToContainEqual.ToContainEqualError | expect/matchers/toContainEqual.ts:37-55 | a custom error labelled "Expected (not) to contain equal" with the value in green, and "Received array" or "Received set" with the receiver in red |
| ToContainEqual.Match | expect/matchers/toContainEqual.ts:57-81 | a type mismatch for anything but an array or a Set; it passes exactly when some element is deep-equal to the expected value, and negates to the error with the negated label |
| ToContainEqual.ContainImpliesContainEqual | expect/matchers/toContainEqual.ts:29-35 | whatever `toContain` finds in an array or a Set, `toContainEqual` finds too |
| ToContainEqual.CopyIsContainedEqual | expect/matchers/toContainEqual.ts:29-35 | a copy of an element with a new identity is not contained, but is contained equal |
| ToContainEqual.SameElementsDeepEqual | expect/matchers/utils.ts:7-18 | two arrays with the same elements are deep-equal, whatever their identities |
| ToHaveProperty.FormatError | expect/matchers/toHaveProperty.ts:22-46 | labels "Property path", "Expected property (not) to equal" or "(not) to exist", "Received object"; the path in white, the expected value in green or an empty cell, the object in red |
| ToHaveProperty.Match | expect/matchers/toHaveProperty.ts:48-85 | a non-object, `null` included, is a type mismatch naming its type; otherwise it passes exactly when the path resolves and the expected value is `undefined` or deep-equal to the property, and negates to the error with the negated label |
| ToHaveProperty.LetterKeyPath | expect/matchers/utils.ts:34-74 | a key of lower-case letters is a path of exactly that one segment |
| ToHaveProperty.MissingKeyFails | expect/matchers/toHaveProperty.ts:64-73 | a missing property fails with the "Expected property to exist" error |
| ToHaveProperty.PresentKeyPasses | expect/matchers/toHaveProperty.ts:58-84 | a present property passes without an expected value, and with one exactly when the two are deep-equal |
| ToHaveProperty.ExplicitUndefinedChecksExistence | expect/matchers/toHaveProperty.ts:28-75 | passing `undefined` explicitly checks only that the property exists, but the error then reads "to equal" instead of "to exist" |
| ToHaveProperty.NegationNamesProperty | expect/matchers/toHaveProperty.ts:79-83 | under `not`, a passing match reports the negated label for the same path and object |
| ToHaveProperty.ExtraArgumentStillCompares | expect/matchers/toHaveProperty.ts:58-77 | with a third argument the expected value is still compared, while the error reads "Expected property to exist" |
| ToHaveLength.GetLength | expect/matchers/toHaveLength.ts:20-34 | a string's length; for an object, its `length` exactly when `length` is reachable with `in` and holds a number; nothing for other values |
| ToHaveLength.LengthError | expect/matchers/toHaveLength.ts:49-67 | labels "Expected length", "Received length", "Received value", with the expected length in green and the actual length and value in red |
| ToHaveLength.Match | expect/matchers/toHaveLength.ts:36-70 | a type mismatch when there is no length; it passes exactly when the expected value is that number, and negates to the same three entries |
| ToHaveLength.ArrayLength | expect/matchers/toHaveLength.ts:29-31 | an array's length is its number of elements |
| ToHaveLength.SetHasNoLength | expect/matchers/toHaveLength.ts:25-46 | a Set has no `length`: it is a type mismatch whatever is expected |
| ToHaveLength.ObjectLengthProperty | expect/matchers/toHaveLength.ts:29-31 | a plain object with a numeric `length` property has that length |
| ToHaveLength.NegationSameContent | expect/matchers/toHaveLength.ts:59-68 | under `not`, a matching length is reported with the same three entries as a failure |

## Left out

- `embed/embed.go` is a build-time `//go:embed` byte slice with no logic; it is not part of this model.
- I/O, processes and bundling are not part of this model:
  - `environment.ts`;
  - the test server and test runner scripts;
  - the build scripts.
  - Environment variables are passed in as a map.
- Browser-driven code is left out:
  - the browser matchers and the bodies of the retrying matchers in `expectRetrying.ts`;
  - the legacy `expectNonRetrying`/`expectRetrying` `createExpectation` matchers;
  - the `isLocator` dispatch to them.
  - Only `withRetry`, `RetryTimeoutError` and the boolean-state error renderer are modelled.
- Floating point is left out:
  - numbers are integers only, with no `NaN` or fractions, and no `SameValueZero` subtleties in `includes`/`has`;
  - `toBeCloseTo`, the relational matchers and `toBeNaN`.
- The matchers that depend on JavaScript semantics with no faithful pure model are left out: `toBe` (`Object.is`), `toBeInstanceOf` and the truthiness predicates.
- `printJsValue`/`JSON.stringify` is the parameter `show`, and `colorize` is the parameter `paint`.
- `ConfigLoader.EnvNumber`: `Number()` on the variable's text is the parameter `toNumber`, and every non-finite result counts as `NaN`.
- `MatcherUtils.NumberOf`: `Number()` on a path segment covers blank text and signed decimal integers only. Fractions, exponents, hexadecimal and `Infinity` count as non-numeric.
- The render callback of the newer `expect` (`FailureReasonErrorRenderer` in `render.ts`) is the parameter `render`.
- Asynchronous code (`async` matchers, promises) is treated as synchronous.
- The source's `TestSuite.run` (awaited test execution and `Date.now` durations), `suites/test.ts`, `suites/globals.ts`, `suites/options.ts` and the `expect.ts` routing are left out. The model's `Suites.TestSuite.Run` is not that method: it runs the script of suite operations that stands for the function passed to `enterGroup`.
- `Text.ToLower` and `Text.UpperChar` cover ASCII letters only. So do the key lower-casing of `logfmt` and the inline renderer, and `Render.Capitalize`.
- `Suites.TestSuite.Clear`: groups that are no longer reachable stay in the heap map; they are unreachable, so this does not change what is observable.
- `Embed.Assert` is the only assertion helper modelled; `assert.ts`/`assertFn` duplicate it.
- `Retry.WithRetry`: the clock is a finite sequence of readings whose last reading is past the deadline; an assertion that never passes against a clock that never advances (where the source would loop forever) is not modelled.
- `Trace.TraceFormatter`: the exact text of the `TypeError` thrown on the unbound `this` depends on the JavaScript engine; the model uses one fixed message.
- Text is a sequence of code points, while JavaScript strings are UTF-16 code units. Lengths, paddings, `slice` and `indexOf` positions therefore differ for characters outside the Basic Multilingual Plane: `expect("😀").toHaveLength(2)` passes in the source and fails in the model.
- `TestUtils.Dedent` takes the template's text already joined. The source joins only the literal parts (`strings.join("")`) and drops the substituted values; the model does not represent the substitutions.
- `ToContain.Match`, `ToContainEqual.Match`: the source puts the constructors `Set` and `Array` in a type mismatch's `expected`, and `join` prints their source text. The model writes the names `"Set"` and `"Array"` instead.
- `NewExpect.CallMatcher`: when the `assert` call inside the `try` throws, the source's `catch` runs `assert` a second time with the same reason; the model records a single call. Both a hard failure and a soft failure throw there, since a soft `assert` throws `AssertionFailedError`.
- `ToHaveProperty.Lookup`: a key path that is not a string is a failed lookup, and the error writes it with `String()`.
- `Pretty.MaxKeyLength`: with no keys, the width is 0 rather than `-Infinity`; no entry is padded in either case, so the output is the same.
- `Embed.SplitLocationParts`: `lastIndexOf(":", -1)` still finds a colon at index 0. So a location `":x"` is split rather than skipped, and the model keeps that behaviour.
- `ExpectationResult`: `fail(d).negate().negate()` builds a new object with the same fields; the model compares results by value, so it does not capture object identity.
- Duplicated sources (`.js` twins of `.ts` files, the rest of `embed/index.iife.js`, `expectations/result.js`, `config.ts`) are modelled once, from the file cited in the table.
- `Execution.CaptureExecutionContext` follows `execution.ts`, which takes the second frame (`st[1]`). `execution.js` and the bundled copy in `embed/index.iife.js` take the last frame (`st[st.length - 1]`) instead; that variant is not modelled.
- The one-line format registrations are modelled by their formatters: `Errors.CustomFormatter`, `Errors.TypeMismatchFormatter` and `Trace.TraceFormatter`. The registrations themselves run when the modules load; the model registers them explicitly (`Errors.BuiltinFormatsApply`).
- `Errors.TypeMismatchFormatter`: a non-array `expected` is printed as it is in the source; every matcher in the model passes a list, so the model only takes lists.
- `Values.AsValue`: an object that has its own `value` property is read by `flattenValue` as a coloured value; the model treats every object as foreign, so under the pretty printer such a received object throws in the model where the source may print it.
- `Pretty.ForeignValueError`: the exact text of the `TypeError` that `flattenValue` throws on reading `.value` of `undefined` or `null` depends on the JavaScript engine; the model uses one fixed message. `Pretty.Print` writes a foreign entry as empty text, but `Printers.PrintError` never calls it on a report holding one.

## Findings

| source | as written | input that shows it | evidently intended | confidence | as-written member | corrected member |
|---|---|---|---|---|---|---|
| newExpect.ts:134-157 | a negated expectation with no reason records a `NegatedAssertionReason` before `passed` is computed as `reason !== null`, so every negated expectation passes | `expect(1).not.toBe(1)` passes | `not` passes only when the matcher reported a failure; `NewExpect.DecisionCorrected` and `NewExpect.CallMatcherCorrected` carry the corrected verdict through a whole matcher call, while `NewExpect.CallMatcher` models the call as written | not executed | NewExpect.ExpectationContext.Assert | NewExpect.ExpectationContext.AssertCorrected |
| expect/formats/trace.ts:47-48 | the "trace" formatter formats its inner error with `this.format(inner)`, but `formatError` calls formatters as plain functions (`formatter(error)`, `expect/formatting/formatter.ts` line 65), so `this` has no `format` | formatting any error of format `"trace"` throws a `TypeError` | the inner error's formatted groups followed by the call log | not executed | Trace.UnboundTraceThrows | Trace.FormatTrace |
