/** Stack frames and the execution context an assertion reports its location with. */
module Execution {
  import opened Wrappers
  import opened Text

  /** A JavaScript number as `parseInt` produces it: an integer or `NaN`. */
  datatype Number = Int(value: int) | NaN

  /** `n.toString()` */
  function NumberText(n: Number): string {
    match n
    case Int(i) => IntToString(i)
    case NaN => "NaN"
  }

  datatype StackFrame = StackFrame(
    functionName: string, filePath: string, fileName: string,
    lineNumber: Number, columnNumber: Number)

  datatype ExecutionContext = ExecutionContext(
    filePath: string, fileName: string, lineNumber: Number, columnNumber: Number, at: string)

  /** The location text `filePath:lineNumber:columnNumber`. */
  function Location(filePath: string, line: Number, column: Number): string {
    filePath + ":" + NumberText(line) + ":" + NumberText(column)
  }

  /**
   * `captureExecutionContext(st)`: nothing without a caller frame; otherwise
   * the second frame, `st[1]`, with its location.
   */
  function CaptureExecutionContext(st: Option<seq<StackFrame>>): (r: Option<ExecutionContext>)
    ensures r.None? <==> st.None? || |st.value| <= 1
    ensures r.Some? ==>
      var frame := st.value[1];
      && r.value.filePath == frame.filePath && r.value.fileName == frame.fileName
      && r.value.lineNumber == frame.lineNumber && r.value.columnNumber == frame.columnNumber
      && r.value.at == Location(frame.filePath, frame.lineNumber, frame.columnNumber)
  {
    if st.None? || |st.value| <= 1 then None
    else
      var frame := st.value[1];
      Some(ExecutionContext(frame.filePath, frame.fileName, frame.lineNumber, frame.columnNumber,
        Location(frame.filePath, frame.lineNumber, frame.columnNumber)))
  }

  /** The first frame, the matcher itself, never decides the context. */
  lemma FirstFrameIgnored(a: StackFrame, b: StackFrame, rest: seq<StackFrame>)
    ensures CaptureExecutionContext(Some([a, b] + rest)) == CaptureExecutionContext(Some([b, b] + rest))
  {
  }
}
