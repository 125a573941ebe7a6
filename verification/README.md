# Log4NetLogger: a Dafny model of the log4net adapter of AddinX.Logging

AddinX.Logging is a logging facade. `Log4NetLogger` implements it on top of a
log4net `ILog`. Every facade call is gated on the level's `IsXEnabled` flag.
A disabled level does nothing. An enabled message, message-factory or
message-with-exception call makes two backend calls at the same level: first a
caller-context line, then the payload. The `*Format` calls forward the format
string and the argument array in one backend call, with no context line.

The context line is `string.Format("File: {0,50} Method:{1,40} Line Number {2,4}", …)`.
Its arguments are the file name of the call site's source path, the calling
member and the line number.

The model is functional and has five modules:

- `Text` (`text.dfy`): right alignment by left padding (`PadLeft`) and its
  inverse `TrimLeft`. It also has the decimal rendering of integers
  (`NatToString`, `IntToString`) and its inverse (`ParseDecimal`, `ParseInt`).
- `Paths` (`paths.dfy`): `FileName`, the model of `Path.GetFileName`.
- `CompositeFormat` (`composite_format.dfy`): the `{index,alignment}` subset of
  .NET composite formatting that the adapter uses. A format is a sequence of
  literal and format items, already parsed. Over such items, `Render` fails
  with `FormatException` exactly when an index has no argument. The errors
  .NET raises while parsing the format string are not modelled.
- `Log4Net` (`log4net.dfy`): the backend `ILog`. It holds the five level flags
  and an append-only trace of events. `Write`, `WriteException` and
  `WriteFormat` are backend calls. `FactoryInvoked` marks one run of a caller's
  message factory. `BackendCalls` and `FactoryInvocations` are the two views of
  a trace.
- `Log4NetLogger` (`log4net_logger.dfy`): `FormatCallerMessage`, the five
  `IsXEnabled` properties, and the generic call `Log(log, level, request)`.
  A call's `Outcome` is the backend afterwards plus the exception that
  escaped to the caller, if any. A message factory either returns its
  message or throws (`FactoryResult`).
  It also holds the twenty public methods, written as the source writes them:
  `Debug`, `DebugFactory` (the `Func<string>` overload), `DebugException`,
  `DebugFormat`, and likewise for `Error`, `Fatal`, `Info` and `Warn`. The
  lemmas `XIsLogAtX` prove that each public method equals `Log` at its own
  level.

Assumptions about the .NET library, which is not part of this model:

- `Path.GetFileName` splits on `/` and `\`.
- An `int` argument renders as its decimal digits, with `-` for a negative value.
- Alignment `{i,w}` with `w >= 0` left-pads with blanks to width `w` and never truncates.

## Model

| member | source | states |
|---|---|---|
| Text.PadLeft | src/Log4NetWrapper/Log4NetLogger.cs:32-34 | an aligned field is max(width, length of value) long: alignment never truncates |
| Text.PadLeftShape | src/Log4NetWrapper/Log4NetLogger.cs:32-34 | an aligned field is blanks followed by the whole value (right alignment) |
| Text.PadLeftTrimLeft | src/Log4NetWrapper/Log4NetLogger.cs:32-34 | trimming leading blanks recovers any value that does not itself start with a blank, whatever the width |
| Text.NatToString | src/Log4NetWrapper/Log4NetLogger.cs:34 | the rendered line number is a non-empty string of digits, with a leading zero only for 0 |
| Text.NatToStringRoundTrip | src/Log4NetWrapper/Log4NetLogger.cs:34 | parsing the decimal rendering gives back the number |
| Text.NatToStringInjective | src/Log4NetWrapper/Log4NetLogger.cs:34 | distinct line numbers render differently |
| Text.NatToStringLength | src/Log4NetWrapper/Log4NetLogger.cs:34 | a numeral fits in k >= 1 characters exactly when the number is below 10^k |
| Text.IntToString | src/Log4NetWrapper/Log4NetLogger.cs:34 | an `int` renders as digits only, with a leading `-` exactly when negative, and in canonical form: at least one digit, no leading zero, and 0 as the single character `0` |
| Text.IntToStringRoundTrip | src/Log4NetWrapper/Log4NetLogger.cs:34 | parsing the signed rendering gives back the integer |
| Text.IntToStringFitsFour | src/Log4NetWrapper/Log4NetLogger.cs:34 | line numbers from -999 to 9999 fit the four-character field |
| Paths.FileName | src/Log4NetWrapper/Log4NetLogger.cs:33 | the file name is never longer than the path |
| Paths.FileNameIsLastSegment | src/Log4NetWrapper/Log4NetLogger.cs:33 | the file name is a suffix of the path, holds no separator, and is preceded by a separator unless it is the whole path |
| Paths.FileNameAfterDirectory | src/Log4NetWrapper/Log4NetLogger.cs:33 | for any directory part ending in a separator (or empty), the file name of directory + name is name |
| Paths.FileNameOfPlainName | src/Log4NetWrapper/Log4NetLogger.cs:33 | a path is its own file name if and only if it holds no separator |
| Paths.FileNameIdempotent | src/Log4NetWrapper/Log4NetLogger.cs:33 | taking the file name twice gives the same as once |
| CompositeFormat.Render | src/Log4NetWrapper/Log4NetLogger.cs:34 | for format items already parsed, formatting succeeds if and only if every item's index names an argument |
| Log4NetLogger.CallerFormatIsSourceLiteral | src/Log4NetWrapper/Log4NetLogger.cs:32 | the modelled format items write back to exactly the format literal `"File: {0,50} Method:{1,40} Line Number {2,4}"` |
| Log4NetLogger.TestFormatIsTestLiteral | src/Test/Log4NetUnitTest/Log4NetUnitTest.cs:39 | the modelled test format items write back to exactly the test's literal `"File: {0,50} Method:{1,40}"` |
| Log4NetLogger.CallerFormatNeedsNoEscape | src/Log4NetWrapper/Log4NetLogger.cs:32 | no literal part of the format holds a brace, so the literal has no `{{`/`}}` escapes |
| Log4NetLogger.RenderCallerFormat | src/Log4NetWrapper/Log4NetLogger.cs:32-34 | the format lays out three arguments right-aligned in fields of 50, 40 and 4 between the literal parts |
| Log4NetLogger.FormatCallerMessage | src/Log4NetWrapper/Log4NetLogger.cs:30-35 | the context line is never shorter than 121 characters, because no field is narrower than its width; its exact layout is stated by `FormatCallerMessageLayout` |
| Log4NetLogger.FormatCallerMessageLayout | src/Log4NetWrapper/Log4NetLogger.cs:30-35 | the context line is "File: " + padded file name (50) + " Method:" + padded member (40) + " Line Number " + padded line number (4) |
| Log4NetLogger.FormatCallerMessageLength | src/Log4NetWrapper/Log4NetLogger.cs:32-34 | the line is 27 characters plus each field's max(width, length); when the values fit, it is always 121 |
| Log4NetLogger.FileFieldHasNoSeparator | src/Log4NetWrapper/Log4NetLogger.cs:33-34 | the file field of the line holds no directory separator |
| Log4NetLogger.PaddedNameHasNoSeparator | src/Log4NetWrapper/Log4NetLogger.cs:33-34 | the padded file name holds no directory separator |
| Log4NetLogger.CallerMessageRoundTrip | src/Log4NetWrapper/Log4NetLogger.cs:30-35 | when the values fit their fields, file name, member and line number can all be read back from the line |
| Log4NetLogger.FormatCallerMessageHasTestRendering | src/Test/Log4NetUnitTest/Log4NetUnitTest.cs:33-48 | for a path without separators, the line starts with the rendering of `"File: {0,50} Method:{1,40}"` of that path and member |
| Log4NetLogger.FormatCallerUnitTest | src/Test/Log4NetUnitTest/Log4NetUnitTest.cs:36-47 | the unit test's values ("FormatCaller_Message", "Log4NetUnitTest.cs", 45) satisfy its containment check |
| Log4NetLogger.EnabledPropertiesReadTheirLevel | src/Log4NetWrapper/Log4NetLogger.cs:12-16 | each `IsXEnabled` property is the backend's flag for level X |
| Log4NetLogger.Log | src/Log4NetWrapper/Log4NetLogger.cs:37-73 | a call leaves the backend unchanged if and only if its level is disabled; otherwise it only appends, keeps the flags, and every appended backend call is at the call's level; an exception escapes exactly when the level is enabled and the call's message factory throws, and it is that factory's exception |
| Log4NetLogger.LogMessage | src/Log4NetWrapper/Log4NetLogger.cs:37-45 | an enabled message call makes exactly two backend calls, the context line then the message; a disabled one makes none; no factory runs and nothing is thrown |
| Log4NetLogger.LogFactory | src/Log4NetWrapper/Log4NetLogger.cs:47-55 | the factory runs once when enabled and never when disabled, after the context line is written; if it returns, the second backend call writes exactly its result; if it throws, the context line is the only backend call and the exception reaches the caller |
| Log4NetLogger.LogMessageException | src/Log4NetWrapper/Log4NetLogger.cs:57-65 | an enabled exception call writes the context line, then the same message with the identical exception object |
| Log4NetLogger.LogFormat | src/Log4NetWrapper/Log4NetLogger.cs:67-73 | an enabled format call makes one backend call carrying the format and the argument array unmodified, with no context line; a disabled one makes none |
| Log4NetLogger.LogConsultsOnlyItsLevel | src/Log4NetWrapper/Log4NetLogger.cs:12-16 | a call at level X reads only the X flag: backends that agree on it record the same trace and throw the same |
| Log4NetLogger.LogIsStateless | src/Log4NetWrapper/Log4NetLogger.cs:10 | what a call appends does not depend on the trace so far; the adapter's only field is the readonly backend handle |
| Log4NetLogger.LogMessageTwice | src/Log4NetWrapper/Log4NetLogger.cs:37-45 | logging the same message twice records the same two backend calls twice |
| Log4NetLogger.DebugIsLogAtDebug | src/Log4NetWrapper/Log4NetLogger.cs:37-73 | `Debug`, `DebugFactory`, `DebugException` and `DebugFormat` are `Log` at level Debug |
| Log4NetLogger.ErrorIsLogAtError | src/Log4NetWrapper/Log4NetLogger.cs:75-111 | the four `Error` methods are `Log` at level Error |
| Log4NetLogger.FatalIsLogAtFatal | src/Log4NetWrapper/Log4NetLogger.cs:113-149 | the four `Fatal` methods are `Log` at level Fatal |
| Log4NetLogger.InfoIsLogAtInfo | src/Log4NetWrapper/Log4NetLogger.cs:151-187 | the four `Info` methods are `Log` at level Info |
| Log4NetLogger.WarnIsLogAtWarn | src/Log4NetWrapper/Log4NetLogger.cs:189-225 | the four `Warn` methods are `Log` at level Warn |
| Log4NetLogger.DebugMessageReachesBackend | src/Test/Log4NetUnitTest/Log4NetUnitTest.cs:51-65 | with Debug enabled, `Debug("Simple Message")` reaches the backend's `Debug("Simple Message")` |
| Log4NetLogger.DebugDisabledMakesNoCall | src/Test/Log4NetUnitTest/Log4NetUnitTest.cs:67-81 | with Debug disabled, no backend call is made |
| Log4NetLogger.DebugFactoryReachesBackend | src/Test/Log4NetUnitTest/Log4NetUnitTest.cs:83-97 | with Debug enabled, a factory returning "Simple Message" leads to the backend's `Debug("Simple Message")` |
| Log4NetLogger.DebugFactoryThrowLeavesContextLine | src/Log4NetWrapper/Log4NetLogger.cs:52-54 | with Debug enabled, a factory that throws leaves the context line as the only backend call and its exception reaches the caller |
| Log4NetLogger.DebugExceptionReachesBackend | src/Test/Log4NetUnitTest/Log4NetUnitTest.cs:99-114 | with Debug enabled, the backend receives `Debug("Exception occurred", ex)` with the same exception |
| Log4NetLogger.DebugFormatReachesBackend | src/Test/Log4NetUnitTest/Log4NetUnitTest.cs:116-130 | with Debug enabled, the backend receives `DebugFormat("Number of Call: {0} occurred", [1])` |

## Left out

- The default constructor `Log4NetLogger()` (src/Log4NetWrapper/Log4NetLogger.cs:23-28). It looks up a process-wide logger and reads the application configuration file. That is global state and I/O. The injecting constructor is modelled by passing the `ILog` value to every function.
- What log4net does with a record: appenders, layouts, and the rendering of `*Format` arguments. Format arguments and exceptions are opaque values in the trace.
- Exceptions raised by the backend, and thread safety. Both are left entirely to log4net. Exceptions thrown by a caller's message factory are modelled.
- Null arguments. A null `memberName` renders as an empty field in .NET and is not modelled; a null message factory is modelled as a factory that throws `NullReferenceException`.
- The Serilog adapter. Its source is not part of this model.
- Paths.FileName: does not model the Windows volume separator `:`, which .NET's `Path.GetFileName` also splits on. Call-site paths are absolute, so their last segment is the same either way. A null path is not modelled either. Nor is the .NET Framework check for invalid path characters (`"`, `<`, `>`, `|` and control characters): there `Path.GetFileName` throws `ArgumentException`, so an enabled message, factory or exception call with such a path throws before any backend call, where the model writes both records. Compiler-supplied call-site paths do not hold these characters.
- CompositeFormat.Render: covers only format items `{index,alignment}` with a non-negative alignment. It has no format-string parsing, no `{{`/`}}` escapes, no negative (left) alignment and no `:format` part. Nor does it model .NET's limit on index and alignment numerals. The .NET parser stops reading digits once the value read reaches 1,000,000 and raises `FormatException` if digits remain, so `{0,10000000}` fails in .NET while the model renders a field of that width. The source's format, with 50, 40 and 4, uses none of these.
- Text.PadLeft: widths and lengths count Unicode scalar values (Dafny characters), not UTF-16 code units as .NET's `String.Length` does. The two differ outside the Basic Multilingual Plane: a file name holding an emoji gets one blank more in the model than in .NET. Lone surrogates, which .NET strings can hold, cannot be written at all.
- Text.IntToString: assumes the current culture's negative sign is `-`.
- Log4NetLogger.Log: the backend flags are an input value read once per call. A flag that changes during a call is not modelled, and the source reads it only once per call anyway.
