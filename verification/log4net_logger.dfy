/**
 `Log4NetLogger`, the adapter from the logging facade onto a log4net `ILog`.

 Every facade call first asks the backend whether its level is enabled. A
 disabled level is a silent no-op. An enabled message, message-factory or
 message-with-exception call makes two backend calls at that level: a
 caller-context line (`FormatCallerMessage`), then the payload. A `*Format`
 call makes one backend call and no context line.

 The twenty public methods are written here as the source writes them, each
 with its own flag and its own backend method; `Log` is the one generic
 definition they all instantiate, and the `…IsLogAt…` lemmas prove that.
 */
module Log4NetLogger {
  import opened Text
  import opened Paths
  import opened CompositeFormat
  import opened Log4Net

  /* ---------------- Caller-context line ---------------- */

  /** `"File: {0,50} Method:{1,40} Line Number {2,4}"`, as format items. */
  const CallerFormat: seq<Item> :=
    [Literal("File: "), Hole(0, 50), Literal(" Method:"), Hole(1, 40), Literal(" Line Number "), Hole(2, 4)]

  /** The format the unit test renders and looks for in the context line. */
  const TestFormat: seq<Item> :=
    [Literal("File: "), Hole(0, 50), Literal(" Method:"), Hole(1, 40)]

  /** `CallerFormat` is exactly the format literal of the source. */
  lemma CallerFormatIsSourceLiteral()
    ensures Unparse(CallerFormat) == "File: {0,50} Method:{1,40} Line Number {2,4}"
  {
    UnparseCallerFormat();
    SourceLiteralPieces();
  }

  /** `TestFormat` is exactly the format literal of the unit test. */
  lemma TestFormatIsTestLiteral()
    ensures Unparse(TestFormat) == "File: {0,50} Method:{1,40}"
  {
    var f := TestFormat;
    HoleTexts();
    assert f[3..][1..] == [] && f[2..][1..] == f[3..] && f[1..][1..] == f[2..];
    assert Unparse(f[3..]) == "{1,40}";
    assert Unparse(f[2..]) == " Method:" + "{1,40}";
    assert Unparse(f[1..]) == "{0,50}" + Unparse(f[2..]);
    assert "File: " + "{0,50}" == "File: {0,50}";
    assert "File: {0,50}" + " Method:" == "File: {0,50} Method:";
    assert "File: {0,50} Method:" + "{1,40}" == "File: {0,50} Method:{1,40}";
  }

  /** Its literal parts hold no brace, so the source literal needs no escape. */
  lemma CallerFormatNeedsNoEscape()
    ensures PlainLiterals(CallerFormat)
  {
    assert NoBrace("File: ") && NoBrace(" Method:") && NoBrace(" Line Number ");
  }

  lemma UnparseCallerFormat()
    ensures Unparse(CallerFormat) == "File: " + "{0,50}" + " Method:" + "{1,40}" + " Line Number " + "{2,4}"
  {
    var f := CallerFormat;
    HoleTexts();
    assert f[5..][1..] == [] && f[4..][1..] == f[5..] && f[3..][1..] == f[4..];
    assert f[2..][1..] == f[3..] && f[1..][1..] == f[2..];
    assert Unparse(f[5..]) == "{2,4}";
    assert Unparse(f[4..]) == " Line Number " + "{2,4}";
    assert Unparse(f[3..]) == "{1,40}" + Unparse(f[4..]);
    assert Unparse(f[2..]) == " Method:" + Unparse(f[3..]);
    assert Unparse(f[1..]) == "{0,50}" + Unparse(f[2..]);
  }

  lemma HoleTexts()
    ensures ItemText(Hole(0, 50)) == "{0,50}"
    ensures ItemText(Hole(1, 40)) == "{1,40}"
    ensures ItemText(Hole(2, 4)) == "{2,4}"
  {
    assert NatToString(50) == "50" by { assert NatToString(5) == "5"; }
    assert NatToString(40) == "40" by { assert NatToString(4) == "4"; }
  }

  lemma SourceLiteralPieces()
    ensures "File: " + "{0,50}" + " Method:" + "{1,40}" + " Line Number " + "{2,4}"
         == "File: {0,50} Method:{1,40} Line Number {2,4}"
  {
    assert "File: " + "{0,50}" == "File: {0,50}";
    assert "File: {0,50}" + " Method:" == "File: {0,50} Method:";
    assert "File: {0,50} Method:" + "{1,40}" == "File: {0,50} Method:{1,40}";
    assert "File: {0,50} Method:{1,40}" + " Line Number " == "File: {0,50} Method:{1,40} Line Number ";
  }

  /** Rendering `CallerFormat` lays its three arguments out right-aligned in
      fields of 50, 40 and 4 characters between the literal parts. */
  lemma RenderCallerFormat(args: seq<string>)
    requires |args| == 3
    ensures Render(CallerFormat, args)
         == Rendered("File: " + PadLeft(args[0], 50) + " Method:" + PadLeft(args[1], 40)
                     + " Line Number " + PadLeft(args[2], 4))
  {
    var last := [Literal(" Line Number "), Hole(2, 4)] + [];
    var middle := [Literal(" Method:"), Hole(1, 40)] + last;
    assert CallerFormat == [Literal("File: "), Hole(0, 50)] + middle;
    RenderLiteralThenHole(" Line Number ", 2, 4, [], args);
    RenderLiteralThenHole(" Method:", 1, 40, last, args);
    RenderLiteralThenHole("File: ", 0, 50, middle, args);
    ConcatAssociates("File: ", PadLeft(args[0], 50), " Method:", PadLeft(args[1], 40), " Line Number ", PadLeft(args[2], 4));
  }

  lemma RenderTestFormat(args: seq<string>)
    requires |args| == 2
    ensures Render(TestFormat, args) == Rendered("File: " + PadLeft(args[0], 50) + " Method:" + PadLeft(args[1], 40))
  {
    var last := [Literal(" Method:"), Hole(1, 40)] + [];
    assert TestFormat == [Literal("File: "), Hole(0, 50)] + last;
    RenderLiteralThenHole(" Method:", 1, 40, [], args);
    RenderLiteralThenHole("File: ", 0, 50, last, args);
    ConcatAssociates("File: ", PadLeft(args[0], 50), " Method:", PadLeft(args[1], 40), "", "");
  }

  /** The caller-context line: the file name (path stripped), the member
      and the line number, right-aligned in fields of 50, 40 and 4. */
  function FormatCallerMessage(memberName: string, sourceFilePath: string, sourceLineNumber: Int32): (r: string)
    ensures |r| >= 121
  {
    var fileName := FileName(sourceFilePath);
    var args := [fileName, memberName, IntToString(sourceLineNumber)];
    RenderCallerFormat(args);
    Render(CallerFormat, args).text
  }

  /** The line is the three values laid out between the literal parts. */
  lemma FormatCallerMessageLayout(memberName: string, sourceFilePath: string, sourceLineNumber: Int32)
    ensures FormatCallerMessage(memberName, sourceFilePath, sourceLineNumber)
         == "File: " + PadLeft(FileName(sourceFilePath), 50) + " Method:" + PadLeft(memberName, 40)
            + " Line Number " + PadLeft(IntToString(sourceLineNumber), 4)
  {
    RenderCallerFormat([FileName(sourceFilePath), memberName, IntToString(sourceLineNumber)]);
  }

  /** No field is ever cut short; with a file name of at most 50, a member of
      at most 40 and a line number of at most four characters the line is
      always 121 characters long. */
  lemma FormatCallerMessageLength(memberName: string, sourceFilePath: string, sourceLineNumber: Int32)
    ensures |FormatCallerMessage(memberName, sourceFilePath, sourceLineNumber)|
         == 27 + Max(50, |FileName(sourceFilePath)|) + Max(40, |memberName|) + Max(4, |IntToString(sourceLineNumber)|)
    ensures |FileName(sourceFilePath)| <= 50 && |memberName| <= 40 && -999 <= sourceLineNumber <= 9999
         ==> |FormatCallerMessage(memberName, sourceFilePath, sourceLineNumber)| == 121
  {
    FormatCallerMessageLayout(memberName, sourceFilePath, sourceLineNumber);
    if -999 <= sourceLineNumber <= 9999 {
      IntToStringFitsFour(sourceLineNumber);
    }
  }

  /** The file field holds the file name and blanks only: no directory
      separator of the path survives. */
  lemma FileFieldHasNoSeparator(memberName: string, sourceFilePath: string, sourceLineNumber: Int32)
    ensures var r := FormatCallerMessage(memberName, sourceFilePath, sourceLineNumber);
            var width := Max(50, |FileName(sourceFilePath)|);
            |r| >= 6 + width && NoSeparator(r[6..6 + width])
  {
    FormatCallerMessageLayout(memberName, sourceFilePath, sourceLineNumber);
    var field := PadLeft(FileName(sourceFilePath), 50);
    SixParts("File: ", field, " Method:", PadLeft(memberName, 40), " Line Number ", PadLeft(IntToString(sourceLineNumber), 4));
    PaddedNameHasNoSeparator(FileName(sourceFilePath), sourceFilePath);
  }

  lemma PaddedNameHasNoSeparator(name: string, path: string)
    requires name == FileName(path)
    ensures NoSeparator(PadLeft(name, 50))
  {
    FileNameIsLastSegment(path);
    PadLeftShape(name, 50);
    var field := PadLeft(name, 50);
    var blanks := |field| - |name|;
    forall i | 0 <= i < |field|
      ensures !IsSeparator(field[i])
    {
      if i >= blanks {
        assert field[i] == field[blanks..][i - blanks] == name[i - blanks];
      }
    }
  }

  /** For a path without separators, the line starts with what the unit
      test's `"File: {0,50} Method:{1,40}"` renders from path and member. */
  lemma FormatCallerMessageHasTestRendering(memberName: string, sourceFilePath: string, sourceLineNumber: Int32)
    requires NoSeparator(sourceFilePath)
    ensures Render(TestFormat, [sourceFilePath, memberName]).Rendered?
    ensures Render(TestFormat, [sourceFilePath, memberName]).text
         <= FormatCallerMessage(memberName, sourceFilePath, sourceLineNumber)
  {
    FormatCallerMessageLayout(memberName, sourceFilePath, sourceLineNumber);
    RenderTestFormat([sourceFilePath, memberName]);
    FileNameOfPlainName(sourceFilePath);
  }

  /** The unit test's own values. */
  lemma FormatCallerUnitTest()
    ensures Render(TestFormat, ["Log4NetUnitTest.cs", "FormatCaller_Message"]).text
         <= FormatCallerMessage("FormatCaller_Message", "Log4NetUnitTest.cs", 45)
  {
    FormatCallerMessageHasTestRendering("FormatCaller_Message", "Log4NetUnitTest.cs", 45);
  }

  datatype Option<T> = None | Some(value: T)

  /** The three fields of a context line, blanks trimmed. */
  datatype CallerFields = CallerFields(fileName: string, memberName: string, lineNumber: string)

  /** Reads the fields back out of a fixed-width (121-character) context line. */
  function ParseCallerMessage(s: string): Option<CallerFields> {
    if |s| == 121 && s[..6] == "File: " && s[56..64] == " Method:" && s[104..117] == " Line Number "
    then Some(CallerFields(TrimLeft(s[6..56]), TrimLeft(s[64..104]), TrimLeft(s[117..121])))
    else None
  }

  /** Any line laid out with fields of exactly 50, 40 and 4 characters
      parses into those fields, blanks trimmed. */
  lemma ParseLaidOutLine(fileField: string, memberField: string, lineField: string)
    requires |fileField| == 50 && |memberField| == 40 && |lineField| == 4
    ensures ParseCallerMessage("File: " + fileField + " Method:" + memberField + " Line Number " + lineField)
         == Some(CallerFields(TrimLeft(fileField), TrimLeft(memberField), TrimLeft(lineField)))
  {
    var r := "File: " + fileField + " Method:" + memberField + " Line Number " + lineField;
    SixParts("File: ", fileField, " Method:", memberField, " Line Number ", lineField);
    assert |r| == 121;
    assert r[..6] == "File: " && r[6..56] == fileField && r[56..64] == " Method:";
    assert r[64..104] == memberField && r[104..117] == " Line Number " && r[117..] == lineField;
    assert r[117..121] == r[117..];
  }

  /** When the values fit their fields, the context line loses nothing:
      file name, member and line number can all be read back from it. */
  lemma CallerMessageRoundTrip(memberName: string, sourceFilePath: string, sourceLineNumber: Int32)
    requires |FileName(sourceFilePath)| <= 50 && |memberName| <= 40 && -999 <= sourceLineNumber <= 9999
    requires NoLeadingSpace(FileName(sourceFilePath)) && NoLeadingSpace(memberName)
    ensures ParseCallerMessage(FormatCallerMessage(memberName, sourceFilePath, sourceLineNumber))
         == Some(CallerFields(FileName(sourceFilePath), memberName, IntToString(sourceLineNumber)))
    ensures ParseInt(IntToString(sourceLineNumber)) == sourceLineNumber
  {
    var fileName := FileName(sourceFilePath);
    var lineText := IntToString(sourceLineNumber);
    IntToStringFitsFour(sourceLineNumber);
    FormatCallerMessageLayout(memberName, sourceFilePath, sourceLineNumber);
    ParseLaidOutLine(PadLeft(fileName, 50), PadLeft(memberName, 40), PadLeft(lineText, 4));
    PadLeftTrimLeft(fileName, 50);
    PadLeftTrimLeft(memberName, 40);
    PadLeftTrimLeft(lineText, 4);
    IntToStringRoundTrip(sourceLineNumber);
  }

  /* ---------------- Level flags ---------------- */

  function IsDebugEnabled(log: ILog): bool { log.flags.isDebugEnabled }
  function IsErrorEnabled(log: ILog): bool { log.flags.isErrorEnabled }
  function IsFatalEnabled(log: ILog): bool { log.flags.isFatalEnabled }
  function IsInfoEnabled(log: ILog): bool { log.flags.isInfoEnabled }
  function IsWarnEnabled(log: ILog): bool { log.flags.isWarnEnabled }

  /** Each public `IsXEnabled` property is the backend's flag for level X. */
  lemma EnabledPropertiesReadTheirLevel(log: ILog)
    ensures IsDebugEnabled(log) == IsEnabled(log.flags, Level.Debug)
    ensures IsErrorEnabled(log) == IsEnabled(log.flags, Level.Error)
    ensures IsFatalEnabled(log) == IsEnabled(log.flags, Level.Fatal)
    ensures IsInfoEnabled(log) == IsEnabled(log.flags, Level.Info)
    ensures IsWarnEnabled(log) == IsEnabled(log.flags, Level.Warn)
  {
  }

  /* ---------------- The generic call ---------------- */

  /** Where a call was made, as the compiler fills it in at the call site. */
  datatype Caller = Caller(memberName: string, sourceFilePath: string, sourceLineNumber: Int32)

  function ContextLine(caller: Caller): string {
    FormatCallerMessage(caller.memberName, caller.sourceFilePath, caller.sourceLineNumber)
  }

  /** What running a message factory (`Func<string>.Invoke()`) does: it
      returns the message or throws. A null factory is one that throws
      `NullReferenceException`. */
  datatype FactoryResult = Returns(message: string) | Throws(exception: Exception)

  /** The four shapes of facade call. */
  datatype Request =
    | Message(message: string, caller: Caller)
    | Factory(messageFactory: () -> FactoryResult, caller: Caller)
    | MessageException(message: string, exception: Exception, caller: Caller)
    | Format(format: string, args: seq<Arg>)

  /** How a facade call ends: the backend afterwards, and the exception that
      escaped to the caller, if any. */
  datatype Outcome = Outcome(log: ILog, thrown: Option<Exception>)

  /** Whether `request` runs a factory that throws. */
  predicate FactoryThrows(request: Request) {
    request.Factory? && request.messageFactory().Throws?
  }

  /** One facade call at `level`: gated once on the level's flag, then the
      context line (not for `Format`) and the payload, both at `level`. A
      factory that throws leaves the context line written and no payload,
      and its exception reaches the caller. */
  function Log(log: ILog, level: Level, request: Request): (r: Outcome)
    ensures r.log.flags == log.flags
    ensures log.trace <= r.log.trace
    ensures r.log == log <==> !IsEnabled(log.flags, level)
    ensures forall i :: |log.trace| <= i < |r.log.trace| ==> r.log.trace[i].FactoryInvoked? || r.log.trace[i].level == level
    ensures r.thrown.Some? <==> IsEnabled(log.flags, level) && FactoryThrows(request)
    ensures r.thrown.Some? ==> r.thrown.value == request.messageFactory().exception
  {
    if !IsEnabled(log.flags, level) then Outcome(log, None)
    else
      match request
      case Message(message, caller) =>
        var withContext := Emit(log, Write(level, ContextLine(caller)));
        Outcome(Emit(withContext, Write(level, message)), None)
      case Factory(messageFactory, caller) =>
        var withContext := Emit(log, Write(level, ContextLine(caller)));
        var invoked := Emit(withContext, FactoryInvoked);
        (match messageFactory()
         case Returns(message) => Outcome(Emit(invoked, Write(level, message)), None)
         case Throws(exception) => Outcome(invoked, Some(exception)))
      case MessageException(message, exception, caller) =>
        var withContext := Emit(log, Write(level, ContextLine(caller)));
        Outcome(Emit(withContext, WriteException(level, message, exception)), None)
      case Format(format, args) =>
        Outcome(Emit(log, WriteFormat(level, format, args)), None)
  }

  /** What one call added to the trace. */
  function Appended(log: ILog, level: Level, request: Request): seq<Event> {
    Log(log, level, request).log.trace[|log.trace|..]
  }

  lemma BackendCallsOfAppended(log: ILog, level: Level, request: Request)
    ensures BackendCalls(Log(log, level, request).log.trace)
         == BackendCalls(log.trace) + BackendCalls(Appended(log, level, request))
    ensures FactoryInvocations(Log(log, level, request).log.trace)
         == FactoryInvocations(log.trace) + FactoryInvocations(Appended(log, level, request))
  {
    var r := Log(log, level, request);
    assert r.log.trace == log.trace + Appended(log, level, request);
    BackendCallsAppend(log.trace, Appended(log, level, request));
    FactoryInvocationsAppend(log.trace, Appended(log, level, request));
  }

  /** Message call: when enabled, exactly two backend calls, the context line
      first and the message second; no factory runs and nothing is thrown. */
  lemma LogMessage(log: ILog, level: Level, message: string, caller: Caller)
    ensures var r := Log(log, level, Message(message, caller));
            && r.thrown == None
            && FactoryInvocations(r.log.trace) == FactoryInvocations(log.trace)
            && BackendCalls(r.log.trace)
               == BackendCalls(log.trace)
                  + (if IsEnabled(log.flags, level) then [Write(level, ContextLine(caller)), Write(level, message)] else [])
  {
    var request := Message(message, caller);
    BackendCallsOfAppended(log, level, request);
    if IsEnabled(log.flags, level) {
      assert Appended(log, level, request) == [Write(level, ContextLine(caller)), Write(level, message)];
      OnlyBackendCalls(Appended(log, level, request));
    } else {
      assert Appended(log, level, request) == [];
    }
  }

  /** Factory call: the factory runs once when the level is enabled and never
      otherwise, after the context line is written. If it returns, the
      message written next is exactly its result; if it throws, the context
      line stays without a payload and the exception reaches the caller. */
  lemma LogFactory(log: ILog, level: Level, messageFactory: () -> FactoryResult, caller: Caller)
    ensures var r := Log(log, level, Factory(messageFactory, caller));
            && FactoryInvocations(r.log.trace) == FactoryInvocations(log.trace) + (if IsEnabled(log.flags, level) then 1 else 0)
            && BackendCalls(r.log.trace)
               == BackendCalls(log.trace)
                  + (if !IsEnabled(log.flags, level) then []
                     else [Write(level, ContextLine(caller))]
                          + (if messageFactory().Returns? then [Write(level, messageFactory().message)] else []))
            && r.thrown
               == (if IsEnabled(log.flags, level) && messageFactory().Throws? then Some(messageFactory().exception) else None)
    ensures IsEnabled(log.flags, level)
        ==> Appended(log, level, Factory(messageFactory, caller))
            == [Write(level, ContextLine(caller)), FactoryInvoked]
               + (if messageFactory().Returns? then [Write(level, messageFactory().message)] else [])
  {
    var request := Factory(messageFactory, caller);
    BackendCallsOfAppended(log, level, request);
    if IsEnabled(log.flags, level) {
      var context := Write(level, ContextLine(caller));
      match messageFactory()
      case Returns(message) =>
        assert Appended(log, level, request) == [context, FactoryInvoked, Write(level, message)];
        MarkerBetweenCalls(context, Write(level, message));
      case Throws(exception) =>
        assert Appended(log, level, request) == [context, FactoryInvoked];
        MarkerAfterCall(context);
    } else {
      assert Appended(log, level, request) == [];
    }
  }

  /** Message-with-exception call: the same message and the identical
      exception object reach the backend in the second call. */
  lemma LogMessageException(log: ILog, level: Level, message: string, exception: Exception, caller: Caller)
    ensures var r := Log(log, level, MessageException(message, exception, caller));
            && r.thrown == None
            && FactoryInvocations(r.log.trace) == FactoryInvocations(log.trace)
            && BackendCalls(r.log.trace)
               == BackendCalls(log.trace)
                  + (if IsEnabled(log.flags, level)
                     then [Write(level, ContextLine(caller)), WriteException(level, message, exception)]
                     else [])
  {
    var request := MessageException(message, exception, caller);
    BackendCallsOfAppended(log, level, request);
    if IsEnabled(log.flags, level) {
      assert Appended(log, level, request)
          == [Write(level, ContextLine(caller)), WriteException(level, message, exception)];
      OnlyBackendCalls(Appended(log, level, request));
    } else {
      assert Appended(log, level, request) == [];
    }
  }

  /** Format call: one backend call carrying the format string and the
      argument array unmodified, and no context line before it. */
  lemma LogFormat(log: ILog, level: Level, format: string, args: seq<Arg>)
    ensures var r := Log(log, level, Format(format, args));
            && r.thrown == None
            && FactoryInvocations(r.log.trace) == FactoryInvocations(log.trace)
            && BackendCalls(r.log.trace)
               == BackendCalls(log.trace) + (if IsEnabled(log.flags, level) then [WriteFormat(level, format, args)] else [])
  {
    var request := Format(format, args);
    BackendCallsOfAppended(log, level, request);
    if IsEnabled(log.flags, level) {
      assert Appended(log, level, request) == [WriteFormat(level, format, args)];
      OnlyBackendCalls(Appended(log, level, request));
    } else {
      assert Appended(log, level, request) == [];
    }
  }

  /** A call at `level` reads no flag but its own: backends that agree on
      that one flag record the same trace and throw the same. */
  lemma LogConsultsOnlyItsLevel(flags: Flags, other: Flags, trace: seq<Event>, level: Level, request: Request)
    requires IsEnabled(flags, level) == IsEnabled(other, level)
    ensures Log(ILog(flags, trace), level, request).log.trace == Log(ILog(other, trace), level, request).log.trace
    ensures Log(ILog(flags, trace), level, request).thrown == Log(ILog(other, trace), level, request).thrown
  {
  }

  /** The adapter keeps no state: what a call appends does not depend on
      what is already in the trace. */
  lemma LogIsStateless(log: ILog, level: Level, request: Request)
    ensures Log(log, level, request).log.trace == log.trace + Log(log.(trace := []), level, request).log.trace
  {
  }

  /** Logging the same message twice records the same two calls twice. */
  lemma LogMessageTwice(log: ILog, level: Level, message: string, caller: Caller)
    requires IsEnabled(log.flags, level)
    ensures var once := [Write(level, ContextLine(caller)), Write(level, message)];
            Log(Log(log, level, Message(message, caller)).log, level, Message(message, caller)).log.trace
            == log.trace + once + once
  {
  }

  /* ---------------- The twenty public methods ---------------- */

  function Debug(log: ILog, message: string, memberName: string, sourceFilePath: string, sourceLineNumber: Int32): Outcome {
    if !IsDebugEnabled(log) then Outcome(log, None)
    else
      var logged := Emit(log, Write(Level.Debug, FormatCallerMessage(memberName, sourceFilePath, sourceLineNumber)));
      Outcome(Emit(logged, Write(Level.Debug, message)), None)
  }

  function DebugFactory(log: ILog, messageFactory: () -> FactoryResult, memberName: string, sourceFilePath: string, sourceLineNumber: Int32): Outcome {
    if !IsDebugEnabled(log) then Outcome(log, None)
    else
      var logged := Emit(log, Write(Level.Debug, FormatCallerMessage(memberName, sourceFilePath, sourceLineNumber)));
      var invoked := Emit(logged, FactoryInvoked);
      match messageFactory()
      case Returns(message) => Outcome(Emit(invoked, Write(Level.Debug, message)), None)
      case Throws(exception) => Outcome(invoked, Some(exception))
  }

  function DebugException(log: ILog, message: string, exception: Exception, memberName: string, sourceFilePath: string, sourceLineNumber: Int32): Outcome {
    if !IsDebugEnabled(log) then Outcome(log, None)
    else
      var logged := Emit(log, Write(Level.Debug, FormatCallerMessage(memberName, sourceFilePath, sourceLineNumber)));
      Outcome(Emit(logged, WriteException(Level.Debug, message, exception)), None)
  }

  function DebugFormat(log: ILog, format: string, args: seq<Arg>): Outcome {
    if IsDebugEnabled(log) then Outcome(Emit(log, WriteFormat(Level.Debug, format, args)), None) else Outcome(log, None)
  }

  function Error(log: ILog, message: string, memberName: string, sourceFilePath: string, sourceLineNumber: Int32): Outcome {
    if !IsErrorEnabled(log) then Outcome(log, None)
    else
      var logged := Emit(log, Write(Level.Error, FormatCallerMessage(memberName, sourceFilePath, sourceLineNumber)));
      Outcome(Emit(logged, Write(Level.Error, message)), None)
  }

  function ErrorFactory(log: ILog, messageFactory: () -> FactoryResult, memberName: string, sourceFilePath: string, sourceLineNumber: Int32): Outcome {
    if !IsErrorEnabled(log) then Outcome(log, None)
    else
      var logged := Emit(log, Write(Level.Error, FormatCallerMessage(memberName, sourceFilePath, sourceLineNumber)));
      var invoked := Emit(logged, FactoryInvoked);
      match messageFactory()
      case Returns(message) => Outcome(Emit(invoked, Write(Level.Error, message)), None)
      case Throws(exception) => Outcome(invoked, Some(exception))
  }

  function ErrorException(log: ILog, message: string, exception: Exception, memberName: string, sourceFilePath: string, sourceLineNumber: Int32): Outcome {
    if !IsErrorEnabled(log) then Outcome(log, None)
    else
      var logged := Emit(log, Write(Level.Error, FormatCallerMessage(memberName, sourceFilePath, sourceLineNumber)));
      Outcome(Emit(logged, WriteException(Level.Error, message, exception)), None)
  }

  function ErrorFormat(log: ILog, format: string, args: seq<Arg>): Outcome {
    if IsErrorEnabled(log) then Outcome(Emit(log, WriteFormat(Level.Error, format, args)), None) else Outcome(log, None)
  }

  function Fatal(log: ILog, message: string, memberName: string, sourceFilePath: string, sourceLineNumber: Int32): Outcome {
    if !IsFatalEnabled(log) then Outcome(log, None)
    else
      var logged := Emit(log, Write(Level.Fatal, FormatCallerMessage(memberName, sourceFilePath, sourceLineNumber)));
      Outcome(Emit(logged, Write(Level.Fatal, message)), None)
  }

  function FatalFactory(log: ILog, messageFactory: () -> FactoryResult, memberName: string, sourceFilePath: string, sourceLineNumber: Int32): Outcome {
    if !IsFatalEnabled(log) then Outcome(log, None)
    else
      var logged := Emit(log, Write(Level.Fatal, FormatCallerMessage(memberName, sourceFilePath, sourceLineNumber)));
      var invoked := Emit(logged, FactoryInvoked);
      match messageFactory()
      case Returns(message) => Outcome(Emit(invoked, Write(Level.Fatal, message)), None)
      case Throws(exception) => Outcome(invoked, Some(exception))
  }

  function FatalException(log: ILog, message: string, exception: Exception, memberName: string, sourceFilePath: string, sourceLineNumber: Int32): Outcome {
    if !IsFatalEnabled(log) then Outcome(log, None)
    else
      var logged := Emit(log, Write(Level.Fatal, FormatCallerMessage(memberName, sourceFilePath, sourceLineNumber)));
      Outcome(Emit(logged, WriteException(Level.Fatal, message, exception)), None)
  }

  function FatalFormat(log: ILog, format: string, args: seq<Arg>): Outcome {
    if IsFatalEnabled(log) then Outcome(Emit(log, WriteFormat(Level.Fatal, format, args)), None) else Outcome(log, None)
  }

  function Info(log: ILog, message: string, memberName: string, sourceFilePath: string, sourceLineNumber: Int32): Outcome {
    if !IsInfoEnabled(log) then Outcome(log, None)
    else
      var logged := Emit(log, Write(Level.Info, FormatCallerMessage(memberName, sourceFilePath, sourceLineNumber)));
      Outcome(Emit(logged, Write(Level.Info, message)), None)
  }

  function InfoFactory(log: ILog, messageFactory: () -> FactoryResult, memberName: string, sourceFilePath: string, sourceLineNumber: Int32): Outcome {
    if !IsInfoEnabled(log) then Outcome(log, None)
    else
      var logged := Emit(log, Write(Level.Info, FormatCallerMessage(memberName, sourceFilePath, sourceLineNumber)));
      var invoked := Emit(logged, FactoryInvoked);
      match messageFactory()
      case Returns(message) => Outcome(Emit(invoked, Write(Level.Info, message)), None)
      case Throws(exception) => Outcome(invoked, Some(exception))
  }

  function InfoException(log: ILog, message: string, exception: Exception, memberName: string, sourceFilePath: string, sourceLineNumber: Int32): Outcome {
    if !IsInfoEnabled(log) then Outcome(log, None)
    else
      var logged := Emit(log, Write(Level.Info, FormatCallerMessage(memberName, sourceFilePath, sourceLineNumber)));
      Outcome(Emit(logged, WriteException(Level.Info, message, exception)), None)
  }

  function InfoFormat(log: ILog, format: string, args: seq<Arg>): Outcome {
    if IsInfoEnabled(log) then Outcome(Emit(log, WriteFormat(Level.Info, format, args)), None) else Outcome(log, None)
  }

  function Warn(log: ILog, message: string, memberName: string, sourceFilePath: string, sourceLineNumber: Int32): Outcome {
    if !IsWarnEnabled(log) then Outcome(log, None)
    else
      var logged := Emit(log, Write(Level.Warn, FormatCallerMessage(memberName, sourceFilePath, sourceLineNumber)));
      Outcome(Emit(logged, Write(Level.Warn, message)), None)
  }

  function WarnFactory(log: ILog, messageFactory: () -> FactoryResult, memberName: string, sourceFilePath: string, sourceLineNumber: Int32): Outcome {
    if !IsWarnEnabled(log) then Outcome(log, None)
    else
      var logged := Emit(log, Write(Level.Warn, FormatCallerMessage(memberName, sourceFilePath, sourceLineNumber)));
      var invoked := Emit(logged, FactoryInvoked);
      match messageFactory()
      case Returns(message) => Outcome(Emit(invoked, Write(Level.Warn, message)), None)
      case Throws(exception) => Outcome(invoked, Some(exception))
  }

  function WarnException(log: ILog, message: string, exception: Exception, memberName: string, sourceFilePath: string, sourceLineNumber: Int32): Outcome {
    if !IsWarnEnabled(log) then Outcome(log, None)
    else
      var logged := Emit(log, Write(Level.Warn, FormatCallerMessage(memberName, sourceFilePath, sourceLineNumber)));
      Outcome(Emit(logged, WriteException(Level.Warn, message, exception)), None)
  }

  function WarnFormat(log: ILog, format: string, args: seq<Arg>): Outcome {
    if IsWarnEnabled(log) then Outcome(Emit(log, WriteFormat(Level.Warn, format, args)), None) else Outcome(log, None)
  }

  /* ---------------- Each public method is `Log` at its own level ---------------- */

  lemma DebugIsLogAtDebug(
    log: ILog, message: string, messageFactory: () -> FactoryResult, exception: Exception,
    format: string, args: seq<Arg>, memberName: string, sourceFilePath: string, sourceLineNumber: Int32)
    ensures var caller := Caller(memberName, sourceFilePath, sourceLineNumber);
            && Debug(log, message, memberName, sourceFilePath, sourceLineNumber)
               == Log(log, Level.Debug, Message(message, caller))
            && DebugFactory(log, messageFactory, memberName, sourceFilePath, sourceLineNumber)
               == Log(log, Level.Debug, Factory(messageFactory, caller))
            && DebugException(log, message, exception, memberName, sourceFilePath, sourceLineNumber)
               == Log(log, Level.Debug, MessageException(message, exception, caller))
            && DebugFormat(log, format, args) == Log(log, Level.Debug, Format(format, args))
  {
  }

  lemma ErrorIsLogAtError(
    log: ILog, message: string, messageFactory: () -> FactoryResult, exception: Exception,
    format: string, args: seq<Arg>, memberName: string, sourceFilePath: string, sourceLineNumber: Int32)
    ensures var caller := Caller(memberName, sourceFilePath, sourceLineNumber);
            && Error(log, message, memberName, sourceFilePath, sourceLineNumber)
               == Log(log, Level.Error, Message(message, caller))
            && ErrorFactory(log, messageFactory, memberName, sourceFilePath, sourceLineNumber)
               == Log(log, Level.Error, Factory(messageFactory, caller))
            && ErrorException(log, message, exception, memberName, sourceFilePath, sourceLineNumber)
               == Log(log, Level.Error, MessageException(message, exception, caller))
            && ErrorFormat(log, format, args) == Log(log, Level.Error, Format(format, args))
  {
  }

  lemma FatalIsLogAtFatal(
    log: ILog, message: string, messageFactory: () -> FactoryResult, exception: Exception,
    format: string, args: seq<Arg>, memberName: string, sourceFilePath: string, sourceLineNumber: Int32)
    ensures var caller := Caller(memberName, sourceFilePath, sourceLineNumber);
            && Fatal(log, message, memberName, sourceFilePath, sourceLineNumber)
               == Log(log, Level.Fatal, Message(message, caller))
            && FatalFactory(log, messageFactory, memberName, sourceFilePath, sourceLineNumber)
               == Log(log, Level.Fatal, Factory(messageFactory, caller))
            && FatalException(log, message, exception, memberName, sourceFilePath, sourceLineNumber)
               == Log(log, Level.Fatal, MessageException(message, exception, caller))
            && FatalFormat(log, format, args) == Log(log, Level.Fatal, Format(format, args))
  {
  }

  lemma InfoIsLogAtInfo(
    log: ILog, message: string, messageFactory: () -> FactoryResult, exception: Exception,
    format: string, args: seq<Arg>, memberName: string, sourceFilePath: string, sourceLineNumber: Int32)
    ensures var caller := Caller(memberName, sourceFilePath, sourceLineNumber);
            && Info(log, message, memberName, sourceFilePath, sourceLineNumber)
               == Log(log, Level.Info, Message(message, caller))
            && InfoFactory(log, messageFactory, memberName, sourceFilePath, sourceLineNumber)
               == Log(log, Level.Info, Factory(messageFactory, caller))
            && InfoException(log, message, exception, memberName, sourceFilePath, sourceLineNumber)
               == Log(log, Level.Info, MessageException(message, exception, caller))
            && InfoFormat(log, format, args) == Log(log, Level.Info, Format(format, args))
  {
  }

  lemma WarnIsLogAtWarn(
    log: ILog, message: string, messageFactory: () -> FactoryResult, exception: Exception,
    format: string, args: seq<Arg>, memberName: string, sourceFilePath: string, sourceLineNumber: Int32)
    ensures var caller := Caller(memberName, sourceFilePath, sourceLineNumber);
            && Warn(log, message, memberName, sourceFilePath, sourceLineNumber)
               == Log(log, Level.Warn, Message(message, caller))
            && WarnFactory(log, messageFactory, memberName, sourceFilePath, sourceLineNumber)
               == Log(log, Level.Warn, Factory(messageFactory, caller))
            && WarnException(log, message, exception, memberName, sourceFilePath, sourceLineNumber)
               == Log(log, Level.Warn, MessageException(message, exception, caller))
            && WarnFormat(log, format, args) == Log(log, Level.Warn, Format(format, args))
  {
  }

  /* ---------------- The unit tests' scenarios, at level Debug ---------------- */

  /** An enabled message call reaches the backend's `Debug(message)`. */
  lemma DebugMessageReachesBackend(log: ILog, memberName: string, sourceFilePath: string, sourceLineNumber: Int32)
    requires log.flags.isDebugEnabled
    ensures Write(Level.Debug, "Simple Message")
            in BackendCalls(Debug(log, "Simple Message", memberName, sourceFilePath, sourceLineNumber).log.trace)
  {
    var caller := Caller(memberName, sourceFilePath, sourceLineNumber);
    DebugIsLogAtDebug(log, "Simple Message", () => Returns(""), Exception(0, ""), "", [], memberName, sourceFilePath, sourceLineNumber);
    LogMessage(log, Level.Debug, "Simple Message", caller);
  }

  /** A disabled level makes no backend call at all. */
  lemma DebugDisabledMakesNoCall(log: ILog, message: string, memberName: string, sourceFilePath: string, sourceLineNumber: Int32)
    requires !log.flags.isDebugEnabled
    ensures BackendCalls(Debug(log, message, memberName, sourceFilePath, sourceLineNumber).log.trace) == BackendCalls(log.trace)
  {
  }

  /** An enabled factory call writes what the factory returns. */
  lemma DebugFactoryReachesBackend(log: ILog, memberName: string, sourceFilePath: string, sourceLineNumber: Int32)
    requires log.flags.isDebugEnabled
    ensures Write(Level.Debug, "Simple Message")
            in BackendCalls(DebugFactory(log, () => Returns("Simple Message"), memberName, sourceFilePath, sourceLineNumber).log.trace)
  {
    var caller := Caller(memberName, sourceFilePath, sourceLineNumber);
    var factory := () => Returns("Simple Message");
    DebugIsLogAtDebug(log, "", factory, Exception(0, ""), "", [], memberName, sourceFilePath, sourceLineNumber);
    LogFactory(log, Level.Debug, factory, caller);
  }

  /** A factory that throws leaves the context line as the call's only
      backend call, and its exception reaches the caller. */
  lemma DebugFactoryThrowLeavesContextLine(log: ILog, exception: Exception, memberName: string, sourceFilePath: string, sourceLineNumber: Int32)
    requires log.flags.isDebugEnabled
    ensures var r := DebugFactory(log, () => Throws(exception), memberName, sourceFilePath, sourceLineNumber);
            && r.thrown == Some(exception)
            && BackendCalls(r.log.trace)
               == BackendCalls(log.trace) + [Write(Level.Debug, FormatCallerMessage(memberName, sourceFilePath, sourceLineNumber))]
  {
    var caller := Caller(memberName, sourceFilePath, sourceLineNumber);
    var factory := () => Throws(exception);
    DebugIsLogAtDebug(log, "", factory, exception, "", [], memberName, sourceFilePath, sourceLineNumber);
    LogFactory(log, Level.Debug, factory, caller);
  }

  /** An enabled exception call passes message and exception object through. */
  lemma DebugExceptionReachesBackend(log: ILog, exception: Exception, memberName: string, sourceFilePath: string, sourceLineNumber: Int32)
    requires log.flags.isDebugEnabled
    ensures WriteException(Level.Debug, "Exception occurred", exception)
            in BackendCalls(DebugException(log, "Exception occurred", exception, memberName, sourceFilePath, sourceLineNumber).log.trace)
  {
    var caller := Caller(memberName, sourceFilePath, sourceLineNumber);
    DebugIsLogAtDebug(log, "Exception occurred", () => Returns(""), exception, "", [], memberName, sourceFilePath, sourceLineNumber);
    LogMessageException(log, Level.Debug, "Exception occurred", exception, caller);
  }

  /** An enabled format call hands the backend the format and `new object[] { 1 }`. */
  lemma DebugFormatReachesBackend(log: ILog)
    requires log.flags.isDebugEnabled
    ensures WriteFormat(Level.Debug, "Number of Call: {0} occurred", [Int(1)])
            in BackendCalls(DebugFormat(log, "Number of Call: {0} occurred", [Int(1)]).log.trace)
  {
    LogFormat(log, Level.Debug, "Number of Call: {0} occurred", [Int(1)]);
  }
}
