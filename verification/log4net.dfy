/**
 The log4net `ILog` surface the adapter talks to, seen from outside: five
 level-enabled flags and an append-only trace of what happened at the
 boundary. Each `Write*` event is one call into the backend; the
 `FactoryInvoked` event marks one invocation of a caller's message factory,
 so that when and how often a factory runs can be stated against the trace.
 Exceptions and format arguments are opaque values: what log4net does with
 them is not modelled.
 */
module Log4Net {

  datatype Level = Debug | Info | Warn | Error | Fatal

  /** The backend's current `IsDebugEnabled` … `IsWarnEnabled` answers. */
  datatype Flags = Flags(
    isDebugEnabled: bool,
    isErrorEnabled: bool,
    isFatalEnabled: bool,
    isInfoEnabled: bool,
    isWarnEnabled: bool)

  /** The flag that governs `level`. */
  function IsEnabled(flags: Flags, level: Level): bool {
    match level
    case Debug => flags.isDebugEnabled
    case Info => flags.isInfoEnabled
    case Warn => flags.isWarnEnabled
    case Error => flags.isErrorEnabled
    case Fatal => flags.isFatalEnabled
  }

  /** An exception object; `id` stands for its reference identity. */
  datatype Exception = Exception(id: nat, message: string)

  /** A format argument (`object`); `Object(id)` stands for any other reference. */
  datatype Arg = Int(i: int) | Str(s: string) | Object(id: nat)

  datatype Event =
    | Write(level: Level, message: string)                                  // ILog.X(message)
    | WriteException(level: Level, message: string, exception: Exception)   // ILog.X(message, exception)
    | WriteFormat(level: Level, format: string, args: seq<Arg>)             // ILog.XFormat(format, args)
    | FactoryInvoked                                                        // a message factory ran

  /** A backend handle: its flags and everything recorded so far. */
  datatype ILog = ILog(flags: Flags, trace: seq<Event>)

  /** Records one event; the flags are untouched. */
  function Emit(log: ILog, e: Event): ILog {
    log.(trace := log.trace + [e])
  }

  /** The calls that reached the backend, in order: the trace without the
      factory markers. */
  function BackendCalls(trace: seq<Event>): (calls: seq<Event>)
    ensures |calls| <= |trace|
    ensures forall i :: 0 <= i < |calls| ==> !calls[i].FactoryInvoked?
  {
    if |trace| == 0 then []
    else if trace[0].FactoryInvoked? then BackendCalls(trace[1..])
    else [trace[0]] + BackendCalls(trace[1..])
  }

  /** How many times a message factory ran. */
  function FactoryInvocations(trace: seq<Event>): nat {
    if |trace| == 0 then 0
    else (if trace[0].FactoryInvoked? then 1 else 0) + FactoryInvocations(trace[1..])
  }

  /** A trace with no factory run is all backend calls. */
  lemma {:induction false} OnlyBackendCalls(trace: seq<Event>)
    requires forall i :: 0 <= i < |trace| ==> !trace[i].FactoryInvoked?
    ensures BackendCalls(trace) == trace
    ensures FactoryInvocations(trace) == 0
    decreases |trace|
  {
    if |trace| > 0 {
      OnlyBackendCalls(trace[1..]);
      assert trace == [trace[0]] + trace[1..];
    }
  }

  /** A factory run between two backend calls. */
  lemma MarkerBetweenCalls(before: Event, after: Event)
    requires !before.FactoryInvoked? && !after.FactoryInvoked?
    ensures BackendCalls([before, FactoryInvoked, after]) == [before, after]
    ensures FactoryInvocations([before, FactoryInvoked, after]) == 1
  {
    var s := [before, FactoryInvoked, after];
    assert s[1..] == [FactoryInvoked, after] && s[1..][1..] == [after] && [after][1..] == [];
    assert BackendCalls([after]) == [after];
    assert BackendCalls(s[1..]) == [after];
    assert FactoryInvocations([after]) == 0;
    assert FactoryInvocations(s[1..]) == 1;
  }

  /** A factory run after a backend call, with nothing after it. */
  lemma MarkerAfterCall(before: Event)
    requires !before.FactoryInvoked?
    ensures BackendCalls([before, FactoryInvoked]) == [before]
    ensures FactoryInvocations([before, FactoryInvoked]) == 1
  {
    var s := [before, FactoryInvoked];
    assert s[1..] == [FactoryInvoked] && s[1..][1..] == [];
    assert BackendCalls(s[1..]) == [];
    assert FactoryInvocations(s[1..]) == 1;
  }

  lemma {:induction false} BackendCallsAppend(a: seq<Event>, b: seq<Event>)
    ensures BackendCalls(a + b) == BackendCalls(a) + BackendCalls(b)
    decreases |a|
  {
    if |a| == 0 {
      assert a + b == b;
    } else {
      assert (a + b)[1..] == a[1..] + b;
      BackendCallsAppend(a[1..], b);
    }
  }

  lemma {:induction false} FactoryInvocationsAppend(a: seq<Event>, b: seq<Event>)
    ensures FactoryInvocations(a + b) == FactoryInvocations(a) + FactoryInvocations(b)
    decreases |a|
  {
    if |a| == 0 {
      assert a + b == b;
    } else {
      assert (a + b)[1..] == a[1..] + b;
      FactoryInvocationsAppend(a[1..], b);
    }
  }
}
