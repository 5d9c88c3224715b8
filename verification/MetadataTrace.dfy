/** The opt-in call trace: a constant-size state that reports how each call
    relates to the calls before it, checked against the full history. */
module MetadataTrace {
  import opened Prelude
  import opened DriverTypes

  datatype Relation = First | Same | Changed | Unavailable
  datatype Answer = Yes | No | Unknown

  /** `MetadataTraceState`. */
  datatype TraceState = TraceState(
    initialized: bool,
    firstHandle: U32,
    previousIdPointer: Pointer,
    previousId: Option<seq<Byte>>,
    previousAuxiliary: Pointer,
    firstCompletion: Pointer,
    firstDataOut: Pointer,
    firstValueOut: Pointer,
    previousOutput: Option<seq<Byte>>)

  const INITIAL_TRACE := TraceState(false, 0, Null, None, Null, Null, Null, Null, None)

  /** `MetadataBeforeCall`: the outputs as they were before the call. */
  datatype Snapshot = Snapshot(
    call: U32,
    completion: Option<seq<Byte>>,
    data: Option<seq<Byte>>,
    value: Option<seq<Byte>>)

  const NO_SNAPSHOT := Snapshot(0, None, None, None)

  datatype Report =
    | BeforeReport(
        call: U32,
        handle: Relation,
        idPresent: bool,
        idPointer: Relation,
        idContent: Relation,
        idMatchesOutput: Answer,
        auxiliarySize: U32,
        auxiliaryPresent: bool,
        auxiliaryPointer: Relation,
        auxiliaryMatchesOutput: Answer,
        completionPointer: Relation,
        completionZero: Answer,
        dataPointer: Relation,
        dataZero: Answer,
        valuePointer: Relation,
        valueZero: Answer)
    | AfterReport(
        call: U32,
        status: U32,
        completionZero: Answer,
        completionChanged: Answer,
        dataZero: Answer,
        dataChanged: Answer,
        valueZero: Answer,
        valueChanged: Answer)

  function Relate<T(==)>(current: T, reference: T, first: bool): Relation {
    if first then First else if current == reference then Same else Changed
  }

  function Answered(b: bool): Answer {
    if b then Yes else No
  }

  /** The bytes behind a pointer, if there is one. */
  function Content(memory: Memory, p: Pointer, n: nat): Option<seq<Byte>> {
    if p.Null? then None else Some(Peek(memory, p, n))
  }

  function ZeroAnswer(content: Option<seq<Byte>>): Answer {
    if content.None? then Unknown else Answered(IsZero(content.value))
  }

  function ChangedAnswer(before: Option<seq<Byte>>, after: Option<seq<Byte>>): Answer {
    if before.None? || after.None? then Unknown else Answered(before.value != after.value)
  }

  /** `metadata_before_update`, as a function of the trace state. */
  function ReportBefore(t: TraceState, call: U32, args: UpdateArgs, memory: Memory): Report {
    var first := !t.initialized;
    var id := Content(memory, args.enrollmentId, VALUE_SIZE);
    BeforeReport(
      call,
      Relate(args.handle, t.firstHandle, first),
      args.enrollmentId.At?,
      Relate(args.enrollmentId, t.previousIdPointer, first),
      if first then First
      else if id.None? || t.previousId.None? then Unavailable
      else Relate(id.value, t.previousId.value, false),
      if first || id.None? || t.previousOutput.None? then Unknown
      else Answered(id.value == t.previousOutput.value),
      args.auxiliarySize,
      args.auxiliary.At?,
      Relate(args.auxiliary, t.previousAuxiliary, first),
      if first || args.auxiliary.Null? || args.auxiliarySize != VALUE_SIZE || t.previousOutput.None? then Unknown
      else Answered(Peek(memory, args.auxiliary, VALUE_SIZE) == t.previousOutput.value),
      Relate(args.completion, t.firstCompletion, first),
      ZeroAnswer(Content(memory, args.completion, 1)),
      Relate(args.dataOut, t.firstDataOut, first),
      ZeroAnswer(Content(memory, args.dataOut, VALUE_SIZE)),
      Relate(args.valueOut, t.firstValueOut, first),
      ZeroAnswer(Content(memory, args.valueOut, 4)))
  }

  function TakeSnapshot(call: U32, args: UpdateArgs, memory: Memory): Snapshot {
    Snapshot(call, Content(memory, args.completion, 1), Content(memory, args.dataOut, VALUE_SIZE),
             Content(memory, args.valueOut, 4))
  }

  function RecordBefore(t: TraceState, args: UpdateArgs, memory: Memory): TraceState {
    var u := if t.initialized then t
             else t.(initialized := true, firstHandle := args.handle, firstCompletion := args.completion,
                     firstDataOut := args.dataOut, firstValueOut := args.valueOut);
    u.(previousIdPointer := args.enrollmentId, previousAuxiliary := args.auxiliary,
       previousId := Content(memory, args.enrollmentId, VALUE_SIZE))
  }

  /** `metadata_after_update`. */
  function ReportAfter(s: Snapshot, args: UpdateArgs, status: U32, memory: Memory): Report {
    AfterReport(
      s.call, status,
      ZeroAnswer(Content(memory, args.completion, 1)),
      ChangedAnswer(s.completion, Content(memory, args.completion, 1)),
      ZeroAnswer(Content(memory, args.dataOut, VALUE_SIZE)),
      ChangedAnswer(s.data, Content(memory, args.dataOut, VALUE_SIZE)),
      ZeroAnswer(Content(memory, args.valueOut, 4)),
      ChangedAnswer(s.value, Content(memory, args.valueOut, 4)))
  }

  function RecordAfter(t: TraceState, args: UpdateArgs, memory: Memory): TraceState {
    t.(previousOutput := Content(memory, args.dataOut, VALUE_SIZE))
  }

  // ---------------------------------------------------------------------
  // The same relations, read off the full history of native updates
  // ---------------------------------------------------------------------

  function CallNumber(n: nat): U32 {
    n % WORD
  }

  /** `x` in call `n` against the call it is compared with. */
  function Against<T(==)>(n: nat, current: T, reference: T): Relation {
    if n == 0 then First else if current == reference then Same else Changed
  }

  function MatchesOutput(h: seq<Observation>, n: nat, bytes: seq<Byte>): Answer
    requires 0 < n < |h|
  {
    if h[n - 1].args.dataOut.Null? then Unknown
    else Answered(bytes == Peek(h[n - 1].after, h[n - 1].args.dataOut, VALUE_SIZE))
  }

  function HistoryBefore(h: seq<Observation>, n: nat): Report
    requires n < |h|
  {
    var now := h[n].args;
    var first := h[0].args;
    var previous := if n == 0 then now else h[n - 1].args;
    BeforeReport(
      CallNumber(n + 1),
      Against(n, now.handle, first.handle),
      now.enrollmentId.At?,
      Against(n, now.enrollmentId, previous.enrollmentId),
      if n > 0 && (now.enrollmentId.Null? || previous.enrollmentId.Null?) then Unavailable
      else Against(n, Peek(h[n].before, now.enrollmentId, VALUE_SIZE),
                   if n == 0 then [] else Peek(h[n - 1].before, previous.enrollmentId, VALUE_SIZE)),
      if n == 0 || now.enrollmentId.Null? then Unknown
      else MatchesOutput(h, n, Peek(h[n].before, now.enrollmentId, VALUE_SIZE)),
      now.auxiliarySize,
      now.auxiliary.At?,
      Against(n, now.auxiliary, previous.auxiliary),
      if n == 0 || now.auxiliary.Null? || now.auxiliarySize != VALUE_SIZE then Unknown
      else MatchesOutput(h, n, Peek(h[n].before, now.auxiliary, VALUE_SIZE)),
      Against(n, now.completion, first.completion),
      ZeroAnswer(Content(h[n].before, now.completion, 1)),
      Against(n, now.dataOut, first.dataOut),
      ZeroAnswer(Content(h[n].before, now.dataOut, VALUE_SIZE)),
      Against(n, now.valueOut, first.valueOut),
      ZeroAnswer(Content(h[n].before, now.valueOut, 4)))
  }

  function HistoryAfter(h: seq<Observation>, n: nat): Report
    requires n < |h|
  {
    var o := h[n];
    AfterReport(
      CallNumber(n + 1), o.status,
      ZeroAnswer(Content(o.after, o.args.completion, 1)),
      ChangedAnswer(Content(o.before, o.args.completion, 1), Content(o.after, o.args.completion, 1)),
      ZeroAnswer(Content(o.after, o.args.dataOut, VALUE_SIZE)),
      ChangedAnswer(Content(o.before, o.args.dataOut, VALUE_SIZE), Content(o.after, o.args.dataOut, VALUE_SIZE)),
      ZeroAnswer(Content(o.after, o.args.valueOut, 4)),
      ChangedAnswer(Content(o.before, o.args.valueOut, 4), Content(o.after, o.args.valueOut, 4)))
  }

  /** Both reports of every call of a history. */
  function HistoryReports(h: seq<Observation>, n: nat): seq<Report>
    requires n <= |h|
  {
    if n == 0 then [] else HistoryReports(h, n - 1) + [HistoryBefore(h, n - 1), HistoryAfter(h, n - 1)]
  }

  /** What the trace state must hold after a history. */
  ghost predicate Remembers(t: TraceState, h: seq<Observation>) {
    if h == [] then t == INITIAL_TRACE
    else
      var last := h[|h| - 1];
      && t.initialized
      && t.firstHandle == h[0].args.handle
      && t.firstCompletion == h[0].args.completion
      && t.firstDataOut == h[0].args.dataOut
      && t.firstValueOut == h[0].args.valueOut
      && t.previousIdPointer == last.args.enrollmentId
      && t.previousAuxiliary == last.args.auxiliary
      && t.previousId == Content(last.before, last.args.enrollmentId, VALUE_SIZE)
      && t.previousOutput == Content(last.after, last.args.dataOut, VALUE_SIZE)
  }

  /** One traced call: the reports are those the history prescribes, and the
      state remembers the longer history. */
  lemma TraceOneCall(t: TraceState, calls: U32, h: seq<Observation>, o: Observation)
    requires Remembers(t, h) && calls == CallNumber(|h|)
    ensures var call := Increment(calls);
            var t' := RecordAfter(RecordBefore(t, o.args, o.before), o.args, o.after);
            && call == CallNumber(|h| + 1)
            && ReportBefore(t, call, o.args, o.before) == HistoryBefore(h + [o], |h|)
            && ReportAfter(TakeSnapshot(call, o.args, o.before), o.args, o.status, o.after) ==
               HistoryAfter(h + [o], |h|)
            && Remembers(t', h + [o])
  {
    var more := h + [o];
    assert more[|h|] == o;
    if h != [] {
      assert more[0] == h[0] && more[|h| - 1] == h[|h| - 1];
    }
  }

  lemma {:induction false} HistoryReportsAppend(h: seq<Observation>, o: Observation, n: nat)
    requires n <= |h|
    ensures HistoryReports(h + [o], n) == HistoryReports(h, n)
  {
    if n > 0 {
      HistoryReportsAppend(h, o, n - 1);
      var more := h + [o];
      assert more[n - 1] == h[n - 1] && more[0] == h[0];
      if n > 1 {
        assert more[n - 2] == h[n - 2];
      }
    }
  }
}
