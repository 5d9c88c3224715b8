/** The interposed `cv_fingerprint_update_enrollment`, in the form of the C
    code: counters, trace state and memory are updated in place.  Its methods
    are proved to be the machine's uninterrupted call, so everything proved
    about schedules holds of it. */
module Interposer {
  import opened Prelude
  import opened DriverTypes
  import opened MetadataTrace
  import opened InterposerMachine
  import opened SoloCalls

  class Process {
    const cfg: Config
    var retryAttempt: U32
    var acceptedIncomplete: U32
    var updateCalls: U32
    var zeroInputUpdates: U32
    var trace: TraceState
    var reports: seq<Report>
    var memory: Memory
    var log: seq<Event>

    ghost function State(): Shared
      reads this
    {
      Shared(retryAttempt, acceptedIncomplete, updateCalls, zeroInputUpdates, trace, reports, memory, log)
    }

    constructor (cfg: Config, memory: Memory)
      ensures State() == InitialShared(memory) && this.cfg == cfg
    {
      this.cfg := cfg;
      retryAttempt, acceptedIncomplete, updateCalls, zeroInputUpdates := 0, 0, 0, 0;
      trace, reports, this.memory, log := INITIAL_TRACE, [], memory, [];
    }

    /** The outputs as they are before the call. */
    method CopyOutputs(args: UpdateArgs) returns (before: Snapshot)
      ensures before == TakeSnapshot(updateCalls, args, memory)
    {
      before := NO_SNAPSHOT.(call := updateCalls);
      if args.completion.At? {
        before := before.(completion := Some(Peek(memory, args.completion, 1)));
      }
      if args.dataOut.At? {
        before := before.(data := Some(Peek(memory, args.dataOut, VALUE_SIZE)));
      }
      if args.valueOut.At? {
        before := before.(value := Some(Peek(memory, args.valueOut, 4)));
      }
    }

    /** Compare the inputs with the inputs and the output of the call before. */
    method CompareInputs(args: UpdateArgs) returns (idContent: Relation, idMatches: Answer, auxiliaryMatches: Answer)
      ensures var r := ReportBefore(trace, updateCalls, args, memory);
              idContent == r.idContent && idMatches == r.idMatchesOutput && auxiliaryMatches == r.auxiliaryMatchesOutput
    {
      var firstCall := !trace.initialized;
      idContent := if firstCall then First else Unavailable;
      idMatches, auxiliaryMatches := Unknown, Unknown;
      if !firstCall && args.enrollmentId.At? {
        var id := Peek(memory, args.enrollmentId, VALUE_SIZE);
        if trace.previousId.Some? {
          idContent := if id == trace.previousId.value then Same else Changed;
        }
        if trace.previousOutput.Some? {
          idMatches := if id == trace.previousOutput.value then Yes else No;
        }
      }
      if !firstCall && args.auxiliary.At? && args.auxiliarySize == VALUE_SIZE && trace.previousOutput.Some? {
        auxiliaryMatches := if Peek(memory, args.auxiliary, VALUE_SIZE) == trace.previousOutput.value then Yes else No;
      }
    }

    /** Remember the inputs of this call, and all pointers of the first one. */
    method RememberInputs(args: UpdateArgs)
      modifies this`trace
      ensures trace == RecordBefore(old(trace), args, memory)
    {
      var next := trace;
      if !next.initialized {
        next := next.(firstHandle := args.handle, firstCompletion := args.completion,
                      firstDataOut := args.dataOut, firstValueOut := args.valueOut, initialized := true);
      }
      next := next.(previousIdPointer := args.enrollmentId, previousAuxiliary := args.auxiliary, previousId := None);
      if args.enrollmentId.At? {
        next := next.(previousId := Some(Peek(memory, args.enrollmentId, VALUE_SIZE)));
      }
      trace := next;
    }

    /** `metadata_before_update` */
    method MetadataBeforeUpdate(args: UpdateArgs) returns (before: Snapshot)
      modifies this`updateCalls, this`reports, this`trace
      ensures var call := Increment(old(updateCalls));
              && before == TakeSnapshot(call, args, memory)
              && State() == old(State()).(updateCalls := call,
                                          reports := old(reports) + [ReportBefore(old(trace), call, args, memory)],
                                          trace := RecordBefore(old(trace), args, memory))
    {
      updateCalls := Increment(updateCalls);
      before := CopyOutputs(args);
      var idContent, idMatches, auxiliaryMatches := CompareInputs(args);
      var firstCall := !trace.initialized;
      var report := BeforeReport(
        updateCalls,
        Relate(args.handle, trace.firstHandle, firstCall),
        args.enrollmentId.At?,
        Relate(args.enrollmentId, trace.previousIdPointer, firstCall),
        idContent,
        idMatches,
        args.auxiliarySize,
        args.auxiliary.At?,
        Relate(args.auxiliary, trace.previousAuxiliary, firstCall),
        auxiliaryMatches,
        Relate(args.completion, trace.firstCompletion, firstCall),
        ZeroAnswer(before.completion),
        Relate(args.dataOut, trace.firstDataOut, firstCall),
        ZeroAnswer(before.data),
        Relate(args.valueOut, trace.firstValueOut, firstCall),
        ZeroAnswer(before.value));
      reports := reports + [report];
      RememberInputs(args);
    }

    /** Compare an output with what it was before the call. */
    method CompareOutput(p: Pointer, n: nat, earlier: Option<seq<Byte>>) returns (zero: Answer, changed: Answer)
      ensures zero == ZeroAnswer(Content(memory, p, n)) && changed == ChangedAnswer(earlier, Content(memory, p, n))
    {
      zero, changed := Unknown, Unknown;
      if p.At? {
        var now := Peek(memory, p, n);
        zero := if IsZero(now) then Yes else No;
        if earlier.Some? {
          changed := if now == earlier.value then No else Yes;
        }
      }
    }

    /** `metadata_after_update` */
    method MetadataAfterUpdate(before: Snapshot, args: UpdateArgs, status: U32)
      modifies this`reports, this`trace
      ensures State() == old(State()).(reports := old(reports) + [ReportAfter(before, args, status, memory)],
                                       trace := RecordAfter(old(trace), args, memory))
    {
      var completionZero, completionChanged := CompareOutput(args.completion, 1, before.completion);
      var dataZero, dataChanged := CompareOutput(args.dataOut, VALUE_SIZE, before.data);
      var valueZero, valueChanged := CompareOutput(args.valueOut, 4, before.value);
      reports := reports + [AfterReport(before.call, status, completionZero, completionChanged,
                                        dataZero, dataChanged, valueZero, valueChanged)];
      if args.dataOut.At? {
        trace := trace.(previousOutput := Some(Peek(memory, args.dataOut, VALUE_SIZE)));
      } else {
        trace := trace.(previousOutput := None);
      }
    }

    /** One native update with its trace: from before the call to the point
        where its status is examined. */
    method ForwardUpdate(args: UpdateArgs, ghost c: Call) returns (status: U32, ghost returned: Shared, ghost c': Call)
      requires c.pc.Before? && c.args == args
      modifies this
      ensures Finish(cfg, old(State()), c) == Finish(cfg, returned, c')
      ensures c'.pc == After(c.pc.again, status) && c'.args == args
      ensures State() == TraceAfter(cfg, returned, c') && memory == returned.memory
    {
      ghost var g0 := State();
      var before := NO_SNAPSHOT;
      ghost var c1 := BeforeStep(cfg, g0, c).1;
      if cfg.tracing {
        before := MetadataBeforeUpdate(args);
      }
      ghost var g1 := State();
      FinishAfter(cfg, g0, c, g1, c1);

      var reply := cfg.native.update(log, args, memory);
      var after := Write(memory, args, reply.written);
      log := log + [NativeUpdate(Observation(args, memory, reply.status, after))];
      memory := after;
      status := reply.status;
      returned, c' := State(), UpdateStep(cfg, g1, c1).1;
      FinishAfter(cfg, g1, c1, returned, c');

      if cfg.tracing {
        MetadataAfterUpdate(before, args, status);
      }
    }

    /** Send 0x8A and decide what the caller sees. */
    method SendRearm(accepted: bool, ghost c: Call) returns (status: U32, ghost c': Call)
      requires c.pc == RearmGate(accepted)
      modifies this
      ensures Finish(cfg, old(State()), c) == (State(), c') && c'.pc == Done(status)
    {
      ghost var g0 := State();
      retryAttempt := Increment(retryAttempt);
      log := log + [RearmTicket(retryAttempt)];
      ghost var g1, c1 := State(), RearmGateStep(cfg, g0, c).1;
      FinishAfter(cfg, g0, c, g1, c1);

      var rearmStatus := cfg.native.rearm(log);
      log := log + [NativeRearm(rearmStatus)];
      c' := RearmStep(cfg, g1, c1).1;
      FinishAfter(cfg, g1, c1, State(), c');
      if rearmStatus != STATUS_SUCCESS {
        return Fatalize(rearmStatus), c';
      }
      status := if accepted then STATUS_SUCCESS else STATUS_BAD_CAPTURE;
    }

    /** The checks in front of the first native update. */
    method GateInput(args: UpdateArgs) returns (go: bool, effective: UpdateArgs, ghost c: Call)
      modifies this
      ensures Finish(cfg, old(State()), NewCall(args)) == Finish(cfg, State(), c)
      ensures if go then c.pc == Before(false) && c.args == effective else c.pc == Done(STATUS_EXPERIMENT_FAILURE)
    {
      ghost var g0 := State();
      go, effective, c := false, args, NewCall(args);
      ghost var c1 := EnterStep(cfg, g0, c).1;
      FinishAfter(cfg, g0, c, g0, c1);
      c := c1;
      if !cfg.ready {
        return;
      }
      if cfg.policy.ZeroInputFreshRearm? {
        if args.enrollmentId.Null? {
          return;
        }
        zeroInputUpdates := Increment(zeroInputUpdates);
        log := log + [ZeroTicket(zeroInputUpdates)];
        c := ZeroGateStep(cfg, g0, c1).1;
        if zeroInputUpdates > MAX_ZERO_INPUT_UPDATES {
          FinishAfter(cfg, g0, c1, State(), c);
          return;
        }
        memory := memory[cfg.zeroInput := Zeros(VALUE_SIZE)];
        effective := args.(enrollmentId := At(cfg.zeroInput));
        FinishAfter(cfg, g0, c1, State(), c);
      }
      go := true;
    }

    /** What the fresh policies do with a native success. */
    method BoundSuccess(args: UpdateArgs, ghost returned: Shared, ghost c: Call) returns (status: U32, ghost c': Call)
      requires cfg.policy.Fresh() && c.pc.After? && c.pc.status == STATUS_SUCCESS && c.args == args
      requires State() == TraceAfter(cfg, returned, c) && memory == returned.memory
      modifies this
      ensures Finish(cfg, returned, c) == (State(), c') && c'.pc == Done(status)
    {
      var completion := CompletionByte(memory, args);
      log := log + [Inspected(completion)];
      ghost var g1, c1 := State(), AfterStep(cfg, returned, c).1;
      FinishAfter(cfg, returned, c, g1, c1);
      c' := c1;
      if completion != Some(0) {
        return STATUS_EXPERIMENT_FAILURE, c';
      }
      if !cfg.policy.Rearms() {
        return STATUS_SUCCESS, c';
      }
      acceptedIncomplete := Increment(acceptedIncomplete);
      log := log + [AcceptTicket(acceptedIncomplete)];
      c' := AcceptGateStep(cfg, g1, c1).1;
      FinishAfter(cfg, g1, c1, State(), c');
      if acceptedIncomplete >= MAX_ACCEPTED_UPDATES {
        return STATUS_EXPERIMENT_FAILURE, c';
      }
      status, c' := SendRearm(true, c');
    }

    method Forward(args: UpdateArgs) returns (status: U32, ghost c: Call)
      modifies this
      ensures Finish(cfg, old(State()), NewCall(args)) == (State(), c) && c.pc == Done(status)
    {
      var go, effective;
      go, effective, c := GateInput(args);
      if !go {
        return STATUS_EXPERIMENT_FAILURE, c;
      }
      ghost var returned;
      status, returned, c := ForwardUpdate(effective, c);
      if cfg.policy.Fresh() {
        if status == STATUS_SUCCESS {
          status, c := BoundSuccess(effective, returned, c);
          return;
        }
      } else if status == STATUS_UPDATE_AGAIN {
        ghost var again := AfterStep(cfg, returned, c).1;
        FinishAfter(cfg, returned, c, State(), again);
        status, returned, c := ForwardUpdate(effective, again);
      }
      ghost var last := AfterStep(cfg, returned, c).1;
      FinishAfter(cfg, returned, c, State(), last);
      c := last;
      if status != STATUS_BAD_CAPTURE {
        return;
      }
      status, c := SendRearm(false, c);
    }

    /** The interposed function: exactly one uninterrupted call of the machine. */
    method UpdateEnrollment(args: UpdateArgs) returns (status: U32)
      modifies this
      ensures (State(), status) == Solo(cfg, old(State()), args)
    {
      log := log + [Called(args)];
      ghost var begun := State();
      var start := |log|;
      ghost var c;
      status, c := Forward(args);
      assert begun.log + [] == begun.log;
      FinishKeepsTrail(cfg, begun, NewCall(args), begun.log);
      log := log + [Returned(status, log[start..])];
    }
  }
}
