/** The enrollment loop that calls the interposed function: capture starts,
    cancels and discards around sequential updates. */
module CallerLoop {
  import opened Prelude
  import opened DriverTypes
  import opened InterposerMachine
  import opened CallLedger
  import opened SoloCalls
  import opened Interposer

  const MAX_SEQUENTIAL_UPDATES := 16

  datatype Settings = Settings(
    sequentialUpdates: U32,
    deferCapture: bool,
    copyOutputToNextId: bool,
    changeIdEachUpdate: bool,
    nullId: bool,
    zeroAuxiliary: bool,
    initialIdByte: Option<Byte>)

  /** Where the caller keeps its local buffers. */
  datatype Frame = Frame(id: nat, auxiliary: nat, completion: nat, output: nat, value: nat)

  datatype Outcome = Aborted | Finished(status: U32)

  // ---------------------------------------------------------------------
  // Armed captures
  // ---------------------------------------------------------------------

  /** Updates and 0x8A commands, whoever sent them. */
  predicate IsNative(e: Event) {
    e.NativeUpdate? || e.NativeRearm? || e.Started?
  }

  /** A 0x8A that succeeded. */
  predicate Arms(e: Event) {
    e == NativeRearm(STATUS_SUCCESS) || e == Started(STATUS_SUCCESS)
  }

  /** The last native command is a 0x8A that succeeded. */
  ghost predicate Armed(log: seq<Event>) {
    exists j :: 0 <= j < |log| && Arms(log[j]) && forall k :: j < k < |log| ==> !IsNative(log[k])
  }

  ghost predicate CapturesArmed(log: seq<Event>, start: nat) {
    forall i :: start <= i < |log| && log[i].CaptureStart? ==> Armed(log[..i])
  }

  lemma ArmedAppend(log: seq<Event>, more: seq<Event>)
    requires Armed(log) && forall e :: e in more ==> !IsNative(e)
    ensures Armed(log + more)
  {
    var j :| 0 <= j < |log| && Arms(log[j]) && forall k :: j < k < |log| ==> !IsNative(log[k]);
    assert Arms((log + more)[j]);
    forall k | j < k < |log + more| ensures !IsNative((log + more)[k]) {
      if k >= |log| {
        assert (log + more)[k] == more[k - |log|];
      }
    }
  }

  lemma CapturesAppend(log: seq<Event>, more: seq<Event>, start: nat)
    requires start <= |log| && CapturesArmed(log, start)
    requires forall e :: e in more ==> !e.CaptureStart?
    ensures CapturesArmed(log + more, start)
  {
    forall i | |log| <= i < |log + more| ensures !(log + more)[i].CaptureStart? {
      assert (log + more)[i] == more[i - |log|];
    }
    forall i | start <= i < |log + more| && (log + more)[i].CaptureStart? ensures Armed((log + more)[..i]) {
      assert (log + more)[..i] == log[..i];
    }
  }

  lemma CaptureWhenArmed(log: seq<Event>, start: nat)
    requires start <= |log| && CapturesArmed(log, start) && Armed(log)
    ensures CapturesArmed(log + [CaptureStart], start)
  {
    var after := log + [CaptureStart];
    forall i | start <= i < |after| && after[i].CaptureStart? ensures Armed(after[..i]) {
      if i < |log| {
        assert after[..i] == log[..i];
      } else {
        assert after[..i] == log;
      }
    }
  }

  /** Statuses after which the caller starts another capture. */
  predicate GoesOn(status: U32) {
    status == STATUS_SUCCESS || status == STATUS_BAD_CAPTURE
  }

  /** Under a re-arming policy a call that lets the caller go on leaves the
      driver armed. */
  lemma SoloArms(cfg: Config, g: Shared, args: UpdateArgs)
    requires cfg.policy.Rearms() && GoesOn(Solo(cfg, g, args).1)
    ensures Armed(Solo(cfg, g, args).0.log)
  {
    var trail := SoloTrail(cfg, g, args);
    var log := Solo(cfg, g, args).0.log;
    assert EndsArmed(trail);
    assert log[|log| - 2] == NativeRearm(STATUS_SUCCESS) && Arms(log[|log| - 2]);
  }

  lemma SoloGrows(cfg: Config, g: Shared, args: UpdateArgs)
    ensures |g.log| <= |Solo(cfg, g, args).0.log|
  {
    var trail := SoloTrail(cfg, g, args);
  }

  lemma SoloKeepsCaptures(cfg: Config, g: Shared, args: UpdateArgs, start: nat)
    requires start <= |g.log| && CapturesArmed(g.log, start)
    ensures CapturesArmed(Solo(cfg, g, args).0.log, start) && |g.log| <= |Solo(cfg, g, args).0.log|
  {
    var trail := SoloStaysInside(cfg, g, args);
    var log := Solo(cfg, g, args).0.log;
    var added := [Called(args)] + trail + [Returned(Solo(cfg, g, args).1, trail)];
    assert log == g.log + added;
    CapturesAppend(g.log, added, start);
  }

  // ---------------------------------------------------------------------
  // What the caller sees and does
  // ---------------------------------------------------------------------

  /** Returns to the caller and commands of the caller. */
  predicate Visible(e: Event) {
    e.Returned? || CallerEvent(e)
  }

  function Outline(log: seq<Event>): seq<Event> {
    Filter(log, Visible)
  }

  lemma SoloOutline(cfg: Config, g: Shared, args: UpdateArgs) returns (returned: Event)
    ensures returned.Returned? && returned.status == Solo(cfg, g, args).1
    ensures Outline(Solo(cfg, g, args).0.log) == Outline(g.log) + [returned]
  {
    var trail := SoloStaysInside(cfg, g, args);
    returned := Returned(Solo(cfg, g, args).1, trail);
    FilterAppend(g.log + [Called(args)] + trail, [returned], Visible);
    FilterAppend(g.log + [Called(args)], trail, Visible);
    FilterAppend(g.log, [Called(args)], Visible);
    FilterNone(trail, Visible);
  }

  /** The wrapper cancels the capture on every status it does not know. */
  predicate Cancels(status: U32) {
    status != STATUS_SUCCESS && status != STATUS_CAPTURE_FAILED && status != STATUS_BAD_CAPTURE
  }

  predicate Discards(status: U32) {
    status != STATUS_SUCCESS && status != STATUS_CAPTURE_FAILED && status != STATUS_ENROLL_MORE
  }

  function AfterReturn(returned: Event): seq<Event>
    requires returned.Returned?
  {
    [returned] + if Cancels(returned.status) then [CaptureCancel] else []
  }

  ghost predicate AllReturns(calls: seq<Event>) {
    forall i :: 0 <= i < |calls| ==> calls[i].Returned?
  }

  ghost predicate Successes(calls: seq<Event>, n: nat)
    requires n <= |calls| && AllReturns(calls)
  {
    forall i :: 0 <= i < n ==> calls[i].status == STATUS_SUCCESS
  }

  /** Updates one after the other, with one capture start between any two. */
  function Script(calls: seq<Event>): seq<Event>
    requires AllReturns(calls)
  {
    if calls == [] then []
    else
      var last := |calls| - 1;
      Script(calls[..last]) + (if last == 0 then [] else [CaptureStart]) + AfterReturn(calls[last])
  }

  /** What a run that repeats nothing ends with: the capture after a bad one,
      or a discard. */
  function Ending(status: U32): seq<Event> {
    if status == STATUS_BAD_CAPTURE then [CaptureStart]
    else if Discards(status) then [Discard]
    else []
  }

  /** How a run is made up: `calls` are all its calls, of which the last may
      be the single repetition after a bad capture. */
  ghost predicate Transcript(settings: Settings, calls: seq<Event>, repeated: bool, outline: seq<Event>) {
    && AllReturns(calls) && calls != []
    && var last := calls[|calls| - 1].status;
    var updates := if repeated then |calls| - 1 else |calls|;
    && 1 <= updates <= settings.sequentialUpdates
    // Only a success is followed by the next update.
    && Successes(calls, updates - 1)
    && (updates < settings.sequentialUpdates ==> calls[updates - 1].status != STATUS_SUCCESS)
    // Only a bad capture is repeated, at once and only once.
    && (repeated <==> calls[updates - 1].status == STATUS_BAD_CAPTURE && !settings.deferCapture)
    && outline == Script(calls) + (if repeated then [] else Ending(last))
  }

  // ---------------------------------------------------------------------
  // The loop
  // ---------------------------------------------------------------------

  function Arguments(settings: Settings, frame: Frame): UpdateArgs {
    UpdateArgs(
      1,
      if settings.nullId then Null else At(frame.id),
      if settings.zeroAuxiliary then 0 else 4,
      if settings.zeroAuxiliary then Null else At(frame.auxiliary),
      At(frame.completion), At(frame.output), At(frame.value))
  }

  /** The caller's buffers before its first update. */
  function Prepare(memory: Memory, settings: Settings, frame: Frame): Memory {
    var id := match settings.initialIdByte case None => Zeros(VALUE_SIZE) case Some(b) => seq(VALUE_SIZE, _ => b);
    memory[frame.id := id]
    [frame.auxiliary := [0xa1, 0xa2, 0xa3, 0xa4]]
    [frame.completion := [0x31]]
    [frame.output := seq(VALUE_SIZE, (i: nat) => if i < VALUE_SIZE then 0x40 + i else 0)]
    [frame.value := [0x54, 0x53, 0x52, 0x51]]
  }

  /** The enrollment ID of the next update. */
  function NextId(memory: Memory, settings: Settings, frame: Frame, index: U32): Memory {
    if settings.copyOutputToNextId then memory[frame.id := Peek(memory, At(frame.output), VALUE_SIZE)]
    else if settings.changeIdEachUpdate then memory[frame.id := seq(VALUE_SIZE, _ => index % 256)]
    else memory
  }

  function WithMemory(g: Shared, memory: Memory): Shared {
    g.(memory := memory)
  }

  function WithEvent(g: Shared, e: Event): Shared {
    g.(log := g.log + [e])
  }

  /** One update of a run: the process it was called in and the one it left. */
  datatype Visit = Visit(before: Shared, after: Shared, status: U32)

  ghost predicate IsVisit(cfg: Config, args: UpdateArgs, v: Visit) {
    Solo(cfg, v.before, args) == (v.after, v.status)
  }

  /** The buffers from one update to the next: prepared for the first, with the
      next ID for each further one, and untouched for a repetition. */
  ghost predicate Buffers(settings: Settings, frame: Frame, first: Memory, visits: seq<Visit>, updates: nat) {
    && (visits != [] ==> visits[0].before.memory == first)
    && (forall i, j :: 0 <= i < |visits| && j == i + 1 < |visits| ==>
          visits[j].before.memory ==
          if j < updates && j < WORD then NextId(visits[i].after.memory, settings, frame, j)
          else visits[i].after.memory)
  }

  /** All updates of a run, each with the caller's arguments. */
  ghost predicate AllVisits(cfg: Config, args: UpdateArgs, visits: seq<Visit>, calls: seq<Event>) {
    && |visits| == |calls|
    && (forall i :: 0 <= i < |visits| ==> IsVisit(cfg, args, visits[i]))
    && (forall i :: 0 <= i < |visits| ==> calls[i].Returned? && calls[i].status == visits[i].status)
  }

  /** A property of the process that no call, no change of memory and no command
      of the caller breaks. */
  ghost predicate Closed(cfg: Config, inv: Shared -> bool) {
    && (forall g, args :: inv(g) ==> inv(Solo(cfg, g, args).0))
    && (forall g, memory :: inv(g) ==> inv(WithMemory(g, memory)))
    && (forall g, e :: inv(g) && CallerEvent(e) ==> inv(WithEvent(g, e)))
  }

  method SendCommand(p: Process, e: Event, ghost inv: Shared -> bool)
    requires CallerEvent(e) && Closed(p.cfg, inv) && inv(p.State())
    modifies p
    ensures p.State() == WithEvent(old(p.State()), e)
    ensures inv(p.State())
    ensures Outline(p.log) == Outline(old(p.log)) + [e]
  {
    FilterAppend(p.log, [e], Visible);
    ghost var g := p.State();
    p.log := p.log + [e];
    assert p.State() == WithEvent(g, e);
  }

  method SetMemory(p: Process, memory: Memory, ghost inv: Shared -> bool)
    requires Closed(p.cfg, inv) && inv(p.State())
    modifies p
    ensures p.State() == WithMemory(old(p.State()), memory)
    ensures inv(p.State())
  {
    ghost var g := p.State();
    p.memory := memory;
    assert p.State() == WithMemory(g, memory);
  }

  /** A command other than a capture start. */
  method SendOnly(p: Process, e: Event, ghost start: nat, ghost inv: Shared -> bool)
    requires CallerEvent(e) && !e.CaptureStart? && Closed(p.cfg, inv) && inv(p.State()) && start <= |p.log|
    requires p.cfg.policy.Rearms() ==> CapturesArmed(p.log, start)
    modifies p
    ensures inv(p.State()) && |p.log| == |old(p.log)| + 1 && p.memory == old(p.memory)
    ensures Outline(p.log) == Outline(old(p.log)) + [e]
    ensures p.cfg.policy.Rearms() ==> CapturesArmed(p.log, start)
  {
    if p.cfg.policy.Rearms() {
      CapturesAppend(p.log, [e], start);
    }
    SendCommand(p, e, inv);
  }

  /** One update through the interposer, with the wrapper's cancel. */
  method Update(p: Process, args: UpdateArgs, ghost start: nat, ghost inv: Shared -> bool)
      returns (status: U32, ghost returned: Event, ghost visit: Visit)
    requires Closed(p.cfg, inv) && inv(p.State()) && start <= |p.log|
    requires p.cfg.policy.Rearms() ==> CapturesArmed(p.log, start)
    modifies p
    ensures inv(p.State()) && |old(p.log)| <= |p.log|
    ensures IsVisit(p.cfg, args, visit) && visit.before == old(p.State()) && visit.status == status
    ensures p.memory == visit.after.memory
    ensures returned.Returned? && returned.status == status
    ensures Outline(p.log) == Outline(old(p.log)) + AfterReturn(returned)
    ensures p.cfg.policy.Rearms() ==> CapturesArmed(p.log, start)
    ensures p.cfg.policy.Rearms() && GoesOn(status) ==> Armed(p.log)
  {
    ghost var g := p.State();
    returned := SoloOutline(p.cfg, g, args);
    if p.cfg.policy.Rearms() {
      SoloKeepsCaptures(p.cfg, g, args, start);
      if GoesOn(Solo(p.cfg, g, args).1) {
        SoloArms(p.cfg, g, args);
      }
    } else {
      SoloGrows(p.cfg, g, args);
    }
    status := p.UpdateEnrollment(args);
    visit := Visit(g, p.State(), status);
    if Cancels(status) {
      SendOnly(p, CaptureCancel, start, inv);
    }
  }

  method StartCapture(p: Process, ghost start: nat, ghost inv: Shared -> bool)
    requires Closed(p.cfg, inv) && inv(p.State()) && start <= |p.log|
    requires p.cfg.policy.Rearms() ==> CapturesArmed(p.log, start) && Armed(p.log)
    modifies p
    ensures inv(p.State()) && |old(p.log)| <= |p.log|
    ensures Outline(p.log) == Outline(old(p.log)) + [CaptureStart]
    ensures p.cfg.policy.Rearms() ==> CapturesArmed(p.log, start)
    ensures p.memory == old(p.memory)
  {
    if p.cfg.policy.Rearms() {
      CaptureWhenArmed(p.log, start);
    }
    SendCommand(p, CaptureStart, inv);
  }

  lemma ScriptSnoc(before: seq<Event>, calls: seq<Event>, returned: Event)
    requires AllReturns(calls) && returned.Returned?
    ensures AllReturns(calls + [returned])
    ensures before + Script(calls + [returned]) ==
            before + Script(calls) + (if calls == [] then [] else [CaptureStart]) + AfterReturn(returned)
  {
  }

  /** The caller between two updates: what it has seen and done so far, and
      whether it may start a capture. */
  ghost predicate Ongoing(p: Process, before: seq<Event>, calls: seq<Event>, start: nat, inv: Shared -> bool)
    reads p
  {
    && inv(p.State()) && start <= |p.log|
    && AllReturns(calls) && calls != []
    && Outline(p.log) == before + Script(calls)
    && (p.cfg.policy.Rearms() ==>
          CapturesArmed(p.log, start) && (GoesOn(calls[|calls| - 1].status) ==> Armed(p.log)))
  }

  /** Start a capture and update again. */
  method AnotherUpdate(p: Process, args: UpdateArgs, ghost before: seq<Event>, ghost calls: seq<Event>,
                       ghost start: nat, ghost inv: Shared -> bool)
      returns (status: U32, ghost returned: Event, ghost visit: Visit)
    requires Closed(p.cfg, inv) && Ongoing(p, before, calls, start, inv) && GoesOn(calls[|calls| - 1].status)
    modifies p
    ensures returned.Returned? && returned.status == status
    ensures Ongoing(p, before, calls + [returned], start, inv)
    ensures IsVisit(p.cfg, args, visit) && visit.status == status
    ensures visit.before.memory == old(p.memory) && p.memory == visit.after.memory
  {
    StartCapture(p, start, inv);
    status, returned, visit := Update(p, args, start, inv);
    ScriptSnoc(before, calls, returned);
  }

  method FirstUpdate(p: Process, args: UpdateArgs, ghost start: nat, ghost inv: Shared -> bool)
      returns (status: U32, ghost returned: Event, ghost visit: Visit)
    requires Closed(p.cfg, inv) && inv(p.State()) && start <= |p.log|
    requires p.cfg.policy.Rearms() ==> CapturesArmed(p.log, start)
    modifies p
    ensures returned.Returned? && returned.status == status
    ensures Ongoing(p, Outline(old(p.log)), [returned], start, inv)
    ensures IsVisit(p.cfg, args, visit) && visit.status == status
    ensures visit.before.memory == old(p.memory) && p.memory == visit.after.memory
  {
    ghost var before := Outline(p.log);
    status, returned, visit := Update(p, args, start, inv);
    ScriptSnoc(before, [], returned);
    assert [] + [returned] == [returned];
  }

  method ChooseId(p: Process, settings: Settings, frame: Frame, index: U32, ghost before: seq<Event>,
                  ghost calls: seq<Event>, ghost start: nat, ghost inv: Shared -> bool)
    requires Closed(p.cfg, inv) && Ongoing(p, before, calls, start, inv)
    modifies p
    ensures Ongoing(p, before, calls, start, inv)
    ensures p.State() == WithMemory(old(p.State()), NextId(old(p.memory), settings, frame, index))
    ensures p.memory == NextId(old(p.memory), settings, frame, index)
  {
    SetMemory(p, NextId(p.memory, settings, frame, index), inv);
  }

  lemma VisitsSnoc(cfg: Config, args: UpdateArgs, visits: seq<Visit>, calls: seq<Event>, visit: Visit, returned: Event)
    requires AllVisits(cfg, args, visits, calls) && IsVisit(cfg, args, visit)
    requires returned.Returned? && returned.status == visit.status
    ensures AllVisits(cfg, args, visits + [visit], calls + [returned])
  {
  }

  lemma BuffersSnoc(settings: Settings, frame: Frame, first: Memory, visits: seq<Visit>, updates: nat, more: nat,
                    visit: Visit)
    requires visits != [] && |visits| <= updates && Buffers(settings, frame, first, visits, updates)
    requires updates <= more
    requires var last := visits[|visits| - 1].after.memory;
             visit.before.memory ==
             if |visits| < more && |visits| < WORD then NextId(last, settings, frame, |visits|) else last
    ensures Buffers(settings, frame, first, visits + [visit], more)
  {
  }

  /** The caller after its sequential updates so far: its outline, and every one
      of its updates with the buffers it was given. */
  ghost predicate Visited(p: Process, settings: Settings, frame: Frame, before: seq<Event>, first: Memory,
                          calls: seq<Event>, visits: seq<Visit>, start: nat, inv: Shared -> bool)
    reads p
  {
    && Ongoing(p, before, calls, start, inv) && Successes(calls, |calls| - 1)
    && AllVisits(p.cfg, Arguments(settings, frame), visits, calls)
    && Buffers(settings, frame, first, visits, |visits|)
    && p.memory == visits[|visits| - 1].after.memory
  }

  /** The first update, on the buffers as they are. */
  method VisitFirst(p: Process, settings: Settings, frame: Frame, ghost start: nat, ghost inv: Shared -> bool)
      returns (status: U32, ghost calls: seq<Event>, ghost visits: seq<Visit>)
    requires Closed(p.cfg, inv) && inv(p.State()) && start <= |p.log|
    requires p.cfg.policy.Rearms() ==> CapturesArmed(p.log, start)
    modifies p
    ensures Visited(p, settings, frame, Outline(old(p.log)), old(p.memory), calls, visits, start, inv)
    ensures |calls| == 1 && calls[0].status == status
  {
    ghost var returned, visit;
    status, returned, visit := FirstUpdate(p, Arguments(settings, frame), start, inv);
    calls, visits := [returned], [visit];
  }

  /** The next ID, a capture, and the next update. */
  method VisitNext(p: Process, settings: Settings, frame: Frame, index: U32, ghost before: seq<Event>,
                   ghost first: Memory, ghost calls: seq<Event>, ghost visits: seq<Visit>,
                   ghost start: nat, ghost inv: Shared -> bool)
      returns (status: U32, ghost calls': seq<Event>, ghost visits': seq<Visit>)
    requires Closed(p.cfg, inv) && Visited(p, settings, frame, before, first, calls, visits, start, inv)
    requires |calls| == index && calls[|calls| - 1].status == STATUS_SUCCESS
    modifies p
    ensures Visited(p, settings, frame, before, first, calls', visits', start, inv)
    ensures |calls'| == index + 1 && calls'[index].status == status
  {
    var args := Arguments(settings, frame);
    ghost var returned, visit;
    ChooseId(p, settings, frame, index, before, calls, start, inv);
    status, returned, visit := AnotherUpdate(p, args, before, calls, start, inv);
    VisitsSnoc(p.cfg, args, visits, calls, visit, returned);
    BuffersSnoc(settings, frame, first, visits, index, index + 1, visit);
    calls', visits' := calls + [returned], visits + [visit];
    SuccessesSnoc(calls, returned);
  }

  lemma SuccessesSnoc(calls: seq<Event>, returned: Event)
    requires AllReturns(calls) && returned.Returned? && calls != []
    requires Successes(calls, |calls| - 1) && calls[|calls| - 1].status == STATUS_SUCCESS
    ensures AllReturns(calls + [returned]) && Successes(calls + [returned], |calls|)
  {
  }

  /** The same update again after a bad capture, on the same buffers. */
  method Repeat(p: Process, settings: Settings, frame: Frame, ghost before: seq<Event>, ghost first: Memory,
                ghost calls: seq<Event>, ghost visits: seq<Visit>, ghost start: nat, ghost inv: Shared -> bool)
      returns (status: U32, ghost calls': seq<Event>, ghost visits': seq<Visit>)
    requires Closed(p.cfg, inv) && Visited(p, settings, frame, before, first, calls, visits, start, inv)
    requires GoesOn(calls[|calls| - 1].status)
    modifies p
    ensures |calls'| == |calls| + 1 && calls'[..|calls|] == calls
    ensures Ongoing(p, before, calls', start, inv) && calls'[|calls|].status == status
    ensures AllVisits(p.cfg, Arguments(settings, frame), visits', calls')
    ensures Buffers(settings, frame, first, visits', |calls|)
  {
    var args := Arguments(settings, frame);
    ghost var returned, visit;
    status, returned, visit := AnotherUpdate(p, args, before, calls, start, inv);
    VisitsSnoc(p.cfg, args, visits, calls, visit, returned);
    BuffersSnoc(settings, frame, first, visits, |visits|, |visits|, visit);
    calls', visits' := calls + [returned], visits + [visit];
  }

  /** The updates before any repetition. */
  method SequentialUpdates(p: Process, settings: Settings, frame: Frame, ghost start: nat, ghost inv: Shared -> bool)
      returns (status: U32, ghost calls: seq<Event>, ghost visits: seq<Visit>)
    requires Closed(p.cfg, inv) && inv(p.State()) && start <= |p.log|
    requires p.cfg.policy.Rearms() ==> CapturesArmed(p.log, start)
    requires settings.sequentialUpdates > 0
    modifies p
    ensures Visited(p, settings, frame, Outline(old(p.log)), old(p.memory), calls, visits, start, inv)
    ensures |calls| <= settings.sequentialUpdates && calls[|calls| - 1].status == status
    ensures |calls| < settings.sequentialUpdates ==> status != STATUS_SUCCESS
  {
    ghost var before, first := Outline(p.log), p.memory;
    status, calls, visits := VisitFirst(p, settings, frame, start, inv);
    var index := 1;
    while index < settings.sequentialUpdates && status == STATUS_SUCCESS
      invariant 1 <= index <= settings.sequentialUpdates && |calls| == index
      invariant Visited(p, settings, frame, before, first, calls, visits, start, inv)
      invariant calls[index - 1].status == status
    {
      status, calls, visits := VisitNext(p, settings, frame, index, before, first, calls, visits, start, inv);
      index := index + 1;
    }
  }

  /** What the caller does last, when it does not repeat. */
  method Finalise(p: Process, ghost before: seq<Event>, ghost calls: seq<Event>, status: U32,
                  ghost start: nat, ghost inv: Shared -> bool)
    requires Closed(p.cfg, inv) && Ongoing(p, before, calls, start, inv) && calls[|calls| - 1].status == status
    modifies p
    ensures inv(p.State())
    ensures Outline(p.log) == before + Script(calls) + Ending(status)
    ensures p.cfg.policy.Rearms() ==> CapturesArmed(p.log, start)
  {
    if status == STATUS_BAD_CAPTURE {
      StartCapture(p, start, inv);
    } else if Discards(status) {
      SendOnly(p, Discard, start, inv);
    }
  }

  /** Everything after the last sequential update. */
  method Conclude(p: Process, settings: Settings, frame: Frame, status: U32, ghost before: seq<Event>,
                  ghost first: Memory, ghost calls: seq<Event>, ghost visits: seq<Visit>,
                  ghost start: nat, ghost inv: Shared -> bool)
      returns (last: U32, ghost calls': seq<Event>, ghost visits': seq<Visit>, ghost repeated: bool)
    requires Closed(p.cfg, inv) && Visited(p, settings, frame, before, first, calls, visits, start, inv)
    requires calls[|calls| - 1].status == status
    modifies p
    ensures inv(p.State())
    ensures repeated <==> status == STATUS_BAD_CAPTURE && !settings.deferCapture
    ensures |calls'| == (if repeated then |calls| + 1 else |calls|) && calls'[..|calls|] == calls
    ensures AllVisits(p.cfg, Arguments(settings, frame), visits', calls') && calls'[|calls'| - 1].status == last
    ensures Buffers(settings, frame, first, visits', |calls|)
    ensures AllReturns(calls') && Outline(p.log) == before + Script(calls') + (if repeated then [] else Ending(last))
    ensures p.cfg.policy.Rearms() ==> CapturesArmed(p.log, start)
  {
    repeated := status == STATUS_BAD_CAPTURE && !settings.deferCapture;
    if status == STATUS_BAD_CAPTURE && !settings.deferCapture {
      last, calls', visits' := Repeat(p, settings, frame, before, first, calls, visits, start, inv);
      NothingAdded(before + Script(calls'));
    } else {
      Finalise(p, before, calls, status, start, inv);
      last, calls', visits' := status, calls, visits;
    }
  }

  /** A whole enrollment attempt.  Under both re-arming policies every capture
      start follows a successful 0x8A with no native command in between; and every
      update gets the caller's arguments, on buffers of which only the ID has been
      rewritten since the update before. */
  method RunEnrollment(p: Process, settings: Settings, frame: Frame, ghost inv: Shared -> bool)
      returns (outcome: Outcome, ghost calls: seq<Event>, ghost repeated: bool, ghost outline: seq<Event>,
               ghost visits: seq<Visit>)
    requires Closed(p.cfg, inv) && inv(p.State())
    modifies p
    ensures inv(p.State())
    ensures outcome.Aborted? <==> settings.sequentialUpdates == 0 || settings.sequentialUpdates > MAX_SEQUENTIAL_UPDATES
    ensures outcome.Aborted? ==> p.State() == old(p.State())
    ensures Outline(p.log) == Outline(old(p.log)) + outline
    ensures outcome.Finished? ==>
              && Transcript(settings, calls, repeated, outline)
              && outcome.status == calls[|calls| - 1].status
              && AllVisits(p.cfg, Arguments(settings, frame), visits, calls)
              && Buffers(settings, frame, Prepare(old(p.memory), settings, frame), visits,
                         if repeated then |calls| - 1 else |calls|)
    ensures p.cfg.policy.Rearms() ==> CapturesArmed(p.log, |old(p.log)|)
  {
    ghost var start, before := |p.log|, Outline(p.log);
    calls, repeated, outline, visits := [], false, [], [];
    if settings.sequentialUpdates == 0 || settings.sequentialUpdates > MAX_SEQUENTIAL_UPDATES {
      return Aborted, calls, repeated, outline, visits;
    }
    SetMemory(p, Prepare(p.memory, settings, frame), inv);
    ghost var first := p.memory;
    var status;
    status, calls, visits := SequentialUpdates(p, settings, frame, start, inv);
    ghost var updates := calls;
    status, calls, visits, repeated :=
      Conclude(p, settings, frame, status, before, first, calls, visits, start, inv);
    outline := Script(calls) + if repeated then [] else Ending(status);
    SuccessesKept(updates, calls);
    Grouped(before, Script(calls), if repeated then [] else Ending(status));
    outcome := Finished(status);
  }

  lemma NothingAdded(s: seq<Event>)
    ensures s + [] == s
  {
  }

  lemma Grouped(a: seq<Event>, b: seq<Event>, c: seq<Event>)
    ensures a + b + c == a + (b + c)
  {
  }

  lemma SuccessesKept(updates: seq<Event>, calls: seq<Event>)
    requires AllReturns(updates) && AllReturns(calls) && updates != [] && updates <= calls
    requires Successes(updates, |updates| - 1)
    ensures Successes(calls, |updates| - 1) && calls[|updates| - 1] == updates[|updates| - 1]
  {
  }
}
