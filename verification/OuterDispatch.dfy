/** The vendor plugin around the interposer: the worker that runs one task, the
    wrapper that interprets an update's status, and the callback that decides
    the next task. */
module OuterDispatch {
  import opened Prelude
  import opened DriverTypes
  import opened InterposerMachine
  import opened CallLedger
  import opened SoloCalls
  import opened CallerLoop

  /** Task states, as the device and its tasks carry them. */
  datatype Stage = Starting | Updating | Committing

  datatype Progress = Running | Completed | Failed(status: U32)

  datatype Session = Session(
    shared: Shared,
    stage: Stage,
    samples: nat,
    queued: Option<Stage>,
    progress: Progress)

  /** What the environment contributes to one task. */
  datatype Input = Input(
    args: UpdateArgs,
    completion: nat,
    memory: Memory,
    startStatus: U32,
    commitStatus: U32)

  /** The wrapper always passes a completion byte of its own. */
  function WrapperArgs(i: Input): UpdateArgs {
    i.args.(completion := At(i.completion))
  }

  /** The wrapper's result for a raw update status. */
  function WrapperStatus(raw: U32, completion: Byte): U32 {
    if raw == STATUS_SUCCESS && completion == 0 then STATUS_ENROLL_MORE else raw
  }

  /** What the interposed update makes of the process, and its raw status. */
  function RawUpdate(cfg: Config, s: Session, i: Input): (Shared, U32) {
    Solo(cfg, WithMemory(WithEvent(s.shared, CaptureStart), i.memory), WrapperArgs(i))
  }

  /** One worker task: what it does to the process, and its status. */
  function Work(cfg: Config, s: Session, task: Stage, i: Input): (Shared, U32) {
    match task
    case Starting => (WithEvent(s.shared, Started(i.startStatus)), i.startStatus)
    case Updating =>
      var (g, raw) := RawUpdate(cfg, s, i);
      (if Cancels(raw) then WithEvent(g, CaptureCancel) else g,
       WrapperStatus(raw, PeekByte(g.memory, At(i.completion))))
    case Committing => (WithEvent(s.shared, Commit), i.commitStatus)
  }

  /** The outer callback. */
  function Callback(s: Session, g: Shared, task: Stage, status: U32): Session {
    var s' := s.(shared := g, stage := task, queued := Some(task));
    if status == STATUS_ENROLL_MORE then s'.(samples := s.samples + 1)
    else if status == STATUS_CAPTURE_FAILED || status == STATUS_BAD_CAPTURE then s'
    else if status == STATUS_SUCCESS then
      match task
      case Starting => s'.(stage := Updating, queued := Some(Updating))
      case Updating => s'.(stage := Committing, queued := Some(Committing))
      case Committing => s'.(queued := None, progress := Completed)
    else s'.(shared := WithEvent(g, Discard), stage := Starting, queued := None, progress := Failed(status))
  }

  function RunTask(cfg: Config, s: Session, i: Input): Session {
    if s.queued.None? then s
    else
      var (g, status) := Work(cfg, s, s.queued.value, i);
      Callback(s, g, s.queued.value, status)
  }

  function NewSession(memory: Memory): Session {
    Session(InitialShared(memory), Starting, 0, Some(Starting), Running)
  }

  function Tasks(cfg: Config, memory: Memory, inputs: seq<Input>): Session {
    if inputs == [] then NewSession(memory)
    else RunTask(cfg, Tasks(cfg, memory, inputs[..|inputs| - 1]), inputs[|inputs| - 1])
  }

  // ---------------------------------------------------------------------
  // Commit
  // ---------------------------------------------------------------------

  /** A fresh policy's success never looks complete to the wrapper. */
  lemma FreshNeverComplete(cfg: Config, s: Session, i: Input)
    requires cfg.policy.Fresh()
    ensures Work(cfg, s, Updating, i).1 != STATUS_SUCCESS
  {
    var (g, raw) := RawUpdate(cfg, s, i);
    if raw == STATUS_SUCCESS {
      FreshSuccessIsIncomplete(cfg, WithMemory(WithEvent(s.shared, CaptureStart), i.memory), WrapperArgs(i));
      assert PeekByte(g.memory, At(i.completion)) == 0;
    }
  }

  /** An update moves the session to its commit stage exactly when the legacy
      policy reports a native success that set the completion byte. */
  lemma CommitQueuedIff(cfg: Config, s: Session, i: Input)
    requires s.queued == Some(Updating)
    ensures var (g, raw) := RawUpdate(cfg, s, i);
            RunTask(cfg, s, i).queued == Some(Committing) <==>
            && cfg.policy.LegacyRepeat? && raw == STATUS_SUCCESS
            && PeekByte(g.memory, At(i.completion)) != 0
  {
    if cfg.policy.Fresh() {
      FreshNeverComplete(cfg, s, i);
    }
  }

  ghost predicate Uncommitted(s: Session) {
    && s.queued != Some(Committing) && s.stage != Committing
    && s.progress != Completed && Commit !in s.shared.log
  }

  lemma UpdateWithoutCommit(cfg: Config, g: Shared, args: UpdateArgs)
    requires Commit !in g.log
    ensures Commit !in Solo(cfg, g, args).0.log
  {
    var trail := SoloStaysInside(cfg, g, args);
  }

  lemma TaskStaysUncommitted(cfg: Config, s: Session, i: Input)
    requires cfg.policy.Fresh() && Uncommitted(s)
    ensures Uncommitted(RunTask(cfg, s, i))
  {
    if s.queued == Some(Updating) {
      FreshNeverComplete(cfg, s, i);
      UpdateWithoutCommit(cfg, WithMemory(WithEvent(s.shared, CaptureStart), i.memory), WrapperArgs(i));
    }
  }

  /** Under all three fresh policies, whatever the driver answers, no session
      ever queues, sends or completes a commit. */
  lemma {:induction false} FreshNeverCommits(cfg: Config, memory: Memory, inputs: seq<Input>)
    requires cfg.policy.Fresh()
    ensures Uncommitted(Tasks(cfg, memory, inputs))
  {
    if inputs != [] {
      FreshNeverCommits(cfg, memory, inputs[..|inputs| - 1]);
      TaskStaysUncommitted(cfg, Tasks(cfg, memory, inputs[..|inputs| - 1]), inputs[|inputs| - 1]);
    }
  }

  // ---------------------------------------------------------------------
  // Armed captures
  // ---------------------------------------------------------------------

  /** The status of the last start or update. */
  function LastAnswer(log: seq<Event>): Option<U32> {
    if log == [] then None
    else match log[|log| - 1]
      case Started(status) => Some(status)
      case Returned(status, _) => Some(status)
      case _ => LastAnswer(log[..|log| - 1])
  }

  lemma AnswerSnoc(log: seq<Event>, e: Event)
    ensures LastAnswer(log + [e]) ==
            match e
            case Started(status) => Some(status)
            case Returned(status, _) => Some(status)
            case _ => LastAnswer(log)
  {
  }

  /** Answers after which the callback queues a capture that nothing armed. */
  predicate Unarming(answer: Option<U32>) {
    answer == Some(STATUS_CAPTURE_FAILED) || answer == Some(STATUS_ENROLL_MORE)
  }

  ghost predicate ArmedCaptures(log: seq<Event>) {
    forall i :: 0 <= i < |log| && log[i].CaptureStart? ==> (Armed(log[..i]) <==> !Unarming(LastAnswer(log[..i])))
  }

  lemma ArmedCapturesAppend(log: seq<Event>, more: seq<Event>)
    requires ArmedCaptures(log) && forall e :: e in more ==> !e.CaptureStart?
    ensures ArmedCaptures(log + more)
  {
    forall i | |log| <= i < |log + more| ensures !(log + more)[i].CaptureStart? {
      assert (log + more)[i] == more[i - |log|];
    }
    forall i | 0 <= i < |log + more| && (log + more)[i].CaptureStart?
      ensures Armed((log + more)[..i]) <==> !Unarming(LastAnswer((log + more)[..i]))
    {
      assert (log + more)[..i] == log[..i];
    }
  }

  lemma ArmedCapturesStart(log: seq<Event>)
    requires ArmedCaptures(log) && (Armed(log) <==> !Unarming(LastAnswer(log)))
    ensures ArmedCaptures(log + [CaptureStart])
  {
    var after := log + [CaptureStart];
    forall i | 0 <= i < |after| && after[i].CaptureStart?
      ensures Armed(after[..i]) <==> !Unarming(LastAnswer(after[..i]))
    {
      if i < |log| {
        assert after[..i] == log[..i];
      } else {
        assert after[..i] == log;
      }
    }
  }

  /** The last of a call's native commands, when it was an update. */
  lemma {:induction false} EndsUnarmed(trail: seq<Event>)
    requires Summarize(trail).rearms == [] && Summarize(trail).updates != []
    requires forall e :: e in trail ==> InsideCall(e)
    ensures exists j :: 0 <= j < |trail| && trail[j].NativeUpdate? &&
              forall k :: j < k < |trail| ==> !IsNative(trail[k])
  {
    var n := |trail| - 1;
    if trail[n].NativeUpdate? {
    } else {
      EndsUnarmed(trail[..n]);
      var j :| 0 <= j < n && trail[..n][j].NativeUpdate? && forall k :: j < k < n ==> !IsNative(trail[..n][k]);
      assert trail[j].NativeUpdate?;
      forall k | j < k < |trail| ensures !IsNative(trail[k]) {
        if k < n {
          assert trail[k] == trail[..n][k];
        } else {
          assert InsideCall(trail[n]) && !trail[n].NativeRearm?;
        }
      }
    }
  }

  lemma UnarmedLog(log: seq<Event>, trail: seq<Event>, more: seq<Event>)
    requires Summarize(trail).rearms == [] && Summarize(trail).updates != []
    requires forall e :: e in trail ==> InsideCall(e)
    requires forall e :: e in more ==> !IsNative(e)
    ensures !Armed(log + trail + more)
  {
    EndsUnarmed(trail);
    var j :| 0 <= j < |trail| && trail[j].NativeUpdate? && forall k :: j < k < |trail| ==> !IsNative(trail[k]);
    var whole := log + trail + more;
    assert whole[|log| + j] == trail[j];
    forall k | |log| + j < k < |whole| ensures !IsNative(whole[k]) {
      if k < |log| + |trail| {
        assert whole[k] == trail[k - |log|];
      } else {
        assert whole[k] == more[k - |log| - |trail|];
      }
    }
  }

  /** After an update a re-arming policy has armed the driver exactly when it
      answered success or bad capture; among the answers that queue another
      capture, the other two have not. */
  lemma ArmedAfterUpdate(cfg: Config, g: Shared, args: UpdateArgs)
    requires cfg.policy.Rearms()
    ensures var (g', raw) := Solo(cfg, g, args);
            && LastAnswer(g'.log) == Some(raw)
            && (GoesOn(raw) ==> Armed(g'.log))
            && (raw == STATUS_CAPTURE_FAILED || raw == STATUS_ENROLL_MORE ==> !Armed(g'.log))
  {
    var (g', raw) := Solo(cfg, g, args);
    var trail := SoloStaysInside(cfg, g, args);
    AnswerSnoc(g.log + [Called(args)] + trail, Returned(raw, trail));
    if GoesOn(raw) {
      SoloArms(cfg, g, args);
    } else if raw == STATUS_CAPTURE_FAILED || raw == STATUS_ENROLL_MORE {
      UnarmedLog(g.log + [Called(args)], trail, [Returned(raw, trail)]);
    }
  }

  ghost predicate SessionArmed(s: Session) {
    && ArmedCaptures(s.shared.log)
    && (s.queued == Some(Updating) ==> (Armed(s.shared.log) <==> !Unarming(LastAnswer(s.shared.log))))
  }

  lemma CancelKeeps(log: seq<Event>)
    ensures Armed(log + [CaptureCancel]) <==> Armed(log)
    ensures LastAnswer(log + [CaptureCancel]) == LastAnswer(log)
  {
    AnswerSnoc(log, CaptureCancel);
    if Armed(log) {
      ArmedAppend(log, [CaptureCancel]);
    }
    if Armed(log + [CaptureCancel]) {
      var after := log + [CaptureCancel];
      var j :| 0 <= j < |after| && Arms(after[j]) && forall k :: j < k < |after| ==> !IsNative(after[k]);
      assert Arms(log[j]);
      forall k | j < k < |log| ensures !IsNative(log[k]) {
        assert log[k] == after[k];
      }
    }
  }

  lemma StartArms(log: seq<Event>, status: U32)
    ensures LastAnswer(log + [Started(status)]) == Some(status)
    ensures status == STATUS_SUCCESS ==> Armed(log + [Started(status)])
  {
  }

  /** The process after an update of the session. */
  lemma RawUpdateArmed(cfg: Config, s: Session, i: Input)
    requires cfg.policy.Rearms() && SessionArmed(s) && s.queued == Some(Updating)
    ensures var (g, raw) := RawUpdate(cfg, s, i);
            && ArmedCaptures(g.log) && LastAnswer(g.log) == Some(raw)
            && (GoesOn(raw) ==> Armed(g.log))
            && (raw == STATUS_CAPTURE_FAILED || raw == STATUS_ENROLL_MORE ==> !Armed(g.log))
  {
    var started := WithMemory(WithEvent(s.shared, CaptureStart), i.memory);
    ArmedCapturesStart(s.shared.log);
    var trail := SoloStaysInside(cfg, started, WrapperArgs(i));
    var (g, raw) := RawUpdate(cfg, s, i);
    var added := [Called(WrapperArgs(i))] + trail + [Returned(raw, trail)];
    assert g.log == started.log + added;
    ArmedCapturesAppend(started.log, added);
    ArmedAfterUpdate(cfg, started, WrapperArgs(i));
  }

  lemma UpdateStaysArmed(cfg: Config, s: Session, i: Input)
    requires cfg.policy.Rearms() && SessionArmed(s) && s.queued == Some(Updating)
    ensures SessionArmed(RunTask(cfg, s, i))
  {
    FreshNeverComplete(cfg, s, i);
    RawUpdateArmed(cfg, s, i);
    var g := RawUpdate(cfg, s, i).0;
    CancelKeeps(g.log);
    ArmedCapturesAppend(g.log, [CaptureCancel]);
    ArmedCapturesAppend(Work(cfg, s, Updating, i).0.log, [Discard]);
  }

  lemma TaskStaysArmed(cfg: Config, s: Session, i: Input)
    requires cfg.policy.Rearms() && SessionArmed(s)
    ensures SessionArmed(RunTask(cfg, s, i))
  {
    if s.queued.Some? {
      match s.queued.value
      case Starting =>
        StartArms(s.shared.log, i.startStatus);
        ArmedCapturesAppend(s.shared.log, [Started(i.startStatus)]);
        ArmedCapturesAppend(s.shared.log + [Started(i.startStatus)], [Discard]);
      case Updating => UpdateStaysArmed(cfg, s, i);
      case Committing =>
        ArmedCapturesAppend(s.shared.log, [Commit]);
        ArmedCapturesAppend(s.shared.log + [Commit], [Discard]);
    }
  }

  /** In every session of a re-arming policy, a capture starts armed - after a
      successful 0x8A with no native command since - exactly when the answer
      before it was neither a failed capture nor an "enroll more" of the driver
      itself; these two are queued again without a 0x8A. */
  lemma {:induction false} SessionCapturesArmed(cfg: Config, memory: Memory, inputs: seq<Input>)
    requires cfg.policy.Rearms()
    ensures ArmedCaptures(Tasks(cfg, memory, inputs).shared.log)
    ensures SessionArmed(Tasks(cfg, memory, inputs))
  {
    if inputs != [] {
      SessionCapturesArmed(cfg, memory, inputs[..|inputs| - 1]);
      TaskStaysArmed(cfg, Tasks(cfg, memory, inputs[..|inputs| - 1]), inputs[|inputs| - 1]);
    }
  }
}
