/** Sessions that show where the guarantees end: a commit under the legacy
    policy, and captures that nothing armed. */
module SessionWitnesses {
  import opened Prelude
  import opened DriverTypes
  import opened InterposerMachine
  import opened SoloCalls
  import opened Budgets
  import opened CallerLoop
  import opened OuterDispatch
  import opened SessionTotals

  /** A driver that answers every update with `status` and sets the completion byte. */
  function Answering(policy: Policy, status: U32): Config {
    Config(true, policy, false,
           Native((log, args, memory) => UpdateReply(status, map[0 := [1]]), log => STATUS_SUCCESS), 7)
  }

  const ANY_TASK :=
    Input(UpdateArgs(1, Null, 0, Null, Null, Null, Null), 0, map[0 := [0]], STATUS_SUCCESS, STATUS_SUCCESS)

  /** Answers that the policy hands on as they are. */
  predicate HandedOn(policy: Policy, status: U32) {
    || (policy.LegacyRepeat? && status == STATUS_SUCCESS)
    || (!policy.ZeroInputFreshRearm? && Unarming(Some(status)))
  }

  lemma AnsweredAtOnce(policy: Policy, status: U32, g: Shared)
    requires g.memory == map[0 := [0]] && HandedOn(policy, status)
    ensures var (g', raw) := Solo(Answering(policy, status), g, WrapperArgs(ANY_TASK));
            raw == status && g'.memory == map[0 := [1]]
  {
    var cfg := Answering(policy, status);
    var args := WrapperArgs(ANY_TASK);
    var g0, c0 := g.(log := g.log + [Called(args)]), NewCall(args);
    var c1, c2 := c0.(pc := Before(false)), c0.(pc := Update(false));
    FinishAfter(cfg, g0, c0, g0, c1);
    FinishAfter(cfg, g0, c1, g0, c2);
    assert Write(g.memory, args, map[0 := [1]]) == map[0 := [1]];
    var (g3, c3) := UpdateStep(cfg, g0, c2);
    FinishAfter(cfg, g0, c2, g3, c3);
    var (g4, c4) := AfterStep(cfg, g3, c3);
    FinishAfter(cfg, g3, c3, g4, c4);
  }

  lemma TasksSnoc(cfg: Config, memory: Memory, inputs: seq<Input>, i: Input)
    ensures Tasks(cfg, memory, inputs + [i]) == RunTask(cfg, Tasks(cfg, memory, inputs), i)
  {
    assert (inputs + [i])[..|inputs|] == inputs;
  }

  function Asked(s: Session): Shared {
    WithMemory(WithEvent(s.shared, CaptureStart), ANY_TASK.memory)
  }

  lemma StartQueuesUpdate(cfg: Config, s: Session)
    requires s.queued == Some(Starting)
    ensures var s' := RunTask(cfg, s, ANY_TASK);
            && s'.queued == Some(Updating) && s'.samples == s.samples
            && s'.shared.log == s.shared.log + [Started(STATUS_SUCCESS)]
  {
  }

  // ---------------------------------------------------------------------
  // A commit
  // ---------------------------------------------------------------------

  lemma UpdateQueuesCommit(s: Session)
    requires s.queued == Some(Updating)
    ensures RunTask(Answering(LegacyRepeat, STATUS_SUCCESS), s, ANY_TASK).queued == Some(Committing)
  {
    AnsweredAtOnce(LegacyRepeat, STATUS_SUCCESS, Asked(s));
    CommitQueuedIff(Answering(LegacyRepeat, STATUS_SUCCESS), s, ANY_TASK);
  }

  lemma CommitIsSent(cfg: Config, s: Session, i: Input)
    requires s.queued == Some(Committing)
    ensures Commit in RunTask(cfg, s, i).shared.log
  {
    assert Commit == WithEvent(s.shared, Commit).log[|s.shared.log|];
  }

  /** The restriction to fresh policies is needed: under the legacy policy three
      tasks lead to a commit. */
  lemma LegacyCommits(memory: Memory)
    ensures var cfg := Answering(LegacyRepeat, STATUS_SUCCESS);
            Commit in Tasks(cfg, memory, [] + [ANY_TASK] + [ANY_TASK] + [ANY_TASK]).shared.log
  {
    var cfg := Answering(LegacyRepeat, STATUS_SUCCESS);
    TasksSnoc(cfg, memory, [], ANY_TASK);
    TasksSnoc(cfg, memory, [] + [ANY_TASK], ANY_TASK);
    TasksSnoc(cfg, memory, [] + [ANY_TASK] + [ANY_TASK], ANY_TASK);
    var start := Tasks(cfg, memory, []);
    StartQueuesUpdate(cfg, start);
    UpdateQueuesCommit(RunTask(cfg, start, ANY_TASK));
    CommitIsSent(cfg, RunTask(cfg, RunTask(cfg, start, ANY_TASK), ANY_TASK), ANY_TASK);
  }

  // ---------------------------------------------------------------------
  // Captures that nothing armed
  // ---------------------------------------------------------------------

  /** An update task begins with its capture. */
  lemma CaptureComesFirst(cfg: Config, s: Session, i: Input)
    requires s.queued == Some(Updating)
    ensures var log, log' := s.shared.log, RunTask(cfg, s, i).shared.log;
            |log| < |log'| && log'[..|log|] == log && log'[|log|] == CaptureStart
  {
    var trail := SoloTrail(cfg, WithMemory(WithEvent(s.shared, CaptureStart), i.memory), WrapperArgs(i));
  }

  /** After the answer another capture is queued and the driver is not armed; an
      "enroll more" has become a sample although no update succeeded. */
  lemma AnswerLeavesUnarmed(s: Session, status: U32)
    requires s.queued == Some(Updating) && Unarming(Some(status))
    ensures var s' := RunTask(Answering(FreshRearm, status), s, ANY_TASK);
            && s'.queued == Some(Updating) && !Armed(s'.shared.log)
            && s'.samples == s.samples + (if status == STATUS_ENROLL_MORE then 1 else 0)
            && Count(s'.shared.log, IsSuccess) == Count(s.shared.log, IsSuccess)
  {
    var cfg := Answering(FreshRearm, status);
    var g := RawUpdate(cfg, s, ANY_TASK).0;
    AnsweredAtOnce(FreshRearm, status, Asked(s));
    ArmedAfterUpdate(cfg, Asked(s), WrapperArgs(ANY_TASK));
    CancelKeeps(g.log);
    CountSnoc(s.shared.log, CaptureStart, IsSuccess);
    CountSolo(cfg, Asked(s), WrapperArgs(ANY_TASK), IsSuccess);
    CountSnoc(g.log, CaptureCancel, IsSuccess);
  }

  /** Both exceptions of `SessionCapturesArmed` occur.  With a driver that answers
      0xa4, or one that answers 0x8f, a session of a start and an update under a
      re-arming policy has queued a capture that nothing armed, and the next task
      starts it; 0x8f has been counted as a sample without any success. */
  lemma UnarmedCaptureHappens(memory: Memory, status: U32)
    requires Unarming(Some(status))
    ensures var cfg := Answering(FreshRearm, status);
            var s := Tasks(cfg, memory, [] + [ANY_TASK] + [ANY_TASK]);
            var log := Tasks(cfg, memory, [] + [ANY_TASK] + [ANY_TASK] + [ANY_TASK]).shared.log;
            && s.queued == Some(Updating) && !Armed(s.shared.log)
            && |s.shared.log| < |log| && log[..|s.shared.log|] == s.shared.log && log[|s.shared.log|] == CaptureStart
            && s.samples == (if status == STATUS_ENROLL_MORE then 1 else 0)
            && Count(s.shared.log, IsSuccess) == 0
  {
    var cfg := Answering(FreshRearm, status);
    TasksSnoc(cfg, memory, [], ANY_TASK);
    TasksSnoc(cfg, memory, [] + [ANY_TASK], ANY_TASK);
    TasksSnoc(cfg, memory, [] + [ANY_TASK] + [ANY_TASK], ANY_TASK);
    var start := Tasks(cfg, memory, []);
    var ready := RunTask(cfg, start, ANY_TASK);
    StartQueuesUpdate(cfg, start);
    CountSnoc(start.shared.log, Started(STATUS_SUCCESS), IsSuccess);
    AnswerLeavesUnarmed(ready, status);
    CaptureComesFirst(cfg, RunTask(cfg, ready, ANY_TASK), ANY_TASK);
  }
}
