/** Whole sessions: how many samples they can report. */
module SessionTotals {
  import opened Prelude
  import opened DriverTypes
  import opened InterposerMachine
  import opened Budgets
  import opened CallerLoop
  import opened CallerLimits
  import opened OuterDispatch

  /** A session is one of the schedules of the interposer. */
  lemma {:induction false} SessionReachable(cfg: Config, memory: Memory, inputs: seq<Input>)
    ensures Scheduled(cfg, memory)(Tasks(cfg, memory, inputs).shared)
  {
    ScheduledFirst(cfg, memory);
    ScheduledClosed(cfg, memory);
    if inputs != [] {
      SessionReachable(cfg, memory, inputs[..|inputs| - 1]);
      TaskKeeps(cfg, Tasks(cfg, memory, inputs[..|inputs| - 1]), inputs[|inputs| - 1], Scheduled(cfg, memory));
    }
  }

  lemma TaskKeeps(cfg: Config, s: Session, i: Input, inv: Shared -> bool)
    requires Closed(cfg, inv) && inv(s.shared)
    ensures inv(RunTask(cfg, s, i).shared)
  {
  }

  // ---------------------------------------------------------------------
  // Samples
  // ---------------------------------------------------------------------

  /** The driver itself answers "enroll more". */
  predicate ClaimsMore(e: Event) {
    (e.Returned? || e.Started?) && e.status == STATUS_ENROLL_MORE
  }

  predicate IsSample(e: Event) {
    IsSuccess(e) || ClaimsMore(e)
  }

  lemma {:induction false} SamplesSplit(log: seq<Event>)
    ensures Count(log, IsSample) == Count(log, IsSuccess) + Count(log, ClaimsMore)
  {
    if log != [] {
      SamplesSplit(log[1..]);
    }
  }

  lemma CountSolo(cfg: Config, g: Shared, args: UpdateArgs, p: Event -> bool)
    requires forall e :: p(e) ==> Visible(e)
    requires forall status, a, b :: p(Returned(status, a)) == p(Returned(status, b))
    ensures Count(Solo(cfg, g, args).0.log, p) == Count(g.log, p) + One(p(Returned(Solo(cfg, g, args).1, [])))
  {
    var returned := SoloOutline(cfg, g, args);
    CountVisible(g.log, p);
    CountVisible(Solo(cfg, g, args).0.log, p);
    CountSnoc(Outline(g.log), returned, p);
    assert returned == Returned(returned.status, returned.trail);
  }

  ghost predicate SamplesKept(s: Session) {
    s.samples == Count(s.shared.log, IsSample)
  }

  lemma UpdateKeepsSamples(cfg: Config, s: Session, i: Input)
    requires cfg.policy.Fresh() && SamplesKept(s) && s.queued == Some(Updating)
    ensures SamplesKept(RunTask(cfg, s, i))
  {
    FreshNeverComplete(cfg, s, i);
    var g := WithMemory(WithEvent(s.shared, CaptureStart), i.memory);
    CountSnoc(s.shared.log, CaptureStart, IsSample);
    CountSolo(cfg, g, WrapperArgs(i), IsSample);
    CountSnoc(RawUpdate(cfg, s, i).0.log, CaptureCancel, IsSample);
    CountSnoc(Work(cfg, s, Updating, i).0.log, Discard, IsSample);
  }

  lemma TaskKeepsSamples(cfg: Config, s: Session, i: Input)
    requires cfg.policy.Fresh() && SamplesKept(s) && Uncommitted(s)
    ensures SamplesKept(RunTask(cfg, s, i))
  {
    if s.queued == Some(Updating) {
      UpdateKeepsSamples(cfg, s, i);
    } else {
      var started := Started(i.startStatus);
      CountSnoc(s.shared.log, started, IsSample);
      CountSnoc(s.shared.log + [started], Discard, IsSample);
    }
  }

  /** Under a fresh policy the sample counter is the number of updates that
      succeeded plus the "enroll more" answers of the driver itself. */
  lemma {:induction false} SamplesExact(cfg: Config, memory: Memory, inputs: seq<Input>)
    requires cfg.policy.Fresh()
    ensures var s := Tasks(cfg, memory, inputs);
            s.samples == Count(s.shared.log, IsSuccess) + Count(s.shared.log, ClaimsMore)
  {
    SamplesByTask(cfg, memory, inputs);
    SamplesSplit(Tasks(cfg, memory, inputs).shared.log);
  }

  lemma {:induction false} SamplesByTask(cfg: Config, memory: Memory, inputs: seq<Input>)
    requires cfg.policy.Fresh()
    ensures SamplesKept(Tasks(cfg, memory, inputs))
  {
    if inputs != [] {
      var rest := inputs[..|inputs| - 1];
      SamplesByTask(cfg, memory, rest);
      FreshNeverCommits(cfg, memory, rest);
      TaskKeepsSamples(cfg, Tasks(cfg, memory, rest), inputs[|inputs| - 1]);
    }
  }

  /** Under a re-arming policy a session of fewer than 2^32 tasks reports at most
      three samples beyond those the driver claims itself. */
  lemma SamplesBounded(cfg: Config, memory: Memory, inputs: seq<Input>)
    requires cfg.policy.Rearms() && |inputs| < WORD
    ensures var s := Tasks(cfg, memory, inputs);
            s.samples <= MAX_ACCEPTED_UPDATES - 1 + Count(s.shared.log, ClaimsMore)
  {
    var s := Tasks(cfg, memory, inputs);
    SamplesExact(cfg, memory, inputs);
    SessionReachable(cfg, memory, inputs);
    var moves :| Reach(cfg, memory, moves) == World(s.shared, map[]);
    AcceptedBudget(cfg, memory, moves);
    CallsConserved(cfg, memory, moves);
    CallsByTask(cfg, memory, inputs);
  }

  lemma TaskCalls(cfg: Config, s: Session, i: Input)
    ensures Count(RunTask(cfg, s, i).shared.log, IsReturn) <= Count(s.shared.log, IsReturn) + 1
  {
    if s.queued.Some? {
      var g := WithMemory(WithEvent(s.shared, CaptureStart), i.memory);
      CountSnoc(s.shared.log, CaptureStart, IsReturn);
      CountSolo(cfg, g, WrapperArgs(i), IsReturn);
      CountSnoc(RawUpdate(cfg, s, i).0.log, CaptureCancel, IsReturn);
      CountSnoc(s.shared.log, Started(i.startStatus), IsReturn);
      CountSnoc(s.shared.log, Commit, IsReturn);
      CountSnoc(Work(cfg, s, s.queued.value, i).0.log, Discard, IsReturn);
    }
  }

  lemma {:induction false} CallsByTask(cfg: Config, memory: Memory, inputs: seq<Input>)
    ensures Count(Tasks(cfg, memory, inputs).shared.log, IsReturn) <= |inputs|
  {
    if inputs != [] {
      CallsByTask(cfg, memory, inputs[..|inputs| - 1]);
      TaskCalls(cfg, Tasks(cfg, memory, inputs[..|inputs| - 1]), inputs[|inputs| - 1]);
    }
  }
}
