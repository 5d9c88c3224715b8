/** How often the enrollment loop captures, cancels and discards. */
module CallerLimits {
  import opened Prelude
  import opened DriverTypes
  import opened InterposerMachine
  import opened CallLedger
  import opened Budgets
  import opened Interposer
  import opened CallerLoop

  predicate IsReturn(e: Event) { e.Returned? }

  predicate IsCapture(e: Event) { e.CaptureStart? }

  predicate IsCancel(e: Event) { e.CaptureCancel? }

  predicate IsDiscard(e: Event) { e.Discard? }

  // ---------------------------------------------------------------------
  // Every call started has returned or is in progress
  // ---------------------------------------------------------------------

  ghost predicate CallsAccounted(w: World) {
    Count(w.shared.log, IsCalled) == Count(w.shared.log, IsReturn) + |w.calls|
  }

  lemma PlayAccountsCalls(cfg: Config, w: World, m: Move)
    requires CallsAccounted(w)
    ensures CallsAccounted(Play(cfg, w, m))
  {
    var w' := Play(cfg, w, m);
    if m.Advance? && m.thread in w.calls && !w.calls[m.thread].pc.Done? {
      StepEmits(cfg, w.shared, w.calls[m.thread]);
      assert w'.calls.Keys == w.calls.Keys;
      SameSize(w.calls, w'.calls);
      if w'.shared.log != w.shared.log {
        var e :| w'.shared.log == w.shared.log + [e] && !e.Returned? && !e.Called?;
        CountSnoc(w.shared.log, e, IsCalled);
        CountSnoc(w.shared.log, e, IsReturn);
      }
    } else if w'.shared.log != w.shared.log {
      var e := w'.shared.log[|w.shared.log|];
      assert w'.shared.log == w.shared.log + [e];
      CountSnoc(w.shared.log, e, IsCalled);
      CountSnoc(w.shared.log, e, IsReturn);
    }
  }

  lemma SameSize(a: map<nat, Call>, b: map<nat, Call>)
    requires a.Keys == b.Keys
    ensures |a| == |b|
  {
  }

  lemma {:induction false} RunAccountsCalls(cfg: Config, w: World, moves: seq<Move>)
    requires CallsAccounted(w)
    ensures CallsAccounted(Run(cfg, w, moves))
  {
    if moves != [] {
      RunAccountsCalls(cfg, w, moves[..|moves| - 1]);
      PlayAccountsCalls(cfg, Run(cfg, w, moves[..|moves| - 1]), moves[|moves| - 1]);
    }
  }

  /** In every schedule the calls begun are the calls returned and the calls in
      progress. */
  lemma CallsConserved(cfg: Config, memory: Memory, moves: seq<Move>)
    ensures var w := Reach(cfg, memory, moves);
            Count(w.shared.log, IsCalled) == Count(w.shared.log, IsReturn) + |w.calls|
  {
    RunAccountsCalls(cfg, World(InitialShared(memory), map[]), moves);
  }

  // ---------------------------------------------------------------------
  // Counting in a transcript
  // ---------------------------------------------------------------------

  lemma {:induction false} CountVisible(log: seq<Event>, p: Event -> bool)
    requires forall e :: p(e) ==> Visible(e)
    ensures Count(Outline(log), p) == Count(log, p)
  {
    if log != [] {
      CountVisible(log[1..], p);
      if Visible(log[0]) {
        assert Outline(log)[1..] == Outline(log[1..]);
      }
    }
  }

  lemma CountReturn(returned: Event, p: Event -> bool)
    requires returned.Returned?
    ensures Count(AfterReturn(returned), p) ==
            One(p(returned)) + One(Cancels(returned.status) && p(CaptureCancel))
  {
    CountSnoc([], returned, p);
    assert [] + [returned] == [returned];
    CountSnoc([returned], CaptureCancel, p);
    assert [returned] + [CaptureCancel] == [returned, CaptureCancel];
  }

  ghost predicate GoOn(calls: seq<Event>, n: nat)
    requires n <= |calls| && AllReturns(calls)
  {
    forall i :: 0 <= i < n ==> GoesOn(calls[i].status)
  }

  lemma {:induction false} CountScript(calls: seq<Event>, p: Event -> bool)
    requires AllReturns(calls) && calls != [] && GoOn(calls, |calls| - 1)
    ensures Count(Script(calls), p) ==
            Count(calls, p) + (|calls| - 1) * One(p(CaptureStart))
            + One(Cancels(calls[|calls| - 1].status) && p(CaptureCancel))
  {
    var n := |calls| - 1;
    var rest, last := calls[..n], calls[n];
    assert calls == rest + [last];
    CountSnoc(rest, last, p);
    CountReturn(last, p);
    if n == 0 {
      assert Script(calls) == AfterReturn(last);
    } else {
      CountScript(rest, p);
      CountSnoc(Script(rest), CaptureStart, p);
      CountAppend(Script(rest) + [CaptureStart], AfterReturn(last), p);
      assert Script(calls) == Script(rest) + [CaptureStart] + AfterReturn(last);
    }
  }

  lemma TranscriptGoesOn(settings: Settings, calls: seq<Event>, repeated: bool, outline: seq<Event>)
    requires Transcript(settings, calls, repeated, outline)
    ensures GoOn(calls, |calls| - 1)
  {
  }

  lemma CountEnding(status: U32, p: Event -> bool)
    ensures Count(Ending(status), p) ==
            if status == STATUS_BAD_CAPTURE then One(p(CaptureStart)) else One(Discards(status) && p(Discard))
  {
    CountSnoc([], CaptureStart, p);
    CountSnoc([], Discard, p);
    assert [] + [CaptureStart] == [CaptureStart] && [] + [Discard] == [Discard];
  }

  lemma CountTranscript(settings: Settings, calls: seq<Event>, repeated: bool, outline: seq<Event>, p: Event -> bool)
    requires Transcript(settings, calls, repeated, outline)
    ensures Count(outline, p) == Count(Script(calls), p)
            + if repeated then 0 else Count(Ending(calls[|calls| - 1].status), p)
  {
    CountAppend(Script(calls), if repeated then [] else Ending(calls[|calls| - 1].status), p);
  }

  /** Every run cancels at most once, exactly when its last status is one the
      wrapper does not know; it discards at most once; and it captures once
      between any two updates. */
  lemma TranscriptCommands(settings: Settings, calls: seq<Event>, repeated: bool, outline: seq<Event>)
    requires Transcript(settings, calls, repeated, outline)
    ensures var last := calls[|calls| - 1].status;
            && Count(outline, IsReturn) == |calls|
            && Count(outline, IsCancel) == (if Cancels(last) then 1 else 0)
            && Count(outline, IsDiscard) ==
               (if !repeated && last != STATUS_BAD_CAPTURE && Discards(last) then 1 else 0)
            && Count(outline, IsCapture) ==
               |calls| - 1 + (if !repeated && last == STATUS_BAD_CAPTURE then 1 else 0)
  {
    TranscriptGoesOn(settings, calls, repeated, outline);
    TranscriptCount(settings, calls, repeated, outline, IsReturn);
    TranscriptCount(settings, calls, repeated, outline, IsCancel);
    TranscriptCount(settings, calls, repeated, outline, IsDiscard);
    TranscriptCount(settings, calls, repeated, outline, IsCapture);
    FilterAll(calls, IsReturn);
    NoneCounted(calls, IsCancel);
    NoneCounted(calls, IsDiscard);
    NoneCounted(calls, IsCapture);
  }

  lemma TranscriptCount(settings: Settings, calls: seq<Event>, repeated: bool, outline: seq<Event>, p: Event -> bool)
    requires Transcript(settings, calls, repeated, outline)
    ensures var last := calls[|calls| - 1].status;
            Count(outline, p) ==
            Count(calls, p) + (|calls| - 1) * One(p(CaptureStart)) + One(Cancels(last) && p(CaptureCancel))
            + (if repeated then 0
               else if last == STATUS_BAD_CAPTURE then One(p(CaptureStart))
               else One(Discards(last) && p(Discard)))
  {
    TranscriptGoesOn(settings, calls, repeated, outline);
    CountTranscript(settings, calls, repeated, outline, p);
    CountScript(calls, p);
    CountEnding(calls[|calls| - 1].status, p);
  }

  lemma {:induction false} SuccessesCounted(calls: seq<Event>, n: nat)
    requires AllReturns(calls) && n <= |calls| && Successes(calls, n)
    ensures n <= Count(calls, IsSuccess)
  {
    FilterAll(calls[..n], IsSuccess);
    assert calls == calls[..n] + calls[n..];
    CountAppend(calls[..n], calls[n..], IsSuccess);
  }

  // ---------------------------------------------------------------------
  // A run in a new process
  // ---------------------------------------------------------------------

  /** Some schedule leads to this state, with no call in progress. */
  ghost function Scheduled(cfg: Config, origin: Memory): Shared -> bool {
    (g: Shared) => exists moves :: Reach(cfg, origin, moves) == World(g, map[])
  }

  lemma ScheduledFirst(cfg: Config, origin: Memory)
    ensures Scheduled(cfg, origin)(InitialShared(origin))
  {
    assert Reach(cfg, origin, []) == World(InitialShared(origin), map[]);
  }

  lemma ScheduledClosed(cfg: Config, origin: Memory)
    ensures Closed(cfg, Scheduled(cfg, origin))
  {
    var inv := Scheduled(cfg, origin);
    forall g, args | inv(g) ensures inv(Solo(cfg, g, args).0) {
      var moves :| Reach(cfg, origin, moves) == World(g, map[]);
      var after := ReachThenSolo(cfg, origin, moves, args);
      assert Reach(cfg, origin, after) == World(Solo(cfg, g, args).0, map[]);
    }
    forall g, memory | inv(g) ensures inv(WithMemory(g, memory)) {
      var moves :| Reach(cfg, origin, moves) == World(g, map[]);
      var after := ReachThenMove(cfg, origin, moves, Touch(memory));
      assert Reach(cfg, origin, after) == World(WithMemory(g, memory), map[]);
    }
    forall g, e | inv(g) && CallerEvent(e) ensures inv(WithEvent(g, e)) {
      var moves :| Reach(cfg, origin, moves) == World(g, map[]);
      var after := ReachThenMove(cfg, origin, moves, Send(e));
      assert Reach(cfg, origin, after) == World(WithEvent(g, e), map[]);
    }
  }

  lemma FewCaptures(cfg: Config, origin: Memory, g: Shared, settings: Settings, calls: seq<Event>,
                    repeated: bool, outline: seq<Event>)
    requires cfg.policy.Rearms() && settings.sequentialUpdates <= MAX_SEQUENTIAL_UPDATES
    requires Scheduled(cfg, origin)(g)
    requires Transcript(settings, calls, repeated, outline) && Outline(g.log) == outline
    ensures Count(g.log, IsSuccess) <= 3 && Count(g.log, IsCapture) <= 4
  {
    var moves :| Reach(cfg, origin, moves) == World(g, map[]);
    var log := g.log;
    CallsConserved(cfg, origin, moves);
    TranscriptCommands(settings, calls, repeated, outline);
    CountVisible(log, IsReturn);
    CountVisible(log, IsCapture);
    CountVisible(log, IsSuccess);
    AcceptedBudget(cfg, origin, moves);
    TranscriptCount(settings, calls, repeated, outline, IsSuccess);
    var updates := if repeated then |calls| - 1 else |calls|;
    SuccessesCounted(calls, updates - 1);
  }

  /** The whole program: a new process, one enrollment attempt.  A re-arming
      policy lets it start at most four captures, each of them armed. */
  method EnrollOnce(cfg: Config, memory: Memory, settings: Settings, frame: Frame)
      returns (outcome: Outcome, log: seq<Event>)
    ensures outcome.Aborted? ==> log == []
    ensures Count(log, IsCancel) <= 1 && Count(log, IsDiscard) <= 1
    ensures outcome.Finished? && Cancels(outcome.status) ==> Count(log, IsCancel) == 1
    ensures cfg.policy.Rearms() ==> CapturesArmed(log, 0) && Count(log, IsCapture) <= 4 && Count(log, IsSuccess) <= 3
  {
    var p := new Process(cfg, memory);
    ghost var inv := Scheduled(cfg, memory);
    ScheduledClosed(cfg, memory);
    ScheduledFirst(cfg, memory);
    ghost var calls, repeated, outline, visits;
    outcome, calls, repeated, outline, visits := RunEnrollment(p, settings, frame, inv);
    log := p.log;
    if outcome.Finished? {
      assert [] + outline == outline;
      TranscriptCommands(settings, calls, repeated, outline);
      CountVisible(log, IsCancel);
      CountVisible(log, IsDiscard);
      if cfg.policy.Rearms() {
        assert Scheduled(cfg, memory)(p.State());
        FewCaptures(cfg, memory, p.State(), settings, calls, repeated, outline);
      }
    }
  }
}
