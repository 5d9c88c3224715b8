/** Facts about one call that nobody interrupts. */
module SoloCalls {
  import opened Prelude
  import opened DriverTypes
  import opened InterposerMachine
  import opened CallLedger

  lemma StepKeepsTrail(cfg: Config, g: Shared, c: Call, base: seq<Event>)
    requires !c.pc.Done? && g.log == base + c.trail
    ensures Step(cfg, g, c).0.log == base + Step(cfg, g, c).1.trail
  {
  }

  lemma {:induction false} FinishKeepsTrail(cfg: Config, g: Shared, c: Call, base: seq<Event>)
    requires g.log == base + c.trail
    ensures Finish(cfg, g, c).0.log == base + Finish(cfg, g, c).1.trail
    decreases Rank(c.pc)
  {
    if !c.pc.Done? {
      StepKeepsTrail(cfg, g, c, base);
      FinishKeepsTrail(cfg, Step(cfg, g, c).0, Step(cfg, g, c).1, base);
    }
  }

  lemma {:induction false} FinishKeepsLedger(cfg: Config, g: Shared, c: Call)
    requires Ledger(cfg.policy, c)
    ensures Ledger(cfg.policy, Finish(cfg, g, c).1)
    decreases Rank(c.pc)
  {
    if !c.pc.Done? {
      StepKeepsLedger(cfg, g, c);
      FinishKeepsLedger(cfg, Step(cfg, g, c).0, Step(cfg, g, c).1);
    }
  }

  /** The trail of a whole call, and the contract it keeps. */
  lemma SoloTrail(cfg: Config, g: Shared, args: UpdateArgs) returns (trail: seq<Event>)
    ensures var (g', status) := Solo(cfg, g, args);
            && g'.log == g.log + [Called(args)] + trail + [Returned(status, trail)]
            && Contract(cfg.policy, trail, status)
  {
    var begun := g.(log := g.log + [Called(args)]);
    assert begun.log + [] == begun.log;
    FinishKeepsTrail(cfg, begun, NewCall(args), begun.log);
    FinishKeepsLedger(cfg, begun, NewCall(args));
    trail := Finish(cfg, begun, NewCall(args)).1.trail;
  }

  /** What the interposer itself causes, as opposed to the program around it. */
  predicate InsideCall(e: Event) {
    !e.Called? && !e.Returned? && !CallerEvent(e)
  }

  lemma {:induction false} FinishStaysInside(cfg: Config, g: Shared, c: Call)
    requires forall e :: e in c.trail ==> InsideCall(e)
    ensures forall e :: e in Finish(cfg, g, c).1.trail ==> InsideCall(e)
    decreases Rank(c.pc)
  {
    if !c.pc.Done? {
      var (g', c') := Step(cfg, g, c);
      FinishStaysInside(cfg, g', c');
    }
  }

  lemma SoloStaysInside(cfg: Config, g: Shared, args: UpdateArgs) returns (trail: seq<Event>)
    ensures var (g', status) := Solo(cfg, g, args);
            && g'.log == g.log + [Called(args)] + trail + [Returned(status, trail)]
            && Contract(cfg.policy, trail, status)
            && (forall e :: e in trail ==> InsideCall(e))
  {
    trail := SoloTrail(cfg, g, args);
    var begun := g.(log := g.log + [Called(args)]);
    FinishStaysInside(cfg, begun, NewCall(args));
    var c := Finish(cfg, begun, NewCall(args)).1;
    assert Solo(cfg, g, args).0.log[|g.log| + 1 + |trail|] == Returned(c.pc.status, trail);
    assert |Solo(cfg, g, args).0.log| == |g.log| + 2 + |trail|;
  }

  // ---------------------------------------------------------------------
  // Success means an incomplete update
  // ---------------------------------------------------------------------

  /** On the way to a fresh policy's success the completion byte stays zero. */
  predicate Incomplete(g: Shared, c: Call) {
    c.pc == AcceptGate || c.pc == RearmGate(true) || c.pc == Rearm(true) || c.pc == Done(STATUS_SUCCESS) ==>
      CompletionByte(g.memory, c.args) == Some(0)
  }

  lemma {:induction false} FinishIncomplete(cfg: Config, g: Shared, c: Call)
    requires cfg.policy.Fresh() && Incomplete(g, c)
    ensures Incomplete(Finish(cfg, g, c).0, Finish(cfg, g, c).1)
    ensures Finish(cfg, g, c).1.args.completion == c.args.completion
    decreases Rank(c.pc)
  {
    if !c.pc.Done? {
      var (g', c') := Step(cfg, g, c);
      FinishIncomplete(cfg, g', c');
    }
  }

  /** A fresh policy returns success only with a completion pointer whose byte
      is zero: the caller can only see an unfinished enrollment. */
  lemma FreshSuccessIsIncomplete(cfg: Config, g: Shared, args: UpdateArgs)
    requires cfg.policy.Fresh() && Solo(cfg, g, args).1 == STATUS_SUCCESS
    ensures CompletionByte(Solo(cfg, g, args).0.memory, args) == Some(0)
  {
    FinishIncomplete(cfg, g.(log := g.log + [Called(args)]), NewCall(args));
  }

  // ---------------------------------------------------------------------
  // The stable zero input
  // ---------------------------------------------------------------------

  /** A native update that was given the static buffer, all zero. */
  predicate GivenZeros(cfg: Config, e: Event) {
    e.NativeUpdate? ==>
      && e.observation.args.enrollmentId == At(cfg.zeroInput)
      && Peek(e.observation.before, At(cfg.zeroInput), VALUE_SIZE) == Zeros(VALUE_SIZE)
  }

  ghost predicate ZeroInputKept(cfg: Config, g: Shared, c: Call) {
    && (forall e :: e in c.trail ==> GivenZeros(cfg, e))
    && (c.pc.Before? || c.pc.Update? ==>
          && c.args.enrollmentId == At(cfg.zeroInput)
          && Peek(g.memory, At(cfg.zeroInput), VALUE_SIZE) == Zeros(VALUE_SIZE))
  }

  lemma {:induction false} FinishKeepsZeroInput(cfg: Config, g: Shared, c: Call)
    requires cfg.policy.ZeroInputFreshRearm? && ZeroInputKept(cfg, g, c)
    ensures forall e :: e in Finish(cfg, g, c).1.trail ==> GivenZeros(cfg, e)
    decreases Rank(c.pc)
  {
    if !c.pc.Done? {
      var (g', c') := Step(cfg, g, c);
      ZeroInputStep(cfg, g, c);
      FinishKeepsZeroInput(cfg, g', c');
    }
  }

  lemma ZeroInputStep(cfg: Config, g: Shared, c: Call)
    requires cfg.policy.ZeroInputFreshRearm? && ZeroInputKept(cfg, g, c) && !c.pc.Done?
    ensures ZeroInputKept(cfg, Step(cfg, g, c).0, Step(cfg, g, c).1)
  {
  }

  /** Under the zero-input policy every native update of an uninterrupted call
      receives the static buffer with twenty zero bytes, even if earlier native
      calls wrote to that buffer. */
  lemma ZeroInputStable(cfg: Config, g: Shared, args: UpdateArgs)
    requires cfg.policy.ZeroInputFreshRearm?
    ensures |g.log| <= |Solo(cfg, g, args).0.log|
    ensures forall e :: e in Solo(cfg, g, args).0.log[|g.log|..] ==> GivenZeros(cfg, e)
  {
    var begun := g.(log := g.log + [Called(args)]);
    FinishKeepsZeroInput(cfg, begun, NewCall(args));
    assert begun.log + [] == begun.log;
    FinishKeepsTrail(cfg, begun, NewCall(args), begun.log);
    var (g', c') := Finish(cfg, begun, NewCall(args));
    var added := [Called(args)] + c'.trail + [Returned(c'.pc.status, c'.trail)];
    assert Solo(cfg, g, args).0.log == g.log + added;
    assert (g.log + added)[|g.log|..] == added;
  }
}
