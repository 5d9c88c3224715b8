/** The budget of 24 zero-input updates is reached and ends exactly when its
    counter wraps, with every driver. */
module ZeroInputTightness {
  import opened Prelude
  import opened DriverTypes
  import opened InterposerMachine
  import opened SoloCalls
  import opened Budgets

  /** Behind its native update a call of a fresh policy makes no other. */
  lemma {:induction false} NoMoreUpdates(cfg: Config, g: Shared, c: Call)
    requires cfg.policy.Fresh()
    requires c.pc.After? || c.pc.AcceptGate? || c.pc.RearmGate? || c.pc.Rearm? || c.pc.Done?
    ensures var (g', c') := Finish(cfg, g, c);
            && g'.zeroInputUpdates == g.zeroInputUpdates
            && Count(c'.trail, IsNativeUpdate) == Count(c.trail, IsNativeUpdate)
    decreases Rank(c.pc)
  {
    if !c.pc.Done? {
      var (g', c') := Step(cfg, g, c);
      NoMoreUpdates(cfg, g', c');
      if c'.trail != c.trail {
        var e := c'.trail[|c.trail|];
        assert c'.trail == c.trail + [e];
        CountSnoc(c.trail, e, IsNativeUpdate);
      }
    }
  }

  /** From the first native update on. */
  lemma OneUpdate(cfg: Config, g: Shared, c: Call)
    requires cfg.policy.Fresh() && c.pc == Before(false)
    ensures var (g', c') := Finish(cfg, g, c);
            && g'.zeroInputUpdates == g.zeroInputUpdates
            && Count(c'.trail, IsNativeUpdate) == Count(c.trail, IsNativeUpdate) + 1
  {
    var (g1, c1) := BeforeStep(cfg, g, c);
    var (g2, c2) := UpdateStep(cfg, g1, c1);
    FinishAfter(cfg, g, c, g1, c1);
    FinishAfter(cfg, g1, c1, g2, c2);
    CountSnoc(c1.trail, c2.trail[|c1.trail|], IsNativeUpdate);
    NoMoreUpdates(cfg, g2, c2);
  }

  /** A call under the zero-input policy that is not refused beforehand draws a
      ticket, and makes one native update if the ticket is in the budget. */
  lemma GatedCall(cfg: Config, g: Shared, args: UpdateArgs)
    requires cfg.ready && cfg.policy.ZeroInputFreshRearm? && args.enrollmentId.At?
    ensures var (g', c') := Finish(cfg, g, NewCall(args));
            && g'.zeroInputUpdates == Increment(g.zeroInputUpdates)
            && Count(c'.trail, IsNativeUpdate) == One(Increment(g.zeroInputUpdates) <= MAX_ZERO_INPUT_UPDATES)
  {
    var (g1, c1) := EnterStep(cfg, g, NewCall(args));
    var (g2, c2) := ZeroGateStep(cfg, g1, c1);
    FinishAfter(cfg, g, NewCall(args), g1, c1);
    FinishAfter(cfg, g1, c1, g2, c2);
    CountSnoc([], ZeroTicket(g2.zeroInputUpdates), IsNativeUpdate);
    if c2.pc.Before? {
      OneUpdate(cfg, g2, c2);
    }
  }

  lemma CountedCall(cfg: Config, g: Shared, args: UpdateArgs)
    requires cfg.ready && cfg.policy.ZeroInputFreshRearm? && args.enrollmentId.At?
    ensures var g' := Solo(cfg, g, args).0;
            && g'.zeroInputUpdates == Increment(g.zeroInputUpdates)
            && Count(g'.log, IsCalled) == Count(g.log, IsCalled) + 1
            && Count(g'.log, IsNativeUpdate) ==
               Count(g.log, IsNativeUpdate) + One(Increment(g.zeroInputUpdates) <= MAX_ZERO_INPUT_UPDATES)
  {
    var begun := WithCall(g, args);
    GatedCall(cfg, begun, args);
    FinishStaysInside(cfg, begun, NewCall(args));
    assert begun.log + [] == begun.log;
    FinishKeepsTrail(cfg, begun, NewCall(args), begun.log);
    var (g', c') := Finish(cfg, begun, NewCall(args));
    CountWhole(g.log, args, c'.trail, c'.pc.status);
    NoneCounted(c'.trail, IsCalled);
  }

  function WithCall(g: Shared, args: UpdateArgs): Shared {
    g.(log := g.log + [Called(args)])
  }

  lemma CountWhole(log: seq<Event>, args: UpdateArgs, trail: seq<Event>, status: U32)
    ensures var whole := log + [Called(args)] + trail + [Returned(status, trail)];
            && Count(whole, IsCalled) == Count(log, IsCalled) + 1 + Count(trail, IsCalled)
            && Count(whole, IsNativeUpdate) == Count(log, IsNativeUpdate) + Count(trail, IsNativeUpdate)
  {
    var begun := log + [Called(args)];
    CountSnoc(log, Called(args), IsCalled);
    CountSnoc(log, Called(args), IsNativeUpdate);
    CountAppend(begun, trail, IsCalled);
    CountAppend(begun, trail, IsNativeUpdate);
    CountSnoc(begun + trail, Returned(status, trail), IsCalled);
    CountSnoc(begun + trail, Returned(status, trail), IsNativeUpdate);
  }

  ghost predicate AfterCalls(w: World, n: nat) {
    && w.calls == map[] && w.shared.zeroInputUpdates == n % WORD
    && Count(w.shared.log, IsCalled) == n
    && Count(w.shared.log, IsNativeUpdate) == Passes(n, MAX_ZERO_INPUT_UPDATES)
  }

  lemma NextCall(cfg: Config, w: World, args: UpdateArgs, n: nat)
    requires cfg.ready && cfg.policy.ZeroInputFreshRearm? && args.enrollmentId.At?
    requires AfterCalls(w, n)
    ensures AfterCalls(World(Solo(cfg, w.shared, args).0, map[]), n + 1)
  {
    CountedCall(cfg, w.shared, args);
    IncrementWraps(n);
  }

  /** `n` calls, one after the other. */
  lemma {:induction false} CallsInARow(cfg: Config, memory: Memory, args: UpdateArgs, n: nat) returns (moves: seq<Move>)
    requires cfg.ready && cfg.policy.ZeroInputFreshRearm? && args.enrollmentId.At?
    ensures AfterCalls(Reach(cfg, memory, moves), n)
  {
    if n == 0 {
      moves := [];
    } else {
      var before := CallsInARow(cfg, memory, args, n - 1);
      moves := ReachThenSolo(cfg, memory, before, args);
      NextCall(cfg, Reach(cfg, memory, before), args, n - 1);
    }
  }

  /** With every driver, `n` calls in a row reach the bound of `ZeroInputBudget`:
      they make at most 24 native updates if and only if `n` is below 2^32, and
      exactly 24 from the 24th call up to there. */
  lemma ZeroInputBudgetExact(cfg: Config, memory: Memory, args: UpdateArgs, n: nat) returns (moves: seq<Move>)
    requires cfg.ready && cfg.policy.ZeroInputFreshRearm? && args.enrollmentId.At?
    ensures var log := Reach(cfg, memory, moves).shared.log;
            && Count(log, IsCalled) == n && Count(log, IsNativeUpdate) == Passes(n, MAX_ZERO_INPUT_UPDATES)
            && (Count(log, IsNativeUpdate) <= MAX_ZERO_INPUT_UPDATES <==> n < WORD)
            && (MAX_ZERO_INPUT_UPDATES <= n < WORD ==> Count(log, IsNativeUpdate) == MAX_ZERO_INPUT_UPDATES)
  {
    moves := CallsInARow(cfg, memory, args, n);
    PassesWithinLimitIff(n, MAX_ZERO_INPUT_UPDATES);
    if n < WORD {
      PassesBeforeWrap(n, MAX_ZERO_INPUT_UPDATES);
    }
  }
}
