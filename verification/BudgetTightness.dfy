/** The budget of three successes is reached, and ends exactly when the counter
    wraps: a driver that accepts every update shows both. */
module BudgetTightness {
  import opened Prelude
  import opened DriverTypes
  import opened InterposerMachine
  import opened Budgets

  const ZERO_COMPLETION: Memory := map[0 := [0]]
  const ACCEPTING_ARGS := UpdateArgs(1, Null, 0, Null, At(0), Null, Null)

  function Accepting(): Config {
    Config(true, FreshRearm, false,
           Native((log, args, memory) => UpdateReply(STATUS_SUCCESS, map[]), log => STATUS_SUCCESS), 7)
  }

  const UPDATE_EVENTS: seq<Event> :=
    [NativeUpdate(Observation(ACCEPTING_ARGS, ZERO_COMPLETION, STATUS_SUCCESS, ZERO_COMPLETION)), Inspected(Some(0))]

  function GateEvents(g: Shared): seq<Event> {
    var ticket := Increment(g.acceptedIncomplete);
    [AcceptTicket(ticket)]
    + if ticket >= MAX_ACCEPTED_UPDATES then []
      else [RearmTicket(Increment(g.retryAttempt)), NativeRearm(STATUS_SUCCESS)]
  }

  /** The events of one accepted update. */
  function AcceptedEvents(g: Shared): seq<Event> {
    UPDATE_EVENTS + GateEvents(g)
  }

  lemma RearmFinish(g: Shared, c: Call)
    requires c.pc == RearmGate(true)
    ensures var events := [RearmTicket(Increment(g.retryAttempt)), NativeRearm(STATUS_SUCCESS)];
            Finish(Accepting(), g, c) ==
            (g.(retryAttempt := Increment(g.retryAttempt), log := g.log + events),
             c.(pc := Done(STATUS_SUCCESS), trail := c.trail + events))
  {
    var cfg := Accepting();
    var (g1, c1) := Step(cfg, g, c);
    var (g2, c2) := Step(cfg, g1, c1);
    FinishAfter(cfg, g, c, g1, c1);
    FinishAfter(cfg, g1, c1, g2, c2);
    var ticket := RearmTicket(Increment(g.retryAttempt));
    assert (g.log + [ticket]) + [NativeRearm(STATUS_SUCCESS)] == g.log + [ticket, NativeRearm(STATUS_SUCCESS)];
    assert (c.trail + [ticket]) + [NativeRearm(STATUS_SUCCESS)] == c.trail + [ticket, NativeRearm(STATUS_SUCCESS)];
  }

  lemma AcceptFinish(g: Shared, c: Call)
    requires c.pc == AcceptGate
    ensures var ticket := Increment(g.acceptedIncomplete);
            var events := GateEvents(g);
            var (g', c') := Finish(Accepting(), g, c);
            && c'.trail == c.trail + events && g'.log == g.log + events
            && g'.memory == g.memory && g'.acceptedIncomplete == ticket
            && c'.pc == Done(if ticket >= MAX_ACCEPTED_UPDATES then STATUS_EXPERIMENT_FAILURE else STATUS_SUCCESS)
  {
    var (g1, c1) := Step(Accepting(), g, c);
    assert Finish(Accepting(), g, c) == Finish(Accepting(), g1, c1);
    if !c1.pc.Done? {
      RearmFinish(g1, c1);
    }
  }

  /** The result of an accepted update, given the events of its first half. */
  lemma GatedFinish(g: Shared, log: seq<Event>, c: Call)
    requires c.pc == AcceptGate
    ensures var (g', c') := Finish(Accepting(), g.(log := log), c);
            var ticket := Increment(g.acceptedIncomplete);
            && c'.trail == c.trail + GateEvents(g) && g'.log == log + GateEvents(g)
            && g'.memory == g.memory && g'.acceptedIncomplete == ticket
            && c'.pc == Done(if ticket >= MAX_ACCEPTED_UPDATES then STATUS_EXPERIMENT_FAILURE else STATUS_SUCCESS)
  {
    AcceptFinish(g.(log := log), c);
  }

  lemma AcceptingFinish(g: Shared)
    requires g.memory == ZERO_COMPLETION
    ensures var (g', c') := Finish(Accepting(), g, NewCall(ACCEPTING_ARGS));
            var ticket := Increment(g.acceptedIncomplete);
            && c'.trail == AcceptedEvents(g) && g'.log == g.log + AcceptedEvents(g)
            && g'.memory == ZERO_COMPLETION && g'.acceptedIncomplete == ticket
            && c'.pc == Done(if ticket >= MAX_ACCEPTED_UPDATES then STATUS_EXPERIMENT_FAILURE else STATUS_SUCCESS)
  {
    AcceptingStart(g);
    GatedFinish(g, g.log + UPDATE_EVENTS, Gated());
    Associative(g.log, UPDATE_EVENTS, GateEvents(g));
  }

  lemma Associative(a: seq<Event>, b: seq<Event>, c: seq<Event>)
    ensures (a + b) + c == a + (b + c)
  {
  }

  lemma AcceptingStart(g: Shared)
    requires g.memory == ZERO_COMPLETION
    ensures Finish(Accepting(), g, NewCall(ACCEPTING_ARGS)) ==
            Finish(Accepting(), g.(log := g.log + UPDATE_EVENTS), Gated())
  {
    var c := NewCall(ACCEPTING_ARGS);
    FinishAfter(Accepting(), g, c, g, c.(pc := Before(false)));
    FinishAfter(Accepting(), g, c.(pc := Before(false)), g, Updating());
    AcceptingUpdate(g);
  }

  function Updating(): Call {
    NewCall(ACCEPTING_ARGS).(pc := Update(false))
  }

  function Answered(): Call {
    NewCall(ACCEPTING_ARGS).(pc := After(false, STATUS_SUCCESS), trail := UPDATE_EVENTS[..1])
  }

  function Gated(): Call {
    NewCall(ACCEPTING_ARGS).(pc := AcceptGate, trail := UPDATE_EVENTS)
  }

  lemma NativeAccepts(g: Shared)
    requires g.memory == ZERO_COMPLETION
    ensures Step(Accepting(), g, Updating()) == (g.(log := g.log + UPDATE_EVENTS[..1]), Answered())
  {
    assert Write(g.memory, ACCEPTING_ARGS, map[]) == g.memory;
    assert UPDATE_EVENTS[..1] == [UPDATE_EVENTS[0]] == [] + [UPDATE_EVENTS[0]];
  }

  lemma BoundaryAccepts(g: Shared)
    requires g.memory == ZERO_COMPLETION
    ensures Step(Accepting(), g, Answered()) == (g.(log := g.log + UPDATE_EVENTS[1..]), Gated())
  {
    assert Peek(ZERO_COMPLETION, At(0), 1) == [0];
    assert UPDATE_EVENTS[1..] == [UPDATE_EVENTS[1]] && UPDATE_EVENTS[..1] + [UPDATE_EVENTS[1]] == UPDATE_EVENTS;
  }

  lemma AcceptingUpdate(g: Shared)
    requires g.memory == ZERO_COMPLETION
    ensures Finish(Accepting(), g, Updating()) == Finish(Accepting(), g.(log := g.log + UPDATE_EVENTS), Gated())
  {
    var g1 := g.(log := g.log + UPDATE_EVENTS[..1]);
    var g2 := g1.(log := g1.log + UPDATE_EVENTS[1..]);
    NativeAccepts(g);
    BoundaryAccepts(g1);
    TwoSteps(Accepting(), g, Updating(), g1, Answered(), g2, Gated());
    Associative(g.log, UPDATE_EVENTS[..1], UPDATE_EVENTS[1..]);
    assert UPDATE_EVENTS[..1] + UPDATE_EVENTS[1..] == UPDATE_EVENTS;
  }

  lemma TwoSteps(cfg: Config, g: Shared, c: Call, g1: Shared, c1: Call, g2: Shared, c2: Call)
    requires !c.pc.Done? && Step(cfg, g, c) == (g1, c1)
    requires !c1.pc.Done? && Step(cfg, g1, c1) == (g2, c2)
    ensures Finish(cfg, g, c) == Finish(cfg, g2, c2)
  {
  }

  lemma AcceptingCall(g: Shared)
    requires g.memory == ZERO_COMPLETION
    ensures var g' := Solo(Accepting(), g, ACCEPTING_ARGS).0;
            && g'.memory == ZERO_COMPLETION && g'.acceptedIncomplete == Increment(g.acceptedIncomplete)
            && Count(g'.log, IsCalled) == Count(g.log, IsCalled) + 1
            && Count(g'.log, IsSuccess) ==
               Count(g.log, IsSuccess) + One(Increment(g.acceptedIncomplete) <= MAX_ACCEPTED_UPDATES - 1)
  {
    var begun := g.(log := g.log + [Called(ACCEPTING_ARGS)]);
    AcceptingFinish(begun);
    var events := AcceptedEvents(begun);
    var (g', c') := Finish(Accepting(), begun, NewCall(ACCEPTING_ARGS));
    var returned := Returned(c'.pc.status, c'.trail);
    CountSnoc(g.log, Called(ACCEPTING_ARGS), IsCalled);
    CountSnoc(g.log, Called(ACCEPTING_ARGS), IsSuccess);
    CountAppend(begun.log, events, IsCalled);
    CountAppend(begun.log, events, IsSuccess);
    NoneCounted(events, IsCalled);
    NoneCounted(events, IsSuccess);
    CountSnoc(g'.log, returned, IsCalled);
    CountSnoc(g'.log, returned, IsSuccess);
  }

  ghost predicate AfterUpdates(w: World, n: nat) {
    && w.calls == map[] && w.shared.memory == ZERO_COMPLETION && w.shared.acceptedIncomplete == n % WORD
    && Count(w.shared.log, IsCalled) == n
    && Count(w.shared.log, IsSuccess) == Passes(n, MAX_ACCEPTED_UPDATES - 1)
  }

  lemma NextUpdate(w: World, n: nat)
    requires AfterUpdates(w, n)
    ensures AfterUpdates(World(Solo(Accepting(), w.shared, ACCEPTING_ARGS).0, map[]), n + 1)
  {
    AcceptingCall(w.shared);
    IncrementWraps(n);
  }

  /** `n` updates, one after the other. */
  lemma {:induction false} AcceptingRun(n: nat) returns (moves: seq<Move>)
    ensures AfterUpdates(Reach(Accepting(), ZERO_COMPLETION, moves), n)
  {
    if n == 0 {
      moves := [];
    } else {
      var before := AcceptingRun(n - 1);
      moves := ReachThenSolo(Accepting(), ZERO_COMPLETION, before, ACCEPTING_ARGS);
      NextUpdate(Reach(Accepting(), ZERO_COMPLETION, before), n - 1);
    }
  }

  /** Of `n` accepted updates in a row at most three succeed if and only if
      `n` is below 2^32. */
  lemma AcceptedBudgetExact(n: nat)
    ensures exists moves ::
              && Count(Reach(Accepting(), ZERO_COMPLETION, moves).shared.log, IsCalled) == n
              && (Count(Reach(Accepting(), ZERO_COMPLETION, moves).shared.log, IsSuccess) <= 3 <==> n < WORD)
              && (3 <= n < WORD ==> Count(Reach(Accepting(), ZERO_COMPLETION, moves).shared.log, IsSuccess) == 3)
  {
    var moves := AcceptingRun(n);
    PassesWithinLimitIff(n, MAX_ACCEPTED_UPDATES - 1);
    if n < WORD {
      PassesBeforeWrap(n, MAX_ACCEPTED_UPDATES - 1);
    }
    assert Count(Reach(Accepting(), ZERO_COMPLETION, moves).shared.log, IsCalled) == n;
  }
}
