/** Budgets that hold under every interleaving of any number of threads. */
module Budgets {
  import opened Prelude
  import opened DriverTypes
  import opened InterposerMachine
  import opened CallLedger
  import opened Holding

  function Count(log: seq<Event>, p: Event -> bool): nat {
    |Filter(log, p)|
  }

  lemma CountSnoc(log: seq<Event>, e: Event, p: Event -> bool)
    ensures Count(log + [e], p) == Count(log, p) + if p(e) then 1 else 0
  {
    FilterAppend(log, [e], p);
    assert [e][1..] == [];
  }

  lemma CountAppend(a: seq<Event>, b: seq<Event>, p: Event -> bool)
    ensures Count(a + b, p) == Count(a, p) + Count(b, p)
  {
    FilterAppend(a, b, p);
  }

  lemma NoneCounted(events: seq<Event>, p: Event -> bool)
    requires forall e :: e in events ==> !p(e)
    ensures Count(events, p) == 0
  {
    FilterNone(events, p);
  }

  // ---------------------------------------------------------------------
  // Double-entry accounting for one kind of permission
  // ---------------------------------------------------------------------

  /** A permission is created by `granted` events, carried by calls that are
      `holding` it, and consumed by `spent` events. */
  datatype Permission = Permission(granted: Event -> bool, holding: Call -> bool, spent: Event -> bool)

  function One(b: bool): nat {
    if b then 1 else 0
  }

  /** No step, start or return of a call spends what it does not hold. */
  ghost predicate Accountable(cfg: Config, k: Permission) {
    && (forall g: Shared, c: Call :: !c.pc.Done? ==> StepPays(cfg, k, g, c))
    && (forall args :: One(k.spent(Called(args))) + One(k.holding(NewCall(args))) <= One(k.granted(Called(args))))
    && (forall c: Call :: c.pc.Done? ==> ReturnPays(k, c))
    && (forall e :: CallerEvent(e) ==> One(k.spent(e)) <= One(k.granted(e)))
  }

  predicate StepPays(cfg: Config, k: Permission, g: Shared, c: Call)
    requires !c.pc.Done?
  {
    var (g', c') := Step(cfg, g, c);
    if c'.trail == c.trail then One(k.holding(c')) <= One(k.holding(c))
    else
      var e := if |c'.trail| > 0 then c'.trail[|c'.trail| - 1] else CaptureStart;
      One(k.spent(e)) + One(k.holding(c')) <= One(k.holding(c)) + One(k.granted(e))
  }

  predicate ReturnPays(k: Permission, c: Call)
    requires c.pc.Done?
  {
    var e := Returned(c.pc.status, c.trail);
    One(k.spent(e)) <= One(k.holding(c)) + One(k.granted(e))
  }

  ghost predicate Balanced(k: Permission, w: World) {
    Count(w.shared.log, k.spent) + |Holders(w.calls, k.holding)| <= Count(w.shared.log, k.granted)
  }

  lemma AdvanceBalanced(cfg: Config, w: World, t: nat, k: Permission)
    requires Accountable(cfg, k) && Balanced(k, w)
    requires t in w.calls && !w.calls[t].pc.Done?
    ensures Balanced(k, Play(cfg, w, Advance(t)))
  {
    var (g', c') := Step(cfg, w.shared, w.calls[t]);
    assert StepPays(cfg, k, w.shared, w.calls[t]);
    StepEmits(cfg, w.shared, w.calls[t]);
    HoldersUpdate(w.calls, t, c', k.holding);
    if c'.trail != w.calls[t].trail {
      var e :| g'.log == w.shared.log + [e] && c'.trail == w.calls[t].trail + [e];
      CountSnoc(w.shared.log, e, k.spent);
      CountSnoc(w.shared.log, e, k.granted);
    } else {
      StepSilent(cfg, w.shared, w.calls[t]);
    }
  }

  lemma StepSilent(cfg: Config, g: Shared, c: Call)
    requires !c.pc.Done? && Step(cfg, g, c).1.trail == c.trail
    ensures Step(cfg, g, c).0.log == g.log
  {
  }

  lemma PlayBalanced(cfg: Config, w: World, m: Move, k: Permission)
    requires Accountable(cfg, k) && Balanced(k, w)
    ensures Balanced(k, Play(cfg, w, m))
  {
    var log := w.shared.log;
    match m
    case Begin(t, args) =>
      if t !in w.calls {
        HoldersUpdate(w.calls, t, NewCall(args), k.holding);
        CountSnoc(log, Called(args), k.spent);
        CountSnoc(log, Called(args), k.granted);
      }
    case Advance(t) =>
      if t in w.calls && !w.calls[t].pc.Done? {
        AdvanceBalanced(cfg, w, t, k);
      } else if t in w.calls {
        var c := w.calls[t];
        assert ReturnPays(k, c);
        HoldersRemove(w.calls, t, k.holding);
        CountSnoc(log, Returned(c.pc.status, c.trail), k.spent);
        CountSnoc(log, Returned(c.pc.status, c.trail), k.granted);
      }
    case Touch(_) =>
    case Send(e) =>
      CountSnoc(log, e, k.spent);
      CountSnoc(log, e, k.granted);
  }

  lemma {:induction false} RunBalanced(cfg: Config, w: World, moves: seq<Move>, k: Permission)
    requires Accountable(cfg, k) && Balanced(k, w)
    ensures Balanced(k, Run(cfg, w, moves))
  {
    if moves != [] {
      RunBalanced(cfg, w, moves[..|moves| - 1], k);
      PlayBalanced(cfg, Run(cfg, w, moves[..|moves| - 1]), moves[|moves| - 1], k);
    }
  }

  /** What an accountable permission means for every schedule. */
  lemma SpentAtMostGranted(cfg: Config, memory: Memory, moves: seq<Move>, k: Permission)
    requires Accountable(cfg, k)
    ensures Count(Reach(cfg, memory, moves).shared.log, k.spent) <=
            Count(Reach(cfg, memory, moves).shared.log, k.granted)
  {
    assert Holders(map[], k.holding) == {};
    RunBalanced(cfg, World(InitialShared(memory), map[]), moves, k);
  }

  // ---------------------------------------------------------------------
  // The 32-bit counters
  // ---------------------------------------------------------------------

  datatype Kind = ZeroInput | Accepted | Retry

  function CounterOf(kind: Kind, g: Shared): U32 {
    match kind
    case ZeroInput => g.zeroInputUpdates
    case Accepted => g.acceptedIncomplete
    case Retry => g.retryAttempt
  }

  function TicketValue(kind: Kind, e: Event): Option<U32> {
    match e
    case ZeroTicket(v) => if kind.ZeroInput? then Some(v) else None
    case AcceptTicket(v) => if kind.Accepted? then Some(v) else None
    case RearmTicket(v) => if kind.Retry? then Some(v) else None
    case _ => None
  }

  function IsTicket(kind: Kind): Event -> bool {
    e => TicketValue(kind, e).Some?
  }

  function IsLowTicket(kind: Kind, limit: nat): Event -> bool {
    e => TicketValue(kind, e).Some? && TicketValue(kind, e).value <= limit
  }

  /** How many of the first `n` tickets of a wrapping counter do not exceed `limit`. */
  function Passes(n: nat, limit: nat): nat {
    if n == 0 then 0 else Passes(n - 1, limit) + One(n % WORD <= limit)
  }

  ghost predicate CounterKept(kind: Kind, limit: nat, w: World) {
    var n := Count(w.shared.log, IsTicket(kind));
    CounterOf(kind, w.shared) == n % WORD && Count(w.shared.log, IsLowTicket(kind, limit)) == Passes(n, limit)
  }

  /** The counter moves exactly with a ticket, and the ticket shows its value. */
  ghost predicate Draws(kind: Kind, g: Shared, g': Shared) {
    if g'.log == g.log then CounterOf(kind, g') == CounterOf(kind, g)
    else
      && |g'.log| == |g.log| + 1 && g'.log[..|g.log|] == g.log
      && var v := TicketValue(kind, g'.log[|g.log|]);
         if v.Some? then CounterOf(kind, g') == Increment(CounterOf(kind, g)) == v.value
         else CounterOf(kind, g') == CounterOf(kind, g)
  }

  lemma StepDraws(cfg: Config, g: Shared, c: Call, kind: Kind)
    requires !c.pc.Done?
    ensures Draws(kind, g, Step(cfg, g, c).0)
  {
  }

  lemma PlayDraws(cfg: Config, w: World, m: Move, kind: Kind)
    ensures Draws(kind, w.shared, Play(cfg, w, m).shared)
  {
    if m.Advance? && m.thread in w.calls && !w.calls[m.thread].pc.Done? {
      StepDraws(cfg, w.shared, w.calls[m.thread], kind);
    }
  }

  lemma DrawKeepsCounter(kind: Kind, limit: nat, w: World, w': World)
    requires CounterKept(kind, limit, w) && Draws(kind, w.shared, w'.shared)
    ensures CounterKept(kind, limit, w')
  {
    var log, log' := w.shared.log, w'.shared.log;
    if log' != log {
      assert log' == log + [log'[|log|]];
      CountSnoc(log, log'[|log|], IsTicket(kind));
      CountSnoc(log, log'[|log|], IsLowTicket(kind, limit));
      IncrementWraps(Count(log, IsTicket(kind)));
    }
  }

  lemma {:induction false} RunKeepsCounter(cfg: Config, w: World, moves: seq<Move>, kind: Kind, limit: nat)
    requires CounterKept(kind, limit, w)
    ensures CounterKept(kind, limit, Run(cfg, w, moves))
  {
    if moves != [] {
      var before := Run(cfg, w, moves[..|moves| - 1]);
      RunKeepsCounter(cfg, w, moves[..|moves| - 1], kind, limit);
      PlayDraws(cfg, before, moves[|moves| - 1], kind);
      DrawKeepsCounter(kind, limit, before, Play(cfg, before, moves[|moves| - 1]));
    }
  }

  lemma CountersCorrect(cfg: Config, memory: Memory, moves: seq<Move>, kind: Kind, limit: nat)
    ensures CounterKept(kind, limit, Reach(cfg, memory, moves))
  {
    RunKeepsCounter(cfg, World(InitialShared(memory), map[]), moves, kind, limit);
  }

  lemma {:induction false} PassesMonotone(n: nat, m: nat, limit: nat)
    requires n <= m
    ensures Passes(n, limit) <= Passes(m, limit)
    decreases m - n
  {
    if n < m {
      PassesMonotone(n, m - 1, limit);
    }
  }

  lemma {:induction false} PassesBeforeWrap(n: nat, limit: nat)
    requires n < WORD
    ensures Passes(n, limit) == if n < limit then n else limit
  {
    if n > 0 {
      PassesBeforeWrap(n - 1, limit);
    }
  }

  /** The limit holds exactly until the counter wraps. */
  lemma PassesWithinLimitIff(n: nat, limit: nat)
    requires limit < WORD - 1
    ensures Passes(n, limit) <= limit <==> n < WORD
  {
    if n < WORD {
      PassesBeforeWrap(n, limit);
    } else {
      PassesBeforeWrap(WORD - 1, limit);
      PassesMonotone(WORD, n, limit);
    }
  }

  // ---------------------------------------------------------------------
  // The budgets
  // ---------------------------------------------------------------------

  predicate IsCalled(e: Event) { e.Called? }

  predicate IsNativeUpdate(e: Event) { e.NativeUpdate? }

  predicate IsNativeRearm(e: Event) { e.NativeRearm? }

  predicate IsSuccess(e: Event) { e.Returned? && e.status == STATUS_SUCCESS }

  /** A call may still draw its ticket of this kind. */
  function MayDraw(kind: Kind): Call -> bool {
    (c: Call) =>
      match c.pc
      case Enter => true
      case ZeroGate => true
      case Before(_) => !kind.ZeroInput?
      case Update(_) => !kind.ZeroInput?
      case After(_, _) => !kind.ZeroInput?
      case AcceptGate => !kind.ZeroInput?
      case RearmGate(_) => kind.Retry?
      case Rearm(_) => false
      case Done(_) => false
  }

  /** One ticket of each kind per call. */
  function DrawOnce(kind: Kind): Permission {
    Permission(IsCalled, MayDraw(kind), IsTicket(kind))
  }

  lemma DrawOncePays(cfg: Config, kind: Kind, g: Shared, c: Call)
    requires !c.pc.Done?
    ensures StepPays(cfg, DrawOnce(kind), g, c)
  {
    match c.pc
    case After(_, _) =>
    case _ =>
  }

  lemma DrawOnceAccountable(cfg: Config, kind: Kind)
    ensures Accountable(cfg, DrawOnce(kind))
  {
    forall g: Shared, c: Call | !c.pc.Done? ensures StepPays(cfg, DrawOnce(kind), g, c) {
      DrawOncePays(cfg, kind, g, c);
    }
  }

  /** Zero-input policy: a native update needs a ticket of at most 24. */
  function UpdatePermission(): Permission {
    Permission(IsLowTicket(ZeroInput, MAX_ZERO_INPUT_UPDATES),
               (c: Call) => c.pc.Before? || c.pc.Update?,
               IsNativeUpdate)
  }

  lemma UpdatePays(cfg: Config, g: Shared, c: Call)
    requires cfg.policy.ZeroInputFreshRearm? && !c.pc.Done?
    ensures StepPays(cfg, UpdatePermission(), g, c)
  {
    match c.pc
    case After(_, _) =>
    case _ =>
  }

  lemma UpdatePermissionAccountable(cfg: Config)
    requires cfg.policy.ZeroInputFreshRearm?
    ensures Accountable(cfg, UpdatePermission())
  {
    forall g: Shared, c: Call | !c.pc.Done? ensures StepPays(cfg, UpdatePermission(), g, c) {
      UpdatePays(cfg, g, c);
    }
  }

  /** Re-arming policies: a success needs an accept ticket of at most 3. */
  function SuccessPermission(): Permission {
    Permission(IsLowTicket(Accepted, MAX_ACCEPTED_UPDATES - 1),
               (c: Call) => c.pc == RearmGate(true) || c.pc == Rearm(true) || c.pc == Done(STATUS_SUCCESS),
               IsSuccess)
  }

  lemma SuccessPays(cfg: Config, g: Shared, c: Call)
    requires cfg.policy.Rearms() && !c.pc.Done?
    ensures StepPays(cfg, SuccessPermission(), g, c)
  {
    match c.pc
    case After(_, _) =>
    case _ =>
  }

  lemma SuccessPermissionAccountable(cfg: Config)
    requires cfg.policy.Rearms()
    ensures Accountable(cfg, SuccessPermission())
  {
    forall g: Shared, c: Call | !c.pc.Done? ensures StepPays(cfg, SuccessPermission(), g, c) {
      SuccessPays(cfg, g, c);
    }
  }

  lemma TicketsWithinCalls(cfg: Config, memory: Memory, moves: seq<Move>, kind: Kind)
    ensures Count(Reach(cfg, memory, moves).shared.log, IsTicket(kind)) <=
            Count(Reach(cfg, memory, moves).shared.log, IsCalled)
  {
    DrawOnceAccountable(cfg, kind);
    SpentAtMostGranted(cfg, memory, moves, DrawOnce(kind));
  }

  /** The zero-input policy makes at most 24 native updates in any schedule with
      fewer than 2^32 calls; the general bound follows the wrapping counter. */
  lemma ZeroInputBudget(cfg: Config, memory: Memory, moves: seq<Move>)
    requires cfg.policy.ZeroInputFreshRearm?
    ensures var log := Reach(cfg, memory, moves).shared.log;
            && Count(log, IsNativeUpdate) <= Passes(Count(log, IsCalled), MAX_ZERO_INPUT_UPDATES)
            && (Count(log, IsCalled) < WORD ==> Count(log, IsNativeUpdate) <= MAX_ZERO_INPUT_UPDATES)
  {
    var log := Reach(cfg, memory, moves).shared.log;
    UpdatePermissionAccountable(cfg);
    SpentAtMostGranted(cfg, memory, moves, UpdatePermission());
    CountersCorrect(cfg, memory, moves, ZeroInput, MAX_ZERO_INPUT_UPDATES);
    TicketsWithinCalls(cfg, memory, moves, ZeroInput);
    PassesMonotone(Count(log, IsTicket(ZeroInput)), Count(log, IsCalled), MAX_ZERO_INPUT_UPDATES);
    PassesWithinLimitIff(Count(log, IsCalled), MAX_ZERO_INPUT_UPDATES);
  }

  /** The re-arming policies return success at most three times in any schedule
      with fewer than 2^32 calls. */
  lemma AcceptedBudget(cfg: Config, memory: Memory, moves: seq<Move>)
    requires cfg.policy.Rearms()
    ensures var log := Reach(cfg, memory, moves).shared.log;
            && Count(log, IsSuccess) <= Passes(Count(log, IsCalled), MAX_ACCEPTED_UPDATES - 1)
            && (Count(log, IsCalled) < WORD ==> Count(log, IsSuccess) <= MAX_ACCEPTED_UPDATES - 1)
  {
    var log := Reach(cfg, memory, moves).shared.log;
    SuccessPermissionAccountable(cfg);
    SpentAtMostGranted(cfg, memory, moves, SuccessPermission());
    CountersCorrect(cfg, memory, moves, Accepted, MAX_ACCEPTED_UPDATES - 1);
    TicketsWithinCalls(cfg, memory, moves, Accepted);
    PassesMonotone(Count(log, IsTicket(Accepted)), Count(log, IsCalled), MAX_ACCEPTED_UPDATES - 1);
    PassesWithinLimitIff(Count(log, IsCalled), MAX_ACCEPTED_UPDATES - 1);
  }

  // ---------------------------------------------------------------------
  // The attempt counter
  // ---------------------------------------------------------------------

  function InFlight(): Call -> bool {
    (c: Call) => c.pc.Rearm?
  }

  /** Every drawn attempt is a command already sent or about to be sent. */
  ghost predicate AttemptsAccounted(w: World) {
    Count(w.shared.log, IsTicket(Retry)) == Count(w.shared.log, IsNativeRearm) + |Holders(w.calls, InFlight())|
  }

  lemma StepAttempts(cfg: Config, g: Shared, c: Call)
    requires !c.pc.Done?
    ensures var (g', c') := Step(cfg, g, c);
            if g'.log == g.log then c'.pc.Rearm? == c.pc.Rearm?
            else
              && |g'.log| == |g.log| + 1 && g'.log[..|g.log|] == g.log
              && var e := g'.log[|g.log|];
                 One(TicketValue(Retry, e).Some?) + One(c.pc.Rearm?) == One(e.NativeRearm?) + One(c'.pc.Rearm?)
  {
  }

  lemma CallerAttempts(w: World, e: Event, w': World)
    requires AttemptsAccounted(w) && w'.shared.log == w.shared.log + [e] && !e.RearmTicket? && !e.NativeRearm?
    requires |Holders(w'.calls, InFlight())| == |Holders(w.calls, InFlight())|
    ensures AttemptsAccounted(w')
  {
    CountSnoc(w.shared.log, e, IsTicket(Retry));
    CountSnoc(w.shared.log, e, IsNativeRearm);
  }

  lemma PlayAttempts(cfg: Config, w: World, m: Move)
    requires AttemptsAccounted(w)
    ensures AttemptsAccounted(Play(cfg, w, m))
  {
    var w' := Play(cfg, w, m);
    match m
    case Begin(t, args) =>
      if t !in w.calls {
        HoldersUpdate(w.calls, t, NewCall(args), InFlight());
        CallerAttempts(w, Called(args), w');
      }
    case Advance(t) =>
      if t in w.calls && w.calls[t].pc.Done? {
        HoldersRemove(w.calls, t, InFlight());
        CallerAttempts(w, Returned(w.calls[t].pc.status, w.calls[t].trail), w');
      } else if t in w.calls {
        var (g', c') := Step(cfg, w.shared, w.calls[t]);
        StepAttempts(cfg, w.shared, w.calls[t]);
        HoldersUpdate(w.calls, t, c', InFlight());
        if g'.log != w.shared.log {
          var e := g'.log[|w.shared.log|];
          assert g'.log == w.shared.log + [e];
          CountSnoc(w.shared.log, e, IsTicket(Retry));
          CountSnoc(w.shared.log, e, IsNativeRearm);
        }
      }
    case Send(e) =>
      if CallerEvent(e) {
        CallerAttempts(w, e, w');
      }
    case Touch(_) =>
  }

  lemma {:induction false} RunAttempts(cfg: Config, w: World, moves: seq<Move>)
    requires AttemptsAccounted(w)
    ensures AttemptsAccounted(Run(cfg, w, moves))
  {
    if moves != [] {
      RunAttempts(cfg, w, moves[..|moves| - 1]);
      PlayAttempts(cfg, Run(cfg, w, moves[..|moves| - 1]), moves[|moves| - 1]);
    }
  }

  /** In every schedule `retry_attempt` is the number of 0x8A commands sent plus
      those about to be sent, modulo the counter's width; with no call in
      progress it is the number of commands sent. */
  lemma RetryAttemptCountsRearms(cfg: Config, memory: Memory, moves: seq<Move>)
    ensures var w := Reach(cfg, memory, moves);
            && w.shared.retryAttempt ==
               (Count(w.shared.log, IsNativeRearm) + |Holders(w.calls, InFlight())|) % WORD
            && (w.calls == map[] ==> w.shared.retryAttempt == Count(w.shared.log, IsNativeRearm) % WORD)
  {
    assert Holders(map[], InFlight()) == {};
    RunAttempts(cfg, World(InitialShared(memory), map[]), moves);
    CountersCorrect(cfg, memory, moves, Retry, 0);
  }
}
