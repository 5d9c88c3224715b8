/** The enrollment interposer as atomic steps.

    A call of the interposed function is a little program; `Step` executes its
    next atomic action against the process-wide state.  Native functions are
    arbitrary: they may answer anything, depending on everything that happened
    so far. */
module InterposerMachine {
  import opened Prelude
  import opened DriverTypes
  import opened MetadataTrace

  const MAX_ACCEPTED_UPDATES := 4
  const MAX_ZERO_INPUT_UPDATES := 24

  datatype Policy = LegacyRepeat | FreshStop | FreshRearm | ZeroInputFreshRearm {
    predicate Fresh() { !LegacyRepeat? }

    predicate Rearms() { FreshRearm? || ZeroInputFreshRearm? }
  }

  datatype Event =
    | Called(args: UpdateArgs)
    | ZeroTicket(value: U32)
    | NativeUpdate(observation: Observation)
    | Inspected(completion: Option<Byte>)
    | AcceptTicket(value: U32)
    | RearmTicket(value: U32)
    | NativeRearm(status: U32)
    | Returned(status: U32, trail: seq<Event>)
    | Started(status: U32)
    | CaptureStart
    | CaptureCancel
    | Discard
    | Commit

  datatype UpdateReply = UpdateReply(status: U32, written: Memory)

  /** `cv_fingerprint_update_enrollment` and `cv_cmd_enrollment_started` of the driver. */
  datatype Native = Native(
    update: (seq<Event>, UpdateArgs, Memory) -> UpdateReply,
    rearm: seq<Event> -> U32)

  /** What the resolver fixed, and the address of the static zero buffer. */
  datatype Config = Config(ready: bool, policy: Policy, tracing: bool, native: Native, zeroInput: nat)

  /** Everything the process shares between threads. */
  datatype Shared = Shared(
    retryAttempt: U32,
    acceptedIncomplete: U32,
    updateCalls: U32,
    zeroInputUpdates: U32,
    trace: TraceState,
    reports: seq<Report>,
    memory: Memory,
    log: seq<Event>)

  datatype Pc =
    | Enter
    | ZeroGate
    | Before(again: bool)
    | Update(again: bool)
    | After(again: bool, status: U32)
    | AcceptGate
    | RearmGate(accepted: bool)
    | Rearm(accepted: bool)
    | Done(status: U32)

  /** One call in progress: its arguments as they will be forwarded, its next
      action, and the events it has caused. */
  datatype Call = Call(args: UpdateArgs, pc: Pc, snapshot: Snapshot, trail: seq<Event>)

  function NewCall(args: UpdateArgs): Call {
    Call(args, Enter, NO_SNAPSHOT, [])
  }

  function InitialShared(memory: Memory): Shared {
    Shared(0, 0, 0, 0, INITIAL_TRACE, [], memory, [])
  }

  /** `fatalize_rearm_status` */
  function Fatalize(status: U32): U32 {
    if status == STATUS_BAD_CAPTURE || status == STATUS_CAPTURE_FAILED || status == STATUS_ENROLL_MORE
    then STATUS_EXPERIMENT_FAILURE
    else status
  }

  function CompletionByte(memory: Memory, args: UpdateArgs): Option<Byte> {
    if args.completion.Null? then None else Some(PeekByte(memory, args.completion))
  }

  /** The last status test: only a bad capture re-arms. */
  function Tail(status: U32): Pc {
    if status == STATUS_BAD_CAPTURE then RearmGate(false) else Done(status)
  }

  function Emit(g: Shared, c: Call, e: Event, pc: Pc): (Shared, Call) {
    (g.(log := g.log + [e]), c.(pc := pc, trail := c.trail + [e]))
  }

  function EnterStep(cfg: Config, g: Shared, c: Call): (Shared, Call) {
    if !cfg.ready then (g, c.(pc := Done(STATUS_EXPERIMENT_FAILURE)))
    else if cfg.policy.ZeroInputFreshRearm? then
      if c.args.enrollmentId.Null? then (g, c.(pc := Done(STATUS_EXPERIMENT_FAILURE)))
      else (g, c.(pc := ZeroGate))
    else (g, c.(pc := Before(false)))
  }

  function ZeroGateStep(cfg: Config, g: Shared, c: Call): (Shared, Call) {
    var call := Increment(g.zeroInputUpdates);
    var g' := g.(zeroInputUpdates := call);
    if call > MAX_ZERO_INPUT_UPDATES then
      Emit(g', c, ZeroTicket(call), Done(STATUS_EXPERIMENT_FAILURE))
    else
      Emit(g'.(memory := g.memory[cfg.zeroInput := Zeros(VALUE_SIZE)]),
           c.(args := c.args.(enrollmentId := At(cfg.zeroInput))),
           ZeroTicket(call), Before(false))
  }

  function BeforeStep(cfg: Config, g: Shared, c: Call): (Shared, Call)
    requires c.pc.Before?
  {
    var c' := c.(pc := Update(c.pc.again));
    if !cfg.tracing then (g, c')
    else
      var call := Increment(g.updateCalls);
      (g.(updateCalls := call,
          reports := g.reports + [ReportBefore(g.trace, call, c.args, g.memory)],
          trace := RecordBefore(g.trace, c.args, g.memory)),
       c'.(snapshot := TakeSnapshot(call, c.args, g.memory)))
  }

  function UpdateStep(cfg: Config, g: Shared, c: Call): (Shared, Call)
    requires c.pc.Update?
  {
    var reply := cfg.native.update(g.log, c.args, g.memory);
    var after := Write(g.memory, c.args, reply.written);
    Emit(g.(memory := after), c, NativeUpdate(Observation(c.args, g.memory, reply.status, after)),
         After(c.pc.again, reply.status))
  }

  function TraceAfter(cfg: Config, g: Shared, c: Call): Shared
    requires c.pc.After?
  {
    if !cfg.tracing then g
    else g.(reports := g.reports + [ReportAfter(c.snapshot, c.args, c.pc.status, g.memory)],
            trace := RecordAfter(g.trace, c.args, g.memory))
  }

  function AfterStep(cfg: Config, g: Shared, c: Call): (Shared, Call)
    requires c.pc.After?
  {
    var status := c.pc.status;
    var g' := TraceAfter(cfg, g, c);
    if cfg.policy.Fresh() && status == STATUS_SUCCESS then
      var completion := CompletionByte(g.memory, c.args);
      Emit(g', c, Inspected(completion),
           if completion != Some(0) then Done(STATUS_EXPERIMENT_FAILURE)
           else if cfg.policy.Rearms() then AcceptGate
           else Done(STATUS_SUCCESS))
    else if cfg.policy.LegacyRepeat? && status == STATUS_UPDATE_AGAIN && !c.pc.again then
      (g', c.(pc := Before(true)))
    else (g', c.(pc := Tail(status)))
  }

  function AcceptGateStep(cfg: Config, g: Shared, c: Call): (Shared, Call) {
    var accepted := Increment(g.acceptedIncomplete);
    Emit(g.(acceptedIncomplete := accepted), c, AcceptTicket(accepted),
         if accepted >= MAX_ACCEPTED_UPDATES then Done(STATUS_EXPERIMENT_FAILURE) else RearmGate(true))
  }

  function RearmGateStep(cfg: Config, g: Shared, c: Call): (Shared, Call)
    requires c.pc.RearmGate?
  {
    var attempt := Increment(g.retryAttempt);
    Emit(g.(retryAttempt := attempt), c, RearmTicket(attempt), Rearm(c.pc.accepted))
  }

  function RearmStep(cfg: Config, g: Shared, c: Call): (Shared, Call)
    requires c.pc.Rearm?
  {
    var status := cfg.native.rearm(g.log);
    Emit(g, c, NativeRearm(status),
         Done(if status != STATUS_SUCCESS then Fatalize(status)
              else if c.pc.accepted then STATUS_SUCCESS else STATUS_BAD_CAPTURE))
  }

  function Step(cfg: Config, g: Shared, c: Call): (Shared, Call)
    requires !c.pc.Done?
  {
    match c.pc
    case Enter => EnterStep(cfg, g, c)
    case ZeroGate => ZeroGateStep(cfg, g, c)
    case Before(_) => BeforeStep(cfg, g, c)
    case Update(_) => UpdateStep(cfg, g, c)
    case After(_, _) => AfterStep(cfg, g, c)
    case AcceptGate => AcceptGateStep(cfg, g, c)
    case RearmGate(_) => RearmGateStep(cfg, g, c)
    case Rearm(_) => RearmStep(cfg, g, c)
  }

  /** Every step brings a call closer to its return. */
  function Rank(pc: Pc): nat {
    match pc
    case Enter => 11
    case ZeroGate => 10
    case Before(again) => if again then 6 else 9
    case Update(again) => if again then 5 else 8
    case After(again, _) => if again then 4 else 7
    case AcceptGate => 3
    case RearmGate(_) => 2
    case Rearm(_) => 1
    case Done(_) => 0
  }

  // ---------------------------------------------------------------------
  // One call on its own
  // ---------------------------------------------------------------------

  /** The rest of a call that nobody interrupts. */
  function Finish(cfg: Config, g: Shared, c: Call): (r: (Shared, Call))
    ensures r.1.pc.Done?
    decreases Rank(c.pc)
  {
    if c.pc.Done? then (g, c)
    else
      var (g', c') := Step(cfg, g, c);
      Finish(cfg, g', c')
  }

  lemma FinishAfter(cfg: Config, g: Shared, c: Call, g': Shared, c': Call)
    requires !c.pc.Done? && Step(cfg, g, c) == (g', c')
    ensures Finish(cfg, g, c) == Finish(cfg, g', c')
  {
  }

  function Return(g: Shared, c: Call): Shared
    requires c.pc.Done?
  {
    g.(log := g.log + [Returned(c.pc.status, c.trail)])
  }

  /** A whole uninterrupted call: new shared state and returned status. */
  function Solo(cfg: Config, g: Shared, args: UpdateArgs): (Shared, U32) {
    var (g', c') := Finish(cfg, g.(log := g.log + [Called(args)]), NewCall(args));
    (Return(g', c'), c'.pc.status)
  }

  // ---------------------------------------------------------------------
  // Any number of threads
  // ---------------------------------------------------------------------

  /** Calls in progress by thread. */
  datatype World = World(shared: Shared, calls: map<nat, Call>)

  /** A thread starts a call, a thread advances by one action, or the program
      around the interposer changes memory or sends a command of its own. */
  datatype Move =
    | Begin(thread: nat, args: UpdateArgs)
    | Advance(thread: nat)
    | Touch(memory: Memory)
    | Send(event: Event)

  predicate CallerEvent(e: Event) {
    e.Started? || e.CaptureStart? || e.CaptureCancel? || e.Discard? || e.Commit?
  }

  function Play(cfg: Config, w: World, m: Move): World {
    match m
    case Begin(t, args) =>
      if t in w.calls then w
      else World(w.shared.(log := w.shared.log + [Called(args)]), w.calls[t := NewCall(args)])
    case Advance(t) =>
      if t !in w.calls then w
      else if w.calls[t].pc.Done? then World(Return(w.shared, w.calls[t]), w.calls - {t})
      else
        var (g', c') := Step(cfg, w.shared, w.calls[t]);
        World(g', w.calls[t := c'])
    case Touch(memory) => w.(shared := w.shared.(memory := memory))
    case Send(e) => if CallerEvent(e) then w.(shared := w.shared.(log := w.shared.log + [e])) else w
  }

  function Run(cfg: Config, w: World, moves: seq<Move>): World {
    if moves == [] then w else Play(cfg, Run(cfg, w, moves[..|moves| - 1]), moves[|moves| - 1])
  }

  /** Any process state a schedule can lead to. */
  function Reach(cfg: Config, memory: Memory, moves: seq<Move>): World {
    Run(cfg, World(InitialShared(memory), map[]), moves)
  }

  lemma {:induction false} RunAppend(cfg: Config, w: World, a: seq<Move>, b: seq<Move>)
    ensures Run(cfg, w, a + b) == Run(cfg, Run(cfg, w, a), b)
  {
    if b == [] {
      assert a + b == a;
    } else {
      assert (a + b)[..|a + b| - 1] == a + b[..|b| - 1];
      RunAppend(cfg, w, a, b[..|b| - 1]);
    }
  }

  lemma RunOne(cfg: Config, w: World, m: Move)
    ensures Run(cfg, w, [m]) == Play(cfg, w, m)
  {
  }

  lemma {:induction false} FinishIsRun(cfg: Config, g: Shared, t: nat, c: Call) returns (moves: seq<Move>)
    ensures var (g', c') := Finish(cfg, g, c);
            Run(cfg, World(g, map[t := c]), moves) == World(g', map[t := c'])
    decreases Rank(c.pc)
  {
    if c.pc.Done? {
      moves := [];
    } else {
      var (g', c') := Step(cfg, g, c);
      var later := FinishIsRun(cfg, g', t, c');
      moves := [Advance(t)] + later;
      RunAppend(cfg, World(g, map[t := c]), [Advance(t)], later);
      RunOne(cfg, World(g, map[t := c]), Advance(t));
      assert map[t := c][t := c'] == map[t := c'];
    }
  }

  /** An uninterrupted call is one of the schedules. */
  lemma SoloIsRun(cfg: Config, g: Shared, t: nat, args: UpdateArgs) returns (moves: seq<Move>)
    ensures Run(cfg, World(g, map[]), moves) == World(Solo(cfg, g, args).0, map[])
  {
    var started := Play(cfg, World(g, map[]), Begin(t, args));
    assert started.calls == map[t := NewCall(args)];
    var middle := FinishIsRun(cfg, started.shared, t, NewCall(args));
    var ended := Run(cfg, started, middle);
    moves := [Begin(t, args)] + middle + [Advance(t)];
    RunOne(cfg, World(g, map[]), Begin(t, args));
    RunAppend(cfg, World(g, map[]), [Begin(t, args)], middle);
    RunAppend(cfg, World(g, map[]), [Begin(t, args)] + middle, [Advance(t)]);
    RunOne(cfg, ended, Advance(t));
    assert ended.calls - {t} == map[];
  }

  /** One more uninterrupted call after a schedule that left none in progress. */
  lemma ReachThenSolo(cfg: Config, memory: Memory, before: seq<Move>, args: UpdateArgs) returns (moves: seq<Move>)
    requires Reach(cfg, memory, before).calls == map[]
    ensures Reach(cfg, memory, moves) == World(Solo(cfg, Reach(cfg, memory, before).shared, args).0, map[])
  {
    var w := Reach(cfg, memory, before);
    var call := SoloIsRun(cfg, w.shared, 0, args);
    moves := before + call;
    RunAppend(cfg, World(InitialShared(memory), map[]), before, call);
    assert w == World(w.shared, map[]);
  }

  /** One more step of the surrounding program. */
  lemma ReachThenMove(cfg: Config, memory: Memory, before: seq<Move>, m: Move) returns (moves: seq<Move>)
    ensures Reach(cfg, memory, moves) == Play(cfg, Reach(cfg, memory, before), m)
  {
    moves := before + [m];
    RunAppend(cfg, World(InitialShared(memory), map[]), before, [m]);
    RunOne(cfg, Reach(cfg, memory, before), m);
  }
}
