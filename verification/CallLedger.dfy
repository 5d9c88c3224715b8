/** What one interposed call may have done by the time it returns, for every
    policy, every native behaviour and every interleaving with other calls. */
module CallLedger {
  import opened Prelude
  import opened DriverTypes
  import opened InterposerMachine

  /** The events of a call, by kind. */
  datatype Summary = Summary(
    zeroTickets: seq<U32>,
    updates: seq<Observation>,
    inspected: seq<Option<Byte>>,
    acceptTickets: seq<U32>,
    rearmTickets: seq<U32>,
    rearms: seq<U32>)

  function Extend(s: Summary, e: Event): Summary {
    match e
    case ZeroTicket(v) => s.(zeroTickets := s.zeroTickets + [v])
    case NativeUpdate(o) => s.(updates := s.updates + [o])
    case Inspected(b) => s.(inspected := s.inspected + [b])
    case AcceptTicket(v) => s.(acceptTickets := s.acceptTickets + [v])
    case RearmTicket(v) => s.(rearmTickets := s.rearmTickets + [v])
    case NativeRearm(st) => s.(rearms := s.rearms + [st])
    case _ => s
  }

  function Summarize(trail: seq<Event>): Summary {
    if trail == [] then Summary([], [], [], [], [], [])
    else Extend(Summarize(trail[..|trail| - 1]), trail[|trail| - 1])
  }

  lemma SummarizeSnoc(trail: seq<Event>, e: Event)
    ensures Summarize(trail + [e]) == Extend(Summarize(trail), e)
  {
  }

  predicate EndsArmed(trail: seq<Event>) {
    trail != [] && trail[|trail| - 1] == NativeRearm(STATUS_SUCCESS)
  }

  function LastStatus(s: Summary): U32
    requires s.updates != []
  {
    s.updates[|s.updates| - 1].status
  }

  /** The contract of a returned call. */
  ghost predicate Contract(p: Policy, trail: seq<Event>, status: U32) {
    var s := Summarize(trail);
    // At most two native updates, and two only for the legacy policy after a first 0x59.
    && |s.updates| <= 2
    && (|s.updates| == 2 <==> p.LegacyRepeat? && s.updates != [] && s.updates[0].status == STATUS_UPDATE_AGAIN)
    // At most one 0x8A command, drawn from the attempt counter.
    && |s.rearms| <= 1 && |s.rearmTickets| == |s.rearms|
    // A bad capture is reported exactly when 0x8A followed it and succeeded.
    && (status == STATUS_BAD_CAPTURE <==>
          s.updates != [] && LastStatus(s) == STATUS_BAD_CAPTURE && s.rearms == [STATUS_SUCCESS])
    // A failed 0x8A is fatal to the caller.
    && (s.rearms != [] && s.rearms[0] != STATUS_SUCCESS ==>
          && status == Fatalize(s.rearms[0])
          && status != STATUS_SUCCESS && status != STATUS_BAD_CAPTURE
          && status != STATUS_CAPTURE_FAILED && status != STATUS_ENROLL_MORE)
    // A fresh policy reports success only for an incomplete update.
    && (p.Fresh() && status == STATUS_SUCCESS ==>
          s.updates != [] && LastStatus(s) == STATUS_SUCCESS && s.inspected == [Some(0)])
    // A re-arming policy reports success only under one of the first tickets.
    && (p.Rearms() && status == STATUS_SUCCESS ==>
          s.rearms == [STATUS_SUCCESS] && |s.acceptTickets| == 1 && s.acceptTickets[0] < MAX_ACCEPTED_UPDATES)
    // A successful re-arm is the last thing that happens, and lets the caller go on.
    && (s.rearms == [STATUS_SUCCESS] ==>
          EndsArmed(trail) && (status == STATUS_BAD_CAPTURE || (p.Rearms() && status == STATUS_SUCCESS)))
    // Without 0x8A the last native status comes through, or a success is blocked.
    && (s.rearms == [] && s.updates != [] ==>
          || status == LastStatus(s)
          || (p.Fresh() && LastStatus(s) == STATUS_SUCCESS && status == STATUS_EXPERIMENT_FAILURE))
    // A refused call sends nothing.
    && (s.updates == [] ==> status == STATUS_EXPERIMENT_FAILURE && s.rearms == [])
    && |s.zeroTickets| <= 1 && |s.acceptTickets| <= 1
  }

  /** The zero-input gate has been passed, or there is none. */
  predicate GatePassed(p: Policy, s: Summary) {
    if p.ZeroInputFreshRearm? then |s.zeroTickets| == 1 && s.zeroTickets[0] <= MAX_ZERO_INPUT_UPDATES
    else s.zeroTickets == []
  }

  predicate NoRearm(s: Summary) {
    s.rearmTickets == [] && s.rearms == []
  }

  /** The native updates made so far, if the last one returned `status`. */
  predicate Updated(p: Policy, s: Summary, again: bool, status: U32) {
    && GatePassed(p, s)
    && (if again then p.LegacyRepeat? && |s.updates| == 2 && s.updates[0].status == STATUS_UPDATE_AGAIN
        else |s.updates| == 1)
    && LastStatus(s) == status
  }

  predicate AboutToUpdate(p: Policy, s: Summary, again: bool) {
    && GatePassed(p, s) && NoRearm(s) && s.inspected == [] && s.acceptTickets == []
    && (if again then p.LegacyRepeat? && |s.updates| == 1 && s.updates[0].status == STATUS_UPDATE_AGAIN
        else s.updates == [])
  }

  /** On the way to 0x8A. */
  predicate Rearming(p: Policy, s: Summary, accepted: bool) {
    if accepted then
      && p.Rearms() && Updated(p, s, false, STATUS_SUCCESS) && s.inspected == [Some(0)]
      && |s.acceptTickets| == 1 && s.acceptTickets[0] < MAX_ACCEPTED_UPDATES
    else
      && (Updated(p, s, false, STATUS_BAD_CAPTURE) || Updated(p, s, true, STATUS_BAD_CAPTURE))
      && s.inspected == [] && s.acceptTickets == []
  }

  /** What the trail of a call looks like at each of its actions. */
  ghost predicate Ledger(p: Policy, c: Call) {
    var s := Summarize(c.trail);
    match c.pc
    case Enter => c.trail == []
    case ZeroGate => p.ZeroInputFreshRearm? && c.trail == []
    case Before(again) => AboutToUpdate(p, s, again)
    case Update(again) => AboutToUpdate(p, s, again)
    case After(again, status) =>
      Updated(p, s, again, status) && NoRearm(s) && s.inspected == [] && s.acceptTickets == []
    case AcceptGate =>
      && p.Rearms() && Updated(p, s, false, STATUS_SUCCESS) && NoRearm(s)
      && s.inspected == [Some(0)] && s.acceptTickets == []
    case RearmGate(accepted) => Rearming(p, s, accepted) && NoRearm(s)
    case Rearm(accepted) => Rearming(p, s, accepted) && |s.rearmTickets| == 1 && s.rearms == []
    case Done(status) => Contract(p, c.trail, status)
  }

  lemma UpdateKeepsLedger(cfg: Config, g: Shared, c: Call)
    requires Ledger(cfg.policy, c) && c.pc.Update?
    ensures Ledger(cfg.policy, UpdateStep(cfg, g, c).1)
  {
  }

  /** A status that ends the call as it is. */
  lemma PassedThrough(p: Policy, trail: seq<Event>, again: bool, status: U32)
    requires var s := Summarize(trail);
             Updated(p, s, again, status) && NoRearm(s) && s.inspected == [] && s.acceptTickets == []
    requires status != STATUS_BAD_CAPTURE
    requires p.Fresh() ==> status != STATUS_SUCCESS
    requires p.LegacyRepeat? && !again ==> status != STATUS_UPDATE_AGAIN
    ensures Contract(p, trail, status)
  {
  }

  /** A fresh policy's native success, before any re-arm. */
  lemma InspectedSuccess(p: Policy, trail: seq<Event>, completion: Option<Byte>)
    requires var s := Summarize(trail);
             Updated(p, s, false, STATUS_SUCCESS) && NoRearm(s) && s.inspected == [] && s.acceptTickets == []
    requires p.Fresh()
    ensures completion != Some(0) ==> Contract(p, trail + [Inspected(completion)], STATUS_EXPERIMENT_FAILURE)
    ensures completion == Some(0) && !p.Rearms() ==> Contract(p, trail + [Inspected(completion)], STATUS_SUCCESS)
    ensures var s := Summarize(trail + [Inspected(completion)]);
            Updated(p, s, false, STATUS_SUCCESS) && NoRearm(s) && s.inspected == [completion] && s.acceptTickets == []
  {
  }

  lemma AfterKeepsLedger(cfg: Config, g: Shared, c: Call)
    requires Ledger(cfg.policy, c) && c.pc.After?
    ensures Ledger(cfg.policy, AfterStep(cfg, g, c).1)
  {
    var status := c.pc.status;
    if cfg.policy.Fresh() && status == STATUS_SUCCESS {
      InspectedSuccess(cfg.policy, c.trail, CompletionByte(g.memory, c.args));
    } else if cfg.policy.LegacyRepeat? && status == STATUS_UPDATE_AGAIN && !c.pc.again {
    } else if status != STATUS_BAD_CAPTURE {
      PassedThrough(cfg.policy, c.trail, c.pc.again, status);
    }
  }

  lemma GatesKeepLedger(cfg: Config, g: Shared, c: Call)
    requires Ledger(cfg.policy, c)
    requires c.pc.Enter? || c.pc.ZeroGate? || c.pc.AcceptGate?
    ensures Ledger(cfg.policy, Step(cfg, g, c).1)
  {
    assert Summarize([]) == Summary([], [], [], [], [], []);
    if !c.pc.Enter? {
      SummarizeSnoc(c.trail, Step(cfg, g, c).1.trail[|c.trail|]);
    }
  }

  lemma RearmGateKeepsLedger(cfg: Config, g: Shared, c: Call)
    requires Ledger(cfg.policy, c) && c.pc.RearmGate?
    ensures Ledger(cfg.policy, RearmGateStep(cfg, g, c).1)
  {
  }

  lemma RearmSucceeds(p: Policy, trail: seq<Event>, accepted: bool)
    requires var s := Summarize(trail); Rearming(p, s, accepted) && |s.rearmTickets| == 1 && s.rearms == []
    ensures Contract(p, trail + [NativeRearm(STATUS_SUCCESS)], if accepted then STATUS_SUCCESS else STATUS_BAD_CAPTURE)
  {
    SummarizeSnoc(trail, NativeRearm(STATUS_SUCCESS));
    assert Summarize(trail + [NativeRearm(STATUS_SUCCESS)]).rearms == [STATUS_SUCCESS];
  }

  lemma RearmFails(p: Policy, trail: seq<Event>, accepted: bool, status: U32)
    requires var s := Summarize(trail); Rearming(p, s, accepted) && |s.rearmTickets| == 1 && s.rearms == []
    requires status != STATUS_SUCCESS
    ensures Contract(p, trail + [NativeRearm(status)], Fatalize(status))
  {
    SummarizeSnoc(trail, NativeRearm(status));
    assert Summarize(trail + [NativeRearm(status)]).rearms == [status];
  }

  lemma RearmKeepsLedger(cfg: Config, g: Shared, c: Call)
    requires Ledger(cfg.policy, c) && c.pc.Rearm?
    ensures Ledger(cfg.policy, RearmStep(cfg, g, c).1)
  {
    var status := cfg.native.rearm(g.log);
    if status == STATUS_SUCCESS {
      RearmSucceeds(cfg.policy, c.trail, c.pc.accepted);
    } else {
      RearmFails(cfg.policy, c.trail, c.pc.accepted, status);
    }
  }

  /** Every action of every call keeps its ledger, whatever other threads have
      made of the shared state. */
  lemma StepKeepsLedger(cfg: Config, g: Shared, c: Call)
    requires Ledger(cfg.policy, c) && !c.pc.Done?
    ensures Ledger(cfg.policy, Step(cfg, g, c).1)
  {
    match c.pc
    case Update(_) => UpdateKeepsLedger(cfg, g, c);
    case After(_, _) => AfterKeepsLedger(cfg, g, c);
    case RearmGate(_) => RearmGateKeepsLedger(cfg, g, c);
    case Rearm(_) => RearmKeepsLedger(cfg, g, c);
    case Before(_) =>
    case _ => GatesKeepLedger(cfg, g, c);
  }

  ghost predicate LedgersKept(p: Policy, w: World) {
    && (forall t :: t in w.calls ==> Ledger(p, w.calls[t]))
    && (forall e :: e in w.shared.log && e.Returned? ==> Contract(p, e.trail, e.status))
  }

  lemma {:induction false} RunKeepsLedgers(cfg: Config, w: World, moves: seq<Move>)
    requires LedgersKept(cfg.policy, w)
    ensures LedgersKept(cfg.policy, Run(cfg, w, moves))
  {
    if moves != [] {
      var u, m := Run(cfg, w, moves[..|moves| - 1]), moves[|moves| - 1];
      RunKeepsLedgers(cfg, w, moves[..|moves| - 1]);
      if m.Advance? && m.thread in u.calls && !u.calls[m.thread].pc.Done? {
        StepKeepsLedger(cfg, u.shared, u.calls[m.thread]);
        StepEmits(cfg, u.shared, u.calls[m.thread]);
      }
    }
  }

  /** A step writes the same events to the log and to the call's trail, and
      never a return. */
  lemma StepEmits(cfg: Config, g: Shared, c: Call)
    requires !c.pc.Done?
    ensures var (g', c') := Step(cfg, g, c);
            || (g'.log == g.log && c'.trail == c.trail)
            || exists e :: g'.log == g.log + [e] && c'.trail == c.trail + [e] && !e.Returned? && !e.Called?
  {
  }

  /** The re-arm ledger: under every interleaving of any number of threads,
      every call that returns has kept the contract of its policy. */
  lemma EveryReturnKeepsContract(cfg: Config, memory: Memory, moves: seq<Move>, e: Event)
    requires e in Reach(cfg, memory, moves).shared.log && e.Returned?
    ensures Contract(cfg.policy, e.trail, e.status)
  {
    RunKeepsLedgers(cfg, World(InitialShared(memory), map[]), moves);
  }
}
