/** The metadata trace in the running interposer: it reports what the full
    history says, and it changes nothing else. */
module TraceRefinement {
  import opened Prelude
  import opened DriverTypes
  import opened MetadataTrace
  import opened InterposerMachine
  import opened CallLedger

  // ---------------------------------------------------------------------
  // Sequential calls: the reports are the history's
  // ---------------------------------------------------------------------

  function Observations(log: seq<Event>): seq<Observation> {
    Summarize(log).updates
  }

  /** Trace state, call counter and reports agree with the history in the log. */
  ghost predicate TraceFaithful(g: Shared) {
    var h := Observations(g.log);
    && Remembers(g.trace, h)
    && g.updateCalls == CallNumber(|h|)
    && g.reports == HistoryReports(h, |h|)
  }

  /** Events other than native updates leave the trace alone. */
  predicate Quiet(g: Shared, g': Shared) {
    && g'.trace == g.trace && g'.updateCalls == g.updateCalls && g'.reports == g.reports
    && (g'.log == g.log
        || (|g'.log| == |g.log| + 1 && g'.log[..|g.log|] == g.log && !g'.log[|g.log|].NativeUpdate?))
  }

  lemma QuietKeepsTrace(g: Shared, g': Shared)
    requires TraceFaithful(g) && Quiet(g, g')
    ensures TraceFaithful(g')
  {
  }

  lemma QuietStep(cfg: Config, g: Shared, c: Call)
    requires !c.pc.Done? && !c.pc.Before? && !c.pc.Update? && !c.pc.After?
    ensures Quiet(g, Step(cfg, g, c).0)
  {
  }

  /** Before, native update and after, uninterrupted. */
  function TracedUpdate(cfg: Config, g: Shared, c: Call): (Shared, Call)
    requires c.pc.Before?
  {
    var (g1, c1) := BeforeStep(cfg, g, c);
    var (g2, c2) := UpdateStep(cfg, g1, c1);
    AfterStep(cfg, g2, c2)
  }

  lemma TracedUpdateFinishes(cfg: Config, g: Shared, c: Call)
    requires c.pc.Before?
    ensures Finish(cfg, g, c) == Finish(cfg, TracedUpdate(cfg, g, c).0, TracedUpdate(cfg, g, c).1)
    ensures Rank(TracedUpdate(cfg, g, c).1.pc) < Rank(c.pc)
    ensures !TracedUpdate(cfg, g, c).1.pc.Update? && !TracedUpdate(cfg, g, c).1.pc.After?
  {
    var (g1, c1) := BeforeStep(cfg, g, c);
    var (g2, c2) := UpdateStep(cfg, g1, c1);
    var (g3, c3) := AfterStep(cfg, g2, c2);
    FinishAfter(cfg, g, c, g1, c1);
    FinishAfter(cfg, g1, c1, g2, c2);
    FinishAfter(cfg, g2, c2, g3, c3);
  }

  /** The three steps' effect on trace, reports and log. */
  lemma TracedUpdateEffect(cfg: Config, g: Shared, c: Call) returns (o: Observation, g2: Shared)
    requires c.pc.Before? && cfg.tracing
    ensures var call := Increment(g.updateCalls);
            && g2.log == g.log + [NativeUpdate(o)]
            && g2.updateCalls == call
            && g2.reports == g.reports + [ReportBefore(g.trace, call, o.args, o.before),
                                          ReportAfter(TakeSnapshot(call, o.args, o.before), o.args, o.status, o.after)]
            && g2.trace == RecordAfter(RecordBefore(g.trace, o.args, o.before), o.args, o.after)
    ensures Quiet(g2, TracedUpdate(cfg, g, c).0)
  {
    var (g1, c1) := BeforeStep(cfg, g, c);
    var (g', c') := UpdateStep(cfg, g1, c1);
    var g3 := AfterStep(cfg, g', c').0;
    o := g'.log[|g.log|].observation;
    g2 := g3.(log := g'.log);
  }

  lemma TracedUpdateFaithful(cfg: Config, g: Shared, c: Call)
    requires c.pc.Before? && cfg.tracing && TraceFaithful(g)
    ensures TraceFaithful(TracedUpdate(cfg, g, c).0)
  {
    var h := Observations(g.log);
    var o, g2 := TracedUpdateEffect(cfg, g, c);
    SummarizeSnoc(g.log, NativeUpdate(o));
    TraceOneCall(g.trace, g.updateCalls, h, o);
    HistoryReportsAppend(h, o, |h|);
    assert g2.reports == g.reports + [HistoryBefore(h + [o], |h|), HistoryAfter(h + [o], |h|)];
    QuietKeepsTrace(g2, TracedUpdate(cfg, g, c).0);
  }

  /** The next point at which the trace is in step with the history. */
  lemma NextSettled(cfg: Config, g: Shared, c: Call) returns (g': Shared, c': Call)
    requires cfg.tracing && TraceFaithful(g) && !c.pc.Update? && !c.pc.After? && !c.pc.Done?
    ensures Finish(cfg, g, c) == Finish(cfg, g', c') && Rank(c'.pc) < Rank(c.pc)
    ensures TraceFaithful(g') && !c'.pc.Update? && !c'.pc.After?
  {
    if c.pc.Before? {
      g', c' := TracedUpdate(cfg, g, c).0, TracedUpdate(cfg, g, c).1;
      TracedUpdateFaithful(cfg, g, c);
      TracedUpdateFinishes(cfg, g, c);
    } else {
      g', c' := Step(cfg, g, c).0, Step(cfg, g, c).1;
      FinishAfter(cfg, g, c, g', c');
      QuietStep(cfg, g, c);
      QuietKeepsTrace(g, g');
    }
  }

  lemma {:induction false} FinishTraceFaithful(cfg: Config, g: Shared, c: Call)
    requires cfg.tracing && TraceFaithful(g) && !c.pc.Update? && !c.pc.After?
    ensures TraceFaithful(Finish(cfg, g, c).0)
    decreases Rank(c.pc)
  {
    if !c.pc.Done? {
      var g', c' := NextSettled(cfg, g, c);
      FinishTraceFaithful(cfg, g', c');
    }
  }

  /** One request of a sequential program: it may change memory, then calls. */
  datatype Request = Request(memory: Memory, args: UpdateArgs)

  function Session(cfg: Config, g: Shared, requests: seq<Request>): Shared {
    if requests == [] then g
    else
      var before := Session(cfg, g, requests[..|requests| - 1]);
      var r := requests[|requests| - 1];
      Solo(cfg, before.(memory := r.memory), r.args).0
  }

  lemma SoloTraceFaithful(cfg: Config, g: Shared, args: UpdateArgs)
    requires cfg.tracing && TraceFaithful(g)
    ensures TraceFaithful(Solo(cfg, g, args).0)
  {
    SummarizeSnoc(g.log, Called(args));
    var begun := g.(log := g.log + [Called(args)]);
    FinishTraceFaithful(cfg, begun, NewCall(args));
    var (g', c') := Finish(cfg, begun, NewCall(args));
    SummarizeSnoc(g'.log, Returned(c'.pc.status, c'.trail));
  }

  /** Trace refinement: after any sequence of calls, under any policy and any
      native behaviour, the constant-size trace has reported exactly the
      relations read off the full history of native updates. */
  lemma {:induction false} SessionReportsHistory(cfg: Config, memory: Memory, requests: seq<Request>)
    requires cfg.tracing
    ensures var g := Session(cfg, InitialShared(memory), requests);
            g.reports == HistoryReports(Observations(g.log), |Observations(g.log)|)
    ensures TraceFaithful(Session(cfg, InitialShared(memory), requests))
  {
    if requests != [] {
      SessionReportsHistory(cfg, memory, requests[..|requests| - 1]);
      var r := requests[|requests| - 1];
      var before := Session(cfg, InitialShared(memory), requests[..|requests| - 1]);
      SoloTraceFaithful(cfg, before.(memory := r.memory), r.args);
    }
  }

  // ---------------------------------------------------------------------
  // Tracing is invisible, under every interleaving
  // ---------------------------------------------------------------------

  function Untraced(cfg: Config): Config {
    cfg.(tracing := false)
  }

  /** The process state without the trace's own variables. */
  function Erase(g: Shared): Shared {
    g.(updateCalls := 0, trace := INITIAL_TRACE, reports := [])
  }

  function EraseCall(c: Call): Call {
    c.(snapshot := NO_SNAPSHOT)
  }

  function EraseCalls(calls: map<nat, Call>): map<nat, Call> {
    map t | t in calls :: EraseCall(calls[t])
  }

  function EraseWorld(w: World): World {
    World(Erase(w.shared), EraseCalls(w.calls))
  }

  lemma StepErased(cfg: Config, g: Shared, c: Call)
    requires !c.pc.Done?
    ensures var (g', c') := Step(cfg, g, c);
            Step(Untraced(cfg), Erase(g), EraseCall(c)) == (Erase(g'), EraseCall(c'))
  {
  }

  lemma PlayErased(cfg: Config, w: World, m: Move)
    ensures Play(Untraced(cfg), EraseWorld(w), m) == EraseWorld(Play(cfg, w, m))
  {
    match m
    case Begin(t, args) =>
      assert EraseCalls(w.calls[t := NewCall(args)]) == EraseCalls(w.calls)[t := NewCall(args)];
    case Advance(t) =>
      if t in w.calls {
        if w.calls[t].pc.Done? {
          assert EraseCalls(w.calls - {t}) == EraseCalls(w.calls) - {t};
        } else {
          var c' := Step(cfg, w.shared, w.calls[t]).1;
          StepErased(cfg, w.shared, w.calls[t]);
          assert EraseCalls(w.calls[t := c']) == EraseCalls(w.calls)[t := EraseCall(c')];
        }
      }
    case _ =>
  }

  /** Turning the trace on changes no native call, no returned status, no output
      byte and no policy counter, whatever the schedule. */
  lemma {:induction false} TracingChangesNothingElse(cfg: Config, memory: Memory, moves: seq<Move>)
    ensures Reach(Untraced(cfg), memory, moves) == EraseWorld(Reach(cfg, memory, moves))
    ensures var w, quiet := Reach(cfg, memory, moves), Reach(Untraced(cfg), memory, moves);
            && quiet.shared.log == w.shared.log && quiet.shared.memory == w.shared.memory
            && quiet.shared.retryAttempt == w.shared.retryAttempt
            && quiet.shared.acceptedIncomplete == w.shared.acceptedIncomplete
            && quiet.shared.zeroInputUpdates == w.shared.zeroInputUpdates
  {
    if moves == [] {
      assert EraseCalls(map[]) == map[];
    } else {
      TracingChangesNothingElse(cfg, memory, moves[..|moves| - 1]);
      PlayErased(cfg, Reach(cfg, memory, moves[..|moves| - 1]), moves[|moves| - 1]);
    }
  }
}
