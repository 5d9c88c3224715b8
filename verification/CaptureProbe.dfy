/** The capture-only probe: one native capture read per process, at the first
    intercepted update, and a completion flag that other threads may ask for. */
module CaptureProbe {
  import opened Prelude
  import opened Buffers
  import opened DriverTypes
  import opened Holding

  const CAPTURE_SELECTOR := 1
  const CAPTURE_CAPACITY := 0x17000

  /** Arguments of an intercepted update, and whether its allocation succeeds. */
  datatype ProbeArgs = ProbeArgs(handle: U32, enrollmentId: Pointer, hasMemory: bool)

  datatype GetResult = GetResult(handle: U32, selector: Byte, captureId: Pointer, capacity: U32, buffer: seq<Byte>)

  datatype GetReply = GetReply(status: U32, size: U32, payload: seq<Byte>)

  /** Whether the resolver found its target, and the native function. */
  datatype Setup = Setup(ready: bool, native: (seq<GetResult>, GetResult) -> GetReply)

  /** The static atomics, and the history of the process: how often the update
      counter was drawn, native calls, stores of the flag, what every freed buffer
      held, returned statuses. */
  datatype Probe = Probe(
    interceptedUpdates: U32,
    nativeCalls: U32,
    metadataValid: bool,
    tickets: nat,
    natives: seq<GetResult>,
    stores: nat,
    released: seq<seq<Byte>>,
    returned: seq<U32>)

  datatype Pc = Enter | Announce | Get | Store(size: U32) | Wipe | Release | Done(status: U32)

  datatype Call = Call(args: ProbeArgs, pc: Pc, buffer: seq<Byte>)

  const INITIAL_PROBE := Probe(0, 0, false, 0, [], 0, [], [])

  function NewCall(args: ProbeArgs): Call {
    Call(args, Enter, [])
  }

  function EnterStep(setup: Setup, p: Probe, c: Call): (Probe, Call) {
    var refused := c.(pc := Done(STATUS_EXPERIMENT_FAILURE));
    if !setup.ready then (p, refused)
    else
      var number := Increment(p.interceptedUpdates);
      var p' := p.(interceptedUpdates := number, tickets := p.tickets + 1);
      if number != 1 || c.args.handle == 0 || c.args.enrollmentId.Null? || !c.args.hasMemory then (p', refused)
      else (p', c.(pc := Announce, buffer := Zeros(CAPTURE_CAPACITY)))
  }

  function GetStep(setup: Setup, p: Probe, c: Call): (Probe, Call) {
    var request := GetResult(c.args.handle, CAPTURE_SELECTOR, c.args.enrollmentId, CAPTURE_CAPACITY, c.buffer);
    var reply := setup.native(p.natives, request);
    (p.(natives := p.natives + [request]),
     c.(pc := Store(reply.size), buffer := Overwritten(c.buffer, reply.payload)))
  }

  function Step(setup: Setup, p: Probe, c: Call): (Probe, Call)
    requires !c.pc.Done?
  {
    match c.pc
    case Enter => EnterStep(setup, p, c)
    case Announce => (p.(nativeCalls := Increment(p.nativeCalls)), c.(pc := Get))
    case Get => GetStep(setup, p, c)
    case Store(size) => (p.(metadataValid := size <= CAPTURE_CAPACITY, stores := p.stores + 1), c.(pc := Wipe))
    case Wipe => (p, c.(pc := Release, buffer := Cleared(c.buffer, CAPTURE_CAPACITY)))
    case Release =>
      (p.(released := p.released + [c.buffer]), c.(pc := Done(STATUS_EXPERIMENT_FAILURE), buffer := []))
  }

  /** `cv2_capture_result_probe_complete`, read at one moment. */
  predicate Complete(p: Probe) {
    p.interceptedUpdates >= 1 && p.nativeCalls == 1 && p.metadataValid
  }

  // ---------------------------------------------------------------------
  // Any number of threads
  // ---------------------------------------------------------------------

  /** A thread that evaluates `cv2_capture_result_probe_complete` loads the three
      atomics one after the other. */
  datatype Reader = LoadUpdates | LoadCalls | LoadValid | Answer(complete: bool)

  datatype World = World(probe: Probe, calls: map<nat, Call>, readers: map<nat, Reader>)

  datatype Move = Begin(thread: nat, args: ProbeArgs) | Advance(thread: nat) | Ask(reader: nat) | Load(reader: nat)

  function LoadStep(p: Probe, r: Reader): Reader {
    match r
    case LoadUpdates => if p.interceptedUpdates >= 1 then LoadCalls else Answer(false)
    case LoadCalls => if p.nativeCalls == 1 then LoadValid else Answer(false)
    case LoadValid => Answer(p.metadataValid)
    case Answer(_) => r
  }

  function Play(setup: Setup, w: World, m: Move): World {
    match m
    case Begin(t, args) => if t in w.calls then w else w.(calls := w.calls[t := NewCall(args)])
    case Advance(t) =>
      if t !in w.calls then w
      else if w.calls[t].pc.Done? then
        w.(probe := w.probe.(returned := w.probe.returned + [w.calls[t].pc.status]), calls := w.calls - {t})
      else
        var (p', c') := Step(setup, w.probe, w.calls[t]);
        w.(probe := p', calls := w.calls[t := c'])
    case Ask(r) => w.(readers := w.readers[r := LoadUpdates])
    case Load(r) => if r !in w.readers then w else w.(readers := w.readers[r := LoadStep(w.probe, w.readers[r])])
  }

  function Run(setup: Setup, w: World, moves: seq<Move>): World {
    if moves == [] then w else Play(setup, Run(setup, w, moves[..|moves| - 1]), moves[|moves| - 1])
  }

  const FRESH := World(INITIAL_PROBE, map[], map[])

  // ---------------------------------------------------------------------
  // The accounts of the process
  // ---------------------------------------------------------------------

  /** How often the wrapping counter has returned one. */
  function Firsts(tickets: nat): nat {
    (tickets + WORD - 1) / WORD
  }

  function AtPc(pc: Pc -> bool): Call -> bool {
    (c: Call) => pc(c.pc)
  }

  predicate IsAnnounce(pc: Pc) { pc.Announce? }

  predicate IsGet(pc: Pc) { pc.Get? }

  predicate IsStore(pc: Pc) { pc.Store? }

  predicate IsEnding(pc: Pc) { pc.Wipe? || pc.Release? }

  function Number(calls: map<nat, Call>, pc: Pc -> bool): nat {
    |Holders(calls, AtPc(pc))|
  }

  ghost predicate Accounts(p: Probe, announcing: nat, getting: nat, storing: nat, ending: nat) {
    && p.interceptedUpdates == p.tickets % WORD
    && p.stores + storing + getting + announcing <= Firsts(p.tickets)
    && |p.natives| == p.stores + storing
    && p.stores == |p.released| + ending
    && p.nativeCalls == (|p.natives| + getting) % WORD
    && (p.metadataValid ==> p.stores > 0)
  }

  ghost predicate Accounted(p: Probe, calls: map<nat, Call>) {
    Accounts(p, Number(calls, IsAnnounce), Number(calls, IsGet), Number(calls, IsStore), Number(calls, IsEnding))
  }

  predicate Proper(request: GetResult) {
    && request.handle != 0 && request.captureId.At? && request.selector == CAPTURE_SELECTOR
    && request.capacity == CAPTURE_CAPACITY && request.buffer == Zeros(CAPTURE_CAPACITY)
  }

  /** What holds of a call at each of its actions: its private buffer is zero
      until the native call and zero again when it is released. */
  predicate CallKept(c: Call) {
    match c.pc
    case Enter => c.buffer == []
    case Done(status) => c.buffer == [] && status == STATUS_EXPERIMENT_FAILURE
    case Announce => c.args.handle != 0 && c.args.enrollmentId.At? && c.buffer == Zeros(CAPTURE_CAPACITY)
    case Get => c.args.handle != 0 && c.args.enrollmentId.At? && c.buffer == Zeros(CAPTURE_CAPACITY)
    case Release => c.buffer == Zeros(CAPTURE_CAPACITY)
    case _ => |c.buffer| == CAPTURE_CAPACITY
  }

  /** What a reader knows for good, while the update counter has not wrapped. */
  predicate ReaderKept(p: Probe, r: Reader) {
    match r
    case LoadUpdates => true
    case LoadCalls => p.tickets >= 1
    case LoadValid => p.tickets >= 1
    case Answer(complete) => complete && p.tickets < WORD ==> Complete(p)
  }

  ghost predicate Kept(w: World) {
    && Accounted(w.probe, w.calls)
    && (forall t :: t in w.calls ==> CallKept(w.calls[t]))
    && (forall i :: 0 <= i < |w.probe.natives| ==> Proper(w.probe.natives[i]))
    && (forall i :: 0 <= i < |w.probe.released| ==> w.probe.released[i] == Zeros(CAPTURE_CAPACITY))
    && (forall i :: 0 <= i < |w.probe.returned| ==> w.probe.returned[i] == STATUS_EXPERIMENT_FAILURE)
    && (forall r :: r in w.readers ==> ReaderKept(w.probe, w.readers[r]))
  }

  // ---------------------------------------------------------------------
  // Every step keeps them
  // ---------------------------------------------------------------------

  function Weight(pc: Pc, which: Pc -> bool): nat {
    if which(pc) then 1 else 0
  }

  /** The calls of all threads but one. */
  function Others(calls: map<nat, Call>, t: nat, pc: Pc -> bool): nat {
    Number(calls - {t}, pc)
  }

  /** A call is counted where it stands. */
  lemma OneMoves(calls: map<nat, Call>, t: nat, c: Call, pc: Pc -> bool)
    requires t in calls
    ensures Number(calls[t := c], pc) == Others(calls, t, pc) + Weight(c.pc, pc)
  {
    HoldersRemove(calls, t, AtPc(pc));
    HoldersUpdate(calls, t, c, AtPc(pc));
  }

  lemma FirstsNext(tickets: nat)
    ensures Firsts(tickets + 1) == Firsts(tickets) + if tickets % WORD == 0 then 1 else 0
    ensures Increment(tickets % WORD) == (tickets + 1) % WORD
    ensures Increment(tickets % WORD) == 1 <==> tickets % WORD == 0
  {
    var q, r := tickets / WORD, tickets % WORD;
    assert tickets == q * WORD + r;
    if r == 0 {
      assert Firsts(tickets) == q && Firsts(tickets + 1) == q + 1;
    } else {
      assert Firsts(tickets) == q + 1 && Firsts(tickets + 1) == q + 1;
    }
    IncrementWraps(tickets);
  }

  /** One action, with the call counted where it stands. */
  lemma StepAccounts(setup: Setup, p: Probe, c: Call, a: nat, g: nat, s: nat, e: nat)
    requires !c.pc.Done?
    requires Accounts(p, a + Weight(c.pc, IsAnnounce), g + Weight(c.pc, IsGet), s + Weight(c.pc, IsStore),
                      e + Weight(c.pc, IsEnding))
    ensures var (p', c') := Step(setup, p, c);
            Accounts(p', a + Weight(c'.pc, IsAnnounce), g + Weight(c'.pc, IsGet), s + Weight(c'.pc, IsStore),
                     e + Weight(c'.pc, IsEnding))
  {
    match c.pc
    case Enter => FirstsNext(p.tickets);
    case Announce => IncrementWraps(|p.natives| + g);
    case _ =>
  }

  lemma StepKeepsCall(setup: Setup, p: Probe, c: Call)
    requires !c.pc.Done? && CallKept(c)
    requires forall i :: 0 <= i < |p.natives| ==> Proper(p.natives[i])
    requires forall i :: 0 <= i < |p.released| ==> p.released[i] == Zeros(CAPTURE_CAPACITY)
    ensures var (p', c') := Step(setup, p, c);
            && CallKept(c')
            && (forall i :: 0 <= i < |p'.natives| ==> Proper(p'.natives[i]))
            && (forall i :: 0 <= i < |p'.released| ==> p'.released[i] == Zeros(CAPTURE_CAPACITY))
            && p'.returned == p.returned
  {
    if c.pc.Get? {
      OverwrittenAt(c.buffer, setup.native(p.natives, Step(setup, p, c).0.natives[|p.natives|]).payload);
    } else if c.pc.Wipe? {
      ClearedWhole(c.buffer);
    }
  }

  lemma StepKeepsComplete(setup: Setup, p: Probe, c: Call, a: nat, g: nat, s: nat, e: nat)
    requires !c.pc.Done?
    requires Accounts(p, a + Weight(c.pc, IsAnnounce), g + Weight(c.pc, IsGet), s + Weight(c.pc, IsStore),
                      e + Weight(c.pc, IsEnding))
    ensures var p' := Step(setup, p, c).0;
            p.tickets <= p'.tickets && (Complete(p) && p'.tickets < WORD ==> Complete(p'))
  {
  }

  lemma LoadKeepsReader(p: Probe, r: Reader, a: nat, g: nat, s: nat, e: nat)
    requires Accounts(p, a, g, s, e) && ReaderKept(p, r)
    ensures ReaderKept(p, LoadStep(p, r))
  {
  }

  /** The accounts with one call counted apart. */
  ghost predicate CountedApart(p: Probe, calls: map<nat, Call>, t: nat, c: Call) {
    Accounts(p, Others(calls, t, IsAnnounce) + Weight(c.pc, IsAnnounce),
             Others(calls, t, IsGet) + Weight(c.pc, IsGet),
             Others(calls, t, IsStore) + Weight(c.pc, IsStore),
             Others(calls, t, IsEnding) + Weight(c.pc, IsEnding))
  }

  lemma Joined(p: Probe, calls: map<nat, Call>, t: nat, c: Call)
    requires t in calls
    ensures CountedApart(p, calls, t, c) <==> Accounted(p, calls[t := c])
  {
    OneMoves(calls, t, c, IsAnnounce);
    OneMoves(calls, t, c, IsGet);
    OneMoves(calls, t, c, IsStore);
    OneMoves(calls, t, c, IsEnding);
  }

  lemma StepApart(setup: Setup, p: Probe, calls: map<nat, Call>, t: nat, c: Call)
    requires !c.pc.Done? && CountedApart(p, calls, t, c)
    ensures var (p', c') := Step(setup, p, c);
            && CountedApart(p', calls, t, c')
            && p.tickets <= p'.tickets && (Complete(p) && p'.tickets < WORD ==> Complete(p'))
  {
    var a, g := Others(calls, t, IsAnnounce), Others(calls, t, IsGet);
    var s, e := Others(calls, t, IsStore), Others(calls, t, IsEnding);
    StepAccounts(setup, p, c, a, g, s, e);
    StepKeepsComplete(setup, p, c, a, g, s, e);
  }

  lemma AdvanceAccounts(setup: Setup, p: Probe, calls: map<nat, Call>, t: nat, p': Probe, c': Call)
    requires t in calls && !calls[t].pc.Done? && Step(setup, p, calls[t]) == (p', c')
    requires Accounted(p, calls)
    ensures Accounted(p', calls[t := c'])
    ensures p.tickets <= p'.tickets && (Complete(p) && p'.tickets < WORD ==> Complete(p'))
  {
    assert calls[t := calls[t]] == calls;
    Joined(p, calls, t, calls[t]);
    StepApart(setup, p, calls, t, calls[t]);
    Joined(p', calls, t, c');
  }

  lemma AdvanceKeeps(setup: Setup, w: World, t: nat)
    requires Kept(w) && t in w.calls && !w.calls[t].pc.Done?
    ensures var w' := Play(setup, w, Advance(t));
            && Kept(w') && w.probe.tickets <= w'.probe.tickets
            && (Complete(w.probe) && w'.probe.tickets < WORD ==> Complete(w'.probe))
  {
    var (p', c') := Step(setup, w.probe, w.calls[t]);
    AdvanceAccounts(setup, w.probe, w.calls, t, p', c');
    StepKeepsCall(setup, w.probe, w.calls[t]);
  }

  lemma BeginKeeps(w: World, t: nat, args: ProbeArgs)
    requires Kept(w) && t !in w.calls
    ensures Kept(w.(calls := w.calls[t := NewCall(args)]))
  {
    var c := NewCall(args);
    HoldersUpdate(w.calls, t, c, AtPc(IsAnnounce));
    HoldersUpdate(w.calls, t, c, AtPc(IsGet));
    HoldersUpdate(w.calls, t, c, AtPc(IsStore));
    HoldersUpdate(w.calls, t, c, AtPc(IsEnding));
  }

  lemma ReturnKeepsNumber(calls: map<nat, Call>, t: nat, pc: Pc -> bool)
    requires t in calls && !pc(calls[t].pc)
    ensures Number(calls - {t}, pc) == Number(calls, pc)
  {
    HoldersRemove(calls, t, AtPc(pc));
  }

  lemma ReturnAccounts(p: Probe, calls: map<nat, Call>, t: nat, returned: seq<U32>)
    requires Accounted(p, calls) && t in calls && calls[t].pc.Done?
    ensures Accounted(p.(returned := returned), calls - {t})
  {
    ReturnKeepsNumber(calls, t, IsAnnounce);
    ReturnKeepsNumber(calls, t, IsGet);
    ReturnKeepsNumber(calls, t, IsStore);
    ReturnKeepsNumber(calls, t, IsEnding);
  }

  lemma ReturnKeeps(w: World, t: nat)
    requires Kept(w) && t in w.calls && w.calls[t].pc.Done?
    ensures Kept(w.(probe := w.probe.(returned := w.probe.returned + [w.calls[t].pc.status]), calls := w.calls - {t}))
  {
    ReturnAccounts(w.probe, w.calls, t, w.probe.returned + [w.calls[t].pc.status]);
    assert CallKept(w.calls[t]);
  }

  lemma LoadKeeps(w: World, r: nat)
    requires Kept(w) && r in w.readers
    ensures Kept(w.(readers := w.readers[r := LoadStep(w.probe, w.readers[r])]))
  {
    LoadKeepsReader(w.probe, w.readers[r], Number(w.calls, IsAnnounce), Number(w.calls, IsGet),
                    Number(w.calls, IsStore), Number(w.calls, IsEnding));
  }

  lemma PlayKeeps(setup: Setup, w: World, m: Move)
    requires Kept(w)
    ensures var w' := Play(setup, w, m);
            && Kept(w') && w.probe.tickets <= w'.probe.tickets
            && (Complete(w.probe) && w'.probe.tickets < WORD ==> Complete(w'.probe))
  {
    match m
    case Begin(t, args) =>
      if t !in w.calls {
        BeginKeeps(w, t, args);
      }
    case Advance(t) =>
      if t in w.calls {
        if w.calls[t].pc.Done? {
          ReturnKeeps(w, t);
        } else {
          AdvanceKeeps(setup, w, t);
        }
      }
    case Ask(_) =>
    case Load(r) =>
      if r in w.readers {
        LoadKeeps(w, r);
      }
  }

  lemma {:induction false} RunKeeps(setup: Setup, w: World, moves: seq<Move>)
    requires Kept(w)
    ensures var w' := Run(setup, w, moves);
            && Kept(w') && w.probe.tickets <= w'.probe.tickets
            && (Complete(w.probe) && w'.probe.tickets < WORD ==> Complete(w'.probe))
  {
    if moves != [] {
      RunKeeps(setup, w, moves[..|moves| - 1]);
      PlayKeeps(setup, Run(setup, w, moves[..|moves| - 1]), moves[|moves| - 1]);
    }
  }

  lemma FreshKept()
    ensures Kept(FRESH)
  {
    assert Holders(map[], AtPc(IsAnnounce)) == {} && Holders(map[], AtPc(IsGet)) == {};
    assert Holders(map[], AtPc(IsStore)) == {} && Holders(map[], AtPc(IsEnding)) == {};
  }

  // ---------------------------------------------------------------------
  // The probe's promises
  // ---------------------------------------------------------------------

  /** In every schedule the native function is called at most once per time the
      wrapping counter returns one - once in the first 2^32 intercepted updates -
      always with the fixed selector, the whole private buffer and that buffer
      zero; and every call returns the same failure. */
  lemma ProbeContract(setup: Setup, moves: seq<Move>)
    ensures var p := Run(setup, FRESH, moves).probe;
            && |p.natives| <= Firsts(p.tickets)
            && (p.tickets <= WORD ==> |p.natives| <= 1)
            && (forall i :: 0 <= i < |p.natives| ==> Proper(p.natives[i]))
            && (forall i :: 0 <= i < |p.returned| ==> p.returned[i] == STATUS_EXPERIMENT_FAILURE)
  {
    FreshKept();
    RunKeeps(setup, FRESH, moves);
  }

  lemma {:induction false} RunAppend(setup: Setup, w: World, a: seq<Move>, b: seq<Move>)
    ensures Run(setup, w, a + b) == Run(setup, Run(setup, w, a), b)
  {
    if b == [] {
      assert a + b == a;
    } else {
      assert (a + b)[..|a + b| - 1] == a + b[..|b| - 1];
      RunAppend(setup, w, a, b[..|b| - 1]);
    }
  }

  /** Once complete, complete for good - for the first 2^32 intercepted updates
      exactly until the last of them wraps the counter to zero. */
  lemma CompleteStays(setup: Setup, before: seq<Move>, after: seq<Move>)
    requires Complete(Run(setup, FRESH, before).probe)
    requires Run(setup, FRESH, before).probe.tickets < WORD && Run(setup, FRESH, before + after).probe.tickets <= WORD
    ensures var p := Run(setup, FRESH, before + after).probe; Complete(p) <==> p.tickets < WORD
  {
    FreshKept();
    RunKeeps(setup, FRESH, before);
    RunAppend(setup, FRESH, before, after);
    RunKeeps(setup, Run(setup, FRESH, before), after);
  }

  /** A thread that loaded the three atomics one by one and found the probe
      complete is right, and stays right. */
  lemma ReadersAreRight(setup: Setup, moves: seq<Move>, r: nat)
    requires var w := Run(setup, FRESH, moves); r in w.readers && w.readers[r] == Answer(true) && w.probe.tickets < WORD
    ensures Complete(Run(setup, FRESH, moves).probe)
  {
    FreshKept();
    RunKeeps(setup, FRESH, moves);
  }

  /** Every private buffer is wiped before it is freed: whatever the native
      function wrote, only zeros are released, in the order of the native calls
      one buffer for each, and none is kept once no call is in progress.  Before
      the native call and after the wipe a buffer in use holds nothing. */
  lemma NoPayloadLeft(setup: Setup, moves: seq<Move>)
    ensures var w := Run(setup, FRESH, moves);
            && (forall i :: 0 <= i < |w.probe.released| ==> w.probe.released[i] == Zeros(CAPTURE_CAPACITY))
            && |w.probe.released| <= |w.probe.natives|
            && (w.calls == map[] ==> |w.probe.released| == |w.probe.natives|)
            && (forall t :: t in w.calls && w.calls[t].buffer != [] && w.calls[t].buffer != Zeros(CAPTURE_CAPACITY) ==>
                  w.calls[t].pc.Store? || w.calls[t].pc.Wipe?)
  {
    FreshKept();
    RunKeeps(setup, FRESH, moves);
    var w := Run(setup, FRESH, moves);
    assert Kept(w);
    if w.calls == map[] {
      assert Holders(w.calls, AtPc(IsStore)) == {} && Holders(w.calls, AtPc(IsEnding)) == {};
    }
  }

  // ---------------------------------------------------------------------
  // The intercepted function
  // ---------------------------------------------------------------------

  /** Every step brings a call closer to its return. */
  function Rank(pc: Pc): nat {
    match pc
    case Enter => 6
    case Announce => 5
    case Get => 4
    case Store(_) => 3
    case Wipe => 2
    case Release => 1
    case Done(_) => 0
  }

  /** The rest of a call that nobody interrupts. */
  function Finish(setup: Setup, p: Probe, c: Call): (Probe, Call)
    decreases Rank(c.pc)
  {
    if c.pc.Done? then (p, c)
    else
      var (p', c') := Step(setup, p, c);
      Finish(setup, p', c')
  }

  lemma FinishAfter(setup: Setup, p: Probe, c: Call, p': Probe, c': Call)
    requires !c.pc.Done? && Step(setup, p, c) == (p', c')
    ensures Finish(setup, p, c) == Finish(setup, p', c')
  {
  }

  class ProbeProcess {
    const setup: Setup
    var interceptedUpdates: U32
    var nativeCalls: U32
    var metadataValid: bool
    var tickets: nat
    var natives: seq<GetResult>
    var stores: nat
    var released: seq<seq<Byte>>
    var returned: seq<U32>

    ghost function State(): Probe
      reads this
    {
      Probe(interceptedUpdates, nativeCalls, metadataValid, tickets, natives, stores, released, returned)
    }

    constructor (setup: Setup)
      ensures State() == INITIAL_PROBE && this.setup == setup
    {
      this.setup := setup;
      interceptedUpdates, nativeCalls, metadataValid := 0, 0, false;
      tickets, natives, stores, released, returned := 0, [], 0, [], [];
    }

    method ProbeComplete() returns (complete: bool)
      ensures complete == Complete(State())
    {
      if interceptedUpdates < 1 {
        return false;
      }
      if nativeCalls != 1 {
        return false;
      }
      complete := metadataValid;
    }

    /** The native call with its private buffer, which is all zero when it is
        given up, whatever the native function wrote to it. */
    method ReadCapture(args: ProbeArgs, ghost c: Call)
        returns (status: U32, ghost c': Call, ghost buffer: array<Byte>)
      requires c == Call(args, Announce, Zeros(CAPTURE_CAPACITY))
      modifies this
      ensures Finish(setup, old(State()), c) == (State(), c') && c' == Call(args, Done(status), [])
      ensures status == STATUS_EXPERIMENT_FAILURE
      ensures fresh(buffer) && buffer[..] == Zeros(CAPTURE_CAPACITY)
      ensures released == old(released) + [buffer[..]]
    {
      var memory := new Byte[CAPTURE_CAPACITY](_ => 0);
      buffer := memory;
      assert memory[..] == Zeros(CAPTURE_CAPACITY);
      ghost var p0 := State();
      nativeCalls := Increment(nativeCalls);
      ghost var p1, c1 := State(), c.(pc := Get);
      FinishAfter(setup, p0, c, p1, c1);

      var request := GetResult(args.handle, CAPTURE_SELECTOR, args.enrollmentId, CAPTURE_CAPACITY, memory[..]);
      var reply := setup.native(natives, request);
      natives := natives + [request];
      WriteInto(memory, reply.payload);
      ghost var p2, c2 := State(), Call(args, Store(reply.size), memory[..]);
      FinishAfter(setup, p1, c1, p2, c2);

      metadataValid, stores := reply.size <= CAPTURE_CAPACITY, stores + 1;
      ghost var p3, c3 := State(), c2.(pc := Wipe);
      FinishAfter(setup, p2, c2, p3, c3);
      SecureClear(memory, CAPTURE_CAPACITY);
      ClearedWhole(c2.buffer);
      ghost var c4 := Call(args, Release, memory[..]);
      FinishAfter(setup, p3, c3, p3, c4);

      released := released + [memory[..]];
      status := STATUS_EXPERIMENT_FAILURE;
      c' := Call(args, Done(status), []);
      FinishAfter(setup, p3, c4, State(), c');
    }

    /** The interposed function is one uninterrupted call of the machine. */
    method UpdateEnrollment(args: ProbeArgs) returns (status: U32)
      modifies this
      ensures status == STATUS_EXPERIMENT_FAILURE
      ensures var (p, c) := Finish(setup, old(State()), NewCall(args));
              c.pc == Done(status) && State() == p.(returned := p.returned + [status])
    {
      ghost var p0, c := State(), NewCall(args);
      ghost var c1 := EnterStep(setup, p0, c).1;
      status := STATUS_EXPERIMENT_FAILURE;
      if setup.ready {
        interceptedUpdates, tickets := Increment(interceptedUpdates), tickets + 1;
        FinishAfter(setup, p0, c, State(), c1);
        if interceptedUpdates == 1 && args.handle != 0 && !args.enrollmentId.Null? && args.hasMemory {
          ghost var buffer;
          status, c1, buffer := ReadCapture(args, c1);
        }
      } else {
        FinishAfter(setup, p0, c, State(), c1);
      }
      returned := returned + [status];
    }
  }

  /** An uninterrupted call is one of the schedules. */
  lemma {:induction false} FinishIsRun(setup: Setup, p: Probe, t: nat, c: Call) returns (moves: seq<Move>)
    ensures var (p', c') := Finish(setup, p, c);
            Run(setup, World(p, map[t := c], map[]), moves) == World(p', map[t := c'], map[])
    decreases Rank(c.pc)
  {
    if c.pc.Done? {
      moves := [];
    } else {
      var (p', c') := Step(setup, p, c);
      var later := FinishIsRun(setup, p', t, c');
      moves := [Advance(t)] + later;
      var w := World(p, map[t := c], map[]);
      RunAppend(setup, w, [Advance(t)], later);
      assert [Advance(t)][..0] == [] && Run(setup, w, [Advance(t)][..0]) == w;
      assert map[t := c][t := c'] == map[t := c'];
    }
  }

  // ---------------------------------------------------------------------
  // The bound is reached, and ends when the counter wraps
  // ---------------------------------------------------------------------

  /** Arguments that pass every check. */
  predicate Usable(args: ProbeArgs) {
    args.handle != 0 && args.enrollmentId.At? && args.hasMemory
  }

  /** The five actions behind the first update of a count. */
  lemma FirstFinish(setup: Setup, p: Probe, args: ProbeArgs)
    ensures var (p', c') := Finish(setup, p, Call(args, Announce, Zeros(CAPTURE_CAPACITY)));
            && p'.interceptedUpdates == p.interceptedUpdates && p'.tickets == p.tickets
            && |p'.natives| == |p.natives| + 1
  {
    var c := Call(args, Announce, Zeros(CAPTURE_CAPACITY));
    var (p1, c1) := Step(setup, p, c);
    var (p2, c2) := Step(setup, p1, c1);
    var (p3, c3) := Step(setup, p2, c2);
    var (p4, c4) := Step(setup, p3, c3);
    var (p5, c5) := Step(setup, p4, c4);
    FinishAfter(setup, p, c, p1, c1);
    FinishAfter(setup, p1, c1, p2, c2);
    FinishAfter(setup, p2, c2, p3, c3);
    FinishAfter(setup, p3, c3, p4, c4);
    FinishAfter(setup, p4, c4, p5, c5);
  }

  lemma UsableFinish(setup: Setup, p: Probe, args: ProbeArgs)
    requires setup.ready && Usable(args)
    ensures var p' := Finish(setup, p, NewCall(args)).0;
            && p'.interceptedUpdates == Increment(p.interceptedUpdates) && p'.tickets == p.tickets + 1
            && |p'.natives| == |p.natives| + if Increment(p.interceptedUpdates) == 1 then 1 else 0
  {
    var (p1, c1) := EnterStep(setup, p, NewCall(args));
    FinishAfter(setup, p, NewCall(args), p1, c1);
    if !c1.pc.Done? {
      FirstFinish(setup, p1, args);
    }
  }

  lemma RunOne(setup: Setup, w: World, m: Move)
    ensures Run(setup, w, [m]) == Play(setup, w, m)
  {
    assert [m][..0] == [] && Run(setup, w, [m][..0]) == w;
  }

  lemma FinishIsDone(setup: Setup, p: Probe, c: Call)
    ensures Finish(setup, p, c).1.pc.Done?
    decreases Rank(c.pc)
  {
    if !c.pc.Done? {
      FinishIsDone(setup, Step(setup, p, c).0, Step(setup, p, c).1);
    }
  }

  /** One more call after a schedule that left none in progress. */
  lemma CallIsRun(setup: Setup, p: Probe, args: ProbeArgs) returns (moves: seq<Move>, p': Probe)
    ensures var (q, c) := Finish(setup, p, NewCall(args));
            c.pc.Done? && p' == q.(returned := q.returned + [c.pc.status])
    ensures Run(setup, World(p, map[], map[]), moves) == World(p', map[], map[])
  {
    var w, c := World(p, map[], map[]), NewCall(args);
    var (q, d) := Finish(setup, p, c);
    FinishIsDone(setup, p, c);
    p' := q.(returned := q.returned + [d.pc.status]);
    var middle := FinishIsRun(setup, p, 0, c);
    moves := [Begin(0, args)] + middle + [Advance(0)];
    var started := World(p, map[0 := c], map[]);
    assert Play(setup, w, Begin(0, args)) == started by {
      assert w.calls[0 := c] == map[0 := c];
    }
    RunOne(setup, w, Begin(0, args));
    RunAppend(setup, w, [Begin(0, args)], middle);
    RunAppend(setup, w, [Begin(0, args)] + middle, [Advance(0)]);
    var ended := World(q, map[0 := d], map[]);
    RunOne(setup, ended, Advance(0));
    assert ended.calls - {0} == map[];
  }

  /** `n` usable updates one after the other reach the bound of `ProbeContract`
      exactly, whatever the native function answers. */
  lemma {:induction false} UsableRun(setup: Setup, args: ProbeArgs, n: nat) returns (moves: seq<Move>)
    requires setup.ready && Usable(args)
    ensures var w := Run(setup, FRESH, moves);
            && w.calls == map[] && w.readers == map[] && w.probe.tickets == n
            && w.probe.interceptedUpdates == n % WORD && |w.probe.natives| == Firsts(n)
  {
    if n == 0 {
      moves := [];
    } else {
      var before := UsableRun(setup, args, n - 1);
      var p := Run(setup, FRESH, before).probe;
      var more, p' := CallIsRun(setup, p, args);
      assert Run(setup, FRESH, before) == World(p, map[], map[]);
      RunAppend(setup, FRESH, before, more);
      UsableFinish(setup, p, args);
      FirstsNext(n - 1);
      moves := before + more;
    }
  }

  /** For every probe that is ready and every number of updates some schedule
      makes as many native calls as the wrapping counter allows: none for none,
      one for up to 2^32, and a second one with the next. */
  lemma ProbeBoundExact(setup: Setup, args: ProbeArgs, n: nat) returns (moves: seq<Move>)
    requires setup.ready && Usable(args)
    ensures var p := Run(setup, FRESH, moves).probe;
            && p.tickets == n && |p.natives| == Firsts(n)
            && (|p.natives| <= 1 <==> n <= WORD)
            && (n == WORD + 1 ==> |p.natives| == 2)
  {
    moves := UsableRun(setup, args, n);
  }
}
