/** The two-phase commit over the adapter: an output phase and a closing phase
    with the same token and inputs. */
module GenericCommit {
  import opened Prelude
  import opened Buffers
  import opened AbiAdapter

  const PHASE1_CAPACITY := 0x800

  const COMMIT_INPUT0: seq<Byte> := [0x00, 0x00, 0x04, 0x00, 0x04, 0x00, 0x00, 0x00]

  const COMMIT_INPUT1: seq<Byte> :=
    [0x01, 0x01, 0xff, 0x00, 0x00, 0x00, 0x0d, 0x00, 0x0c,
     0x42, 0x72, 0x6f, 0x61, 0x64, 0x63, 0x6f, 0x6d, 0x57, 0x42, 0x46, 0x00]

  /** What a run reports about its phases. */
  datatype Phases = Phases(
    phase1Status: U32,
    phase1Result: U32,
    phase1OutputSize: U32,
    phase2Status: U32,
    phase2Result: U32,
    phase1Complete: bool,
    phase2Complete: bool)

  const NO_PHASES := Phases(0, 0, 0, 0, 0, false, false)

  class Snapshot {
    var phase1Status: U32
    const phase1Result: Cell
    var phase1OutputSize: U32
    var phase2Status: U32
    const phase2Result: Cell
    var phase1Complete: bool
    var phase2Complete: bool

    predicate Valid() {
      phase1Result != phase2Result
    }

    function Value(): Phases
      reads this, phase1Result, phase2Result
    {
      Phases(phase1Status, phase1Result.value, phase1OutputSize, phase2Status, phase2Result.value,
             phase1Complete, phase2Complete)
    }

    constructor ()
      ensures Valid() && fresh(phase1Result) && fresh(phase2Result) && Value() == NO_PHASES
    {
      phase1Status, phase1OutputSize, phase2Status, phase1Complete, phase2Complete := 0, 0, 0, false, false;
      var first := new Cell(0);
      var second := new Cell(0);
      phase1Result, phase2Result := first, second;
    }

    method Reset()
      requires Valid()
      modifies this, phase1Result, phase2Result
      ensures Value() == NO_PHASES
    {
      phase1Status, phase1OutputSize, phase2Status, phase1Complete, phase2Complete := 0, 0, 0, false, false;
      phase1Result.value, phase2Result.value := 0, 0;
    }
  }

  /** Outcome of a run: its status, the output buffer, the phases, and the native
      calls made through the adapter so far. */
  datatype Outcome = Outcome(status: U32, output: seq<Byte>, phases: Phases, requests: seq<Request>)

  function CommitRequest(handle: U32, token: seq<Byte>, capacity: U32): Request {
    Request.CommitEnrollment(handle, token, COMMIT_INPUT0, COMMIT_INPUT1, capacity, capacity != 0, true)
  }

  function Failure(status: U32): U32 {
    if status != 0 then status else INVALID_PARAMETER
  }

  function ResultOf(reply: Reply): U32 {
    if reply.result.Some? then reply.result.value else 0
  }

  /** The closing phase, after an output phase that left `first` in the buffer. */
  function CloseSpec(first: Report, phases: Phases, reply: Reply, requests: seq<Request>): Outcome {
    var second := Guard(0, MAX_COMMIT_OUTPUT, reply, []);
    var phases' := phases.(phase2Status := second.status, phase2Result := ResultOf(reply));
    if second.status != 0 || second.size != 0 then
      Outcome(Failure(second.status), Zeros(PHASE1_CAPACITY), phases'.(phase1OutputSize := 0), requests)
    else Outcome(0, first.output, phases'.(phase2Complete := true), requests)
  }

  function CommitSpec(native: Native, requests: seq<Request>, handle: U32, token: seq<Byte>): Outcome {
    var request1, request2 := CommitRequest(handle, token, PHASE1_CAPACITY), CommitRequest(handle, token, 0);
    var reply1 := native(requests, request1);
    var first := Guard(PHASE1_CAPACITY, MAX_COMMIT_OUTPUT, reply1, Zeros(PHASE1_CAPACITY));
    var phases := NO_PHASES.(phase1Status := first.status, phase1Result := ResultOf(reply1));
    if first.status != 0 || first.size == 0 then
      Outcome(Failure(first.status), Zeros(PHASE1_CAPACITY), phases, requests + [request1])
    else
      CloseSpec(first, phases.(phase1OutputSize := first.size, phase1Complete := true),
                native(requests + [request1], request2), requests + [request1, request2])
  }

  /** A run through an adapter that was never initialised. */
  function RefusedSpec(requests: seq<Request>): Outcome {
    Outcome(INVALID_PARAMETER, Zeros(PHASE1_CAPACITY), NO_PHASES.(phase1Status := INVALID_PARAMETER), requests)
  }

  /** The two native answers of a complete commit. */
  predicate Commits(reply1: Reply, reply2: Reply) {
    reply1.status == 0 && 1 <= reply1.size <= PHASE1_CAPACITY && reply2.status == 0 && reply2.size == 0
  }

  lemma PhaseOne(reply: Reply)
    ensures var g := Guard(PHASE1_CAPACITY, MAX_COMMIT_OUTPUT, reply, Zeros(PHASE1_CAPACITY));
            && (g.status == 0 && g.size != 0 <==> reply.status == 0 && 1 <= reply.size <= PHASE1_CAPACITY)
            && (g.status == 0 && g.size != 0 ==>
                  g.size == reply.size && g.output == Overwritten(Zeros(PHASE1_CAPACITY), reply.written))
  {
  }

  /** Behind the adapter the closing phase never reports a size: it is an error
      exactly when its status is one. */
  lemma ClosingSizeIsZero(reply: Reply)
    ensures var g := Guard(0, MAX_COMMIT_OUTPUT, reply, []);
            g.size == 0 && (g.status == 0 <==> reply.status == 0 && reply.size == 0)
  {
    GuardBounds(0, MAX_COMMIT_OUTPUT, reply, []);
  }

  /** All or nothing.  A run succeeds exactly when the native function was called
      twice with the same token and inputs, answering first status zero with 1 to
      0x800 bytes and then status zero with none; the output is then what the
      first call wrote.  Any other run makes one or two calls and leaves no byte
      and no size. */
  lemma AllOrNothing(native: Native, requests: seq<Request>, handle: U32, token: seq<Byte>)
    ensures var request1, request2 := CommitRequest(handle, token, PHASE1_CAPACITY), CommitRequest(handle, token, 0);
            var reply1, reply2 := native(requests, request1), native(requests + [request1], request2);
            var o := CommitSpec(native, requests, handle, token);
            && (o.status == 0 <==> Commits(reply1, reply2))
            && (o.status == 0 <==> o.phases.phase1Complete && o.phases.phase2Complete)
            && (o.status == 0 ==>
                  && o.requests == requests + [request1, request2]
                  && o.output == Overwritten(Zeros(PHASE1_CAPACITY), reply1.written)
                  && o.phases.phase1OutputSize == reply1.size)
            && (o.status != 0 ==>
                  && o.output == Zeros(PHASE1_CAPACITY) && o.phases.phase1OutputSize == 0
                  && !o.phases.phase2Complete
                  && (o.requests == requests + [request1] || o.requests == requests + [request1, request2])
                  && (o.requests == requests + [request1, request2] <==> o.phases.phase1Complete))
  {
    var request1, request2 := CommitRequest(handle, token, PHASE1_CAPACITY), CommitRequest(handle, token, 0);
    PhaseOne(native(requests, request1));
    ClosingSizeIsZero(native(requests + [request1], request2));
    assert |requests + [request1]| != |requests + [request1, request2]|;
  }

  // ---------------------------------------------------------------------
  // The run
  // ---------------------------------------------------------------------

  ghost function Parts(snapshot: Snapshot?): set<object> {
    if snapshot == null then {} else {snapshot, snapshot.phase1Result, snapshot.phase2Result}
  }

  /** One commit call of a run. */
  method Phase(adapter: Adapter, handle: U32, token: array<Byte>, size: Cell, output: array?<Byte>, result: Cell)
      returns (status: U32)
    requires token.Length == ID_SIZE && size != result && output != token
    requires if output == null then size.value == 0 else size.value == PHASE1_CAPACITY == output.Length
    requires result.value == 0 && adapter.Valid()
    modifies adapter`requests, size, output, result
    ensures adapter.initialized ==>
              var request := CommitRequest(handle, token[..], old(size.value));
              var reply := adapter.native(old(adapter.requests), request);
              && adapter.requests == old(adapter.requests) + [request]
              && Report(status, size.value, if output == null then [] else output[..]) ==
                 Guard(old(size.value), MAX_COMMIT_OUTPUT, reply, old(if output == null then [] else output[..]))
              && result.value == ResultOf(reply)
    ensures !adapter.initialized ==>
              && status == INVALID_PARAMETER && adapter.requests == old(adapter.requests)
              && size.value == old(size.value) && result.value == 0
              && (output != null ==> output[..] == old(output[..]))
  {
    assert CommitValid(Some(COMMIT_INPUT0), |COMMIT_INPUT0|, Some(COMMIT_INPUT1), |COMMIT_INPUT1|, size.value,
                       output != null, true);
    assert Prefix(token, ID_SIZE) == token[..];
    status := adapter.CommitEnrollment(handle, token, Some(COMMIT_INPUT0), |COMMIT_INPUT0|,
                                       Some(COMMIT_INPUT1), |COMMIT_INPUT1|, size, output, result);
    assert Input(Some(COMMIT_INPUT0), |COMMIT_INPUT0|) == COMMIT_INPUT0;
    assert Input(Some(COMMIT_INPUT1), |COMMIT_INPUT1|) == COMMIT_INPUT1;
  }

  /** Undo the output of a failed run. */
  method Abandon(output: array<Byte>, snapshot: Snapshot, status: U32) returns (failure: U32)
    requires output.Length == PHASE1_CAPACITY
    modifies output, snapshot`phase1OutputSize
    ensures output[..] == Zeros(PHASE1_CAPACITY) && snapshot.phase1OutputSize == 0 && failure == Failure(status)
  {
    ClearedWhole(output[..]);
    SecureClear(output, PHASE1_CAPACITY);
    snapshot.phase1OutputSize := 0;
    failure := if status != 0 then status else INVALID_PARAMETER;
  }

  method Close(adapter: Adapter, handle: U32, token: array<Byte>, output: array<Byte>, snapshot: Snapshot,
               ghost first: Report, ghost phases: Phases)
      returns (status: U32)
    requires token.Length == ID_SIZE && output.Length == PHASE1_CAPACITY && token != output
    requires adapter.Valid() && adapter.initialized && snapshot.Valid()
    requires snapshot.Value() == phases && phases.phase2Result == 0 && output[..] == first.output
    modifies adapter`requests, output, Parts(snapshot)
    ensures var request := CommitRequest(handle, token[..], 0);
            Outcome(status, output[..], snapshot.Value(), adapter.requests) ==
            CloseSpec(first, phases, adapter.native(old(adapter.requests), request), old(adapter.requests) + [request])
  {
    var size := new Cell(0);
    status := Phase(adapter, handle, token, size, null, snapshot.phase2Result);
    snapshot.phase2Status := status;
    if status != 0 || size.value != 0 {
      status := Abandon(output, snapshot, status);
    } else {
      snapshot.phase2Complete := true;
    }
  }

  /** The output phase, on a cleared buffer. */
  method Open(adapter: Adapter, handle: U32, token: array<Byte>, output: array<Byte>, snapshot: Snapshot)
      returns (status: U32)
    requires token.Length == ID_SIZE && output.Length == PHASE1_CAPACITY && token != output
    requires adapter.Valid() && snapshot.Valid() && snapshot.Value() == NO_PHASES
    modifies adapter`requests, output, Parts(snapshot)
    ensures adapter.initialized ==>
              var request := CommitRequest(handle, token[..], PHASE1_CAPACITY);
              var reply := adapter.native(old(adapter.requests), request);
              var first := Guard(PHASE1_CAPACITY, MAX_COMMIT_OUTPUT, reply, Zeros(PHASE1_CAPACITY));
              && adapter.requests == old(adapter.requests) + [request]
              && Report(status, snapshot.phase1OutputSize, output[..]) == first
              && snapshot.Value() == NO_PHASES.(phase1Status := first.status, phase1Result := ResultOf(reply),
                                               phase1OutputSize := first.size)
    ensures !adapter.initialized ==>
              && adapter.requests == old(adapter.requests) && status == INVALID_PARAMETER
              && snapshot.Value() == NO_PHASES.(phase1Status := INVALID_PARAMETER, phase1OutputSize := PHASE1_CAPACITY)
  {
    ClearedWhole(output[..]);
    SecureClear(output, PHASE1_CAPACITY);
    var size := new Cell(PHASE1_CAPACITY);
    status := Phase(adapter, handle, token, size, output, snapshot.phase1Result);
    snapshot.phase1Status := status;
    snapshot.phase1OutputSize := size.value;
  }

  method BothPhases(adapter: Adapter, handle: U32, token: array<Byte>, output: array<Byte>, snapshot: Snapshot)
      returns (status: U32)
    requires token.Length == ID_SIZE && output.Length == PHASE1_CAPACITY && token != output
    requires adapter.Valid() && snapshot.Valid() && snapshot.Value() == NO_PHASES
    modifies adapter`requests, output, Parts(snapshot)
    ensures Outcome(status, output[..], snapshot.Value(), adapter.requests) ==
            if adapter.initialized then CommitSpec(adapter.native, old(adapter.requests), handle, token[..])
            else RefusedSpec(old(adapter.requests))
  {
    ghost var request1 := CommitRequest(handle, token[..], PHASE1_CAPACITY);
    ghost var request2 := CommitRequest(handle, token[..], 0);
    status := Open(adapter, handle, token, output, snapshot);
    if status != 0 || snapshot.phase1OutputSize == 0 {
      status := Abandon(output, snapshot, status);
    } else {
      snapshot.phase1Complete := true;
      ghost var first := Report(status, snapshot.phase1OutputSize, output[..]);
      status := Close(adapter, handle, token, output, snapshot, first, snapshot.Value());
      assert (old(adapter.requests) + [request1]) + [request2] == old(adapter.requests) + [request1, request2];
    }
  }

  /** `generic_commit_mock_run` */
  method CommitRun(adapter: Adapter?, handle: U32, token: array?<Byte>, output: array?<Byte>, snapshot: Snapshot?)
      returns (status: U32)
    requires token != null ==> token.Length == ID_SIZE
    requires output != null ==> output.Length == PHASE1_CAPACITY
    requires token == null || token != output
    requires snapshot != null ==> snapshot.Valid()
    requires adapter != null ==> adapter.Valid()
    modifies if adapter == null then {} else {adapter}
    modifies output, Parts(snapshot)
    ensures adapter != null ==>
              && adapter.Valid() && adapter.initialized == old(adapter.initialized)
              && adapter.native == old(adapter.native)
    ensures adapter == null || token == null || output == null || snapshot == null ==>
              && status == INVALID_PARAMETER
              && (adapter != null ==> adapter.requests == old(adapter.requests))
              && (output != null ==> output[..] == old(output[..]))
              && (snapshot != null ==> snapshot.Value() == NO_PHASES)
    ensures adapter != null && token != null && output != null && snapshot != null ==>
              Outcome(status, output[..], snapshot.Value(), adapter.requests) ==
              if adapter.initialized then CommitSpec(adapter.native, old(adapter.requests), handle, token[..])
              else RefusedSpec(old(adapter.requests))
  {
    if snapshot != null {
      snapshot.Reset();
    }
    if adapter == null || token == null || output == null || snapshot == null {
      return INVALID_PARAMETER;
    }
    status := BothPhases(adapter, handle, token, output, snapshot);
  }
}
