/** The host enrollment coordinator on values: three features are buffered, the
    fourth creates a template, and any failure clears everything. */
module CoordinatorSpec {
  import opened Prelude
  import opened Buffers
  import opened AbiAdapter

  const TOKEN_RANDOM_SIZE := 4

  datatype Error =
    | NoError
    | InvalidArgument
    | Allocation
    | MockModeRequired
    | IdMismatch
    | FeatureSize
    | TemplateStatus
    | TemplateSize
    | TokenRandom
    | AlreadyTerminal

  datatype Outcome = Rejected | AcceptedMore | TemplateReadyCommitBlocked

  datatype RandomReply = RandomReply(status: int, bytes: seq<Byte>)

  /** The injected callbacks: they may answer anything, given the template calls
      so far. */
  datatype Operations = Operations(template: Native, random: seq<Request> -> RandomReply)

  datatype State = State(
    handle: U32,
    id: seq<Byte>,
    buffered: nat,
    sizes: seq<U32>,
    features: seq<seq<Byte>>,
    templateSize: U32,
    template: seq<Byte>,
    token: seq<Byte>,
    ready: bool,
    terminal: bool,
    lastError: Error,
    lastStatus: U32,
    calls: seq<Request>)

  /** One call of `accept_feature`: the bytes behind its pointers, if any. */
  datatype Offer = Offer(id: Option<seq<Byte>>, feature: Option<seq<Byte>>, size: U32)

  /** The caller's side of the bargain: twenty bytes of ID, and the bytes it
      announces. */
  predicate Backed(o: Offer) {
    && (o.id.Some? ==> |o.id.value| == ID_SIZE)
    && (o.feature.Some? && SizeAllowed(o.size) ==> |o.feature.value| == o.size)
  }

  const NO_SIZES: seq<U32> := [0, 0, 0]

  const NO_FEATURES: seq<seq<Byte>> := [Zeros(FEATURE_CAPACITY), Zeros(FEATURE_CAPACITY), Zeros(FEATURE_CAPACITY)]

  function NewState(handle: U32, id: seq<Byte>): State {
    State(handle, id, 0, NO_SIZES, NO_FEATURES, 0, Zeros(TEMPLATE_CAPACITY), Zeros(ID_SIZE),
          false, false, NoError, 0, [])
  }

  /** `reject` */
  function RejectSpec(s: State, error: Error, terminal: bool): State {
    var s' := s.(lastError := error);
    if terminal && !s.terminal then
      s'.(id := Zeros(ID_SIZE), sizes := NO_SIZES, features := NO_FEATURES, template := Zeros(TEMPLATE_CAPACITY),
          token := Zeros(ID_SIZE), buffered := 0, templateSize := 0, ready := false, terminal := true)
    else s'
  }

  predicate Shaped(s: State) {
    && |s.id| == ID_SIZE && |s.sizes| == |s.features| == BUFFERED_FEATURES && |s.template| == TEMPLATE_CAPACITY
    && |s.token| == ID_SIZE && s.buffered <= BUFFERED_FEATURES
    && (forall k :: 0 <= k < BUFFERED_FEATURES ==> |s.features[k]| == FEATURE_CAPACITY)
    && (!s.terminal ==> forall k :: 0 <= k < s.buffered ==> SizeAllowed(s.sizes[k]))
  }

  function Buffer(s: State, o: Offer): State
    requires Shaped(s) && s.buffered < BUFFERED_FEATURES && o.feature.Some?
  {
    s.(features := s.features[s.buffered := Overwritten(s.features[s.buffered], o.feature.value)],
       sizes := s.sizes[s.buffered := o.size],
       buffered := s.buffered + 1)
  }

  /** The four features of the template call. */
  function TemplateRequest(s: State, o: Offer): Request
    requires Shaped(s) && !s.terminal && s.buffered == BUFFERED_FEATURES && o.feature.Some?
  {
    CreateTemplate(
      s.handle,
      [s.sizes[0], s.sizes[1], s.sizes[2], o.size],
      [s.features[0][..s.sizes[0]], s.features[1][..s.sizes[1]], s.features[2][..s.sizes[2]], o.feature.value],
      TEMPLATE_CAPACITY)
  }

  function Token(random: RandomReply): seq<Byte> {
    Overwritten(Zeros(ID_SIZE),
                if |random.bytes| <= TOKEN_RANDOM_SIZE then random.bytes else random.bytes[..TOKEN_RANDOM_SIZE])
  }

  /** From the fourth feature to the blocked commit. */
  function Create(ops: Operations, s: State, o: Offer): (State, Outcome)
    requires Shaped(s) && !s.terminal && s.buffered == BUFFERED_FEATURES && o.feature.Some?
  {
    var request := TemplateRequest(s, o);
    var reply := ops.template(s.calls, request);
    var called := s.(buffered := 0, templateSize := reply.size, template := Overwritten(s.template, reply.written),
                     calls := s.calls + [request], lastStatus := reply.status);
    if reply.status != 0 then (RejectSpec(called, TemplateStatus, true), Rejected)
    else if reply.size == 0 || reply.size > TEMPLATE_CAPACITY then (RejectSpec(called, TemplateSize, true), Rejected)
    else
      var random := ops.random(called.calls);
      var drawn := called.(token := Token(random));
      if random.status != 0 then (RejectSpec(drawn, TokenRandom, true), Rejected)
      else (drawn.(ready := true, terminal := true), TemplateReadyCommitBlocked)
  }

  function Accept(ops: Operations, s: State, o: Offer): (State, Outcome)
    requires Shaped(s)
  {
    if o.id.None? || o.feature.None? then (RejectSpec(s, InvalidArgument, true), Rejected)
    else if s.terminal then (RejectSpec(s, AlreadyTerminal, true), Rejected)
    else if o.id.value != s.id then (RejectSpec(s, IdMismatch, false), Rejected)
    else if !SizeAllowed(o.size) then (RejectSpec(s, FeatureSize, true), Rejected)
    else
      var s' := s.(lastError := NoError, lastStatus := 0);
      if s.buffered < BUFFERED_FEATURES then (Buffer(s', o), AcceptedMore)
      else Create(ops, s', o)
  }

  lemma AcceptKeepsShape(ops: Operations, s: State, o: Offer)
    requires Shaped(s) && Backed(o)
    ensures Shaped(Accept(ops, s, o).0)
  {
  }

  /** What a caller may ask for; a commit is never permitted. */
  datatype Snapshot = Snapshot(
    buffered: nat,
    ready: bool,
    templateSize: U32,
    commitPermitted: bool,
    terminal: bool,
    lastError: Error,
    lastStatus: U32)

  function SnapshotOf(s: State): Snapshot {
    Snapshot(s.buffered, s.ready, s.templateSize, false, s.terminal, s.lastError, s.lastStatus)
  }

  // ---------------------------------------------------------------------
  // Runs
  // ---------------------------------------------------------------------

  ghost predicate AllBacked(offers: seq<Offer>) {
    forall i :: 0 <= i < |offers| ==> Backed(offers[i])
  }

  function Step(ops: Operations, s: State, o: Offer): (State, Outcome)
    requires Shaped(s) && Backed(o)
    ensures Shaped(Step(ops, s, o).0)
  {
    AcceptKeepsShape(ops, s, o);
    Accept(ops, s, o)
  }

  /** A new coordinator after a list of calls. */
  function After(ops: Operations, handle: U32, id: seq<Byte>, offers: seq<Offer>): (s: State)
    requires |id| == ID_SIZE && AllBacked(offers)
    ensures Shaped(s)
  {
    if offers == [] then NewState(handle, id)
    else Step(ops, After(ops, handle, id, offers[..|offers| - 1]), offers[|offers| - 1]).0
  }

  /** What the calls returned. */
  function Outcomes(ops: Operations, handle: U32, id: seq<Byte>, offers: seq<Offer>): seq<Outcome>
    requires |id| == ID_SIZE && AllBacked(offers)
  {
    if offers == [] then []
    else
      var before := offers[..|offers| - 1];
      Outcomes(ops, handle, id, before) + [Step(ops, After(ops, handle, id, before), offers[|offers| - 1]).1]
  }
}
