/** The coordinator with the adapter as its template callback, over an arbitrary
    native function. */
module CoordinatorOverAdapter {
  import opened Prelude
  import opened Buffers
  import opened AbiAdapter
  import opened CoordinatorSpec
  import opened CoordinatorRuns

  /** The adapter's own checks of a template call. */
  predicate Passes(request: Request) {
    && request.CreateTemplate?
    && |request.sizes| == |request.features| == TEMPLATE_FEATURES
    && (forall i :: 0 <= i < TEMPLATE_FEATURES ==>
          SizeAllowed(request.sizes[i]) && |request.features[i]| == request.sizes[i])
    && 0 < request.capacity <= TEMPLATE_CAPACITY
  }

  /** A native reply as the adapter passes it on: an overrun comes back as an
      error of size zero, over a zeroed buffer. */
  function PassedOn(capacity: U32, reply: Reply): Reply {
    if reply.size > capacity then Reply(INVALID_PARAMETER, 0, Zeros(capacity), None) else reply
  }

  /** `create_template` of an adapter, as the coordinator's callback. */
  function AdapterTemplate(initialized: bool, native: Native): Native {
    (calls: seq<Request>, request: Request) =>
      if initialized && Passes(request) then PassedOn(request.capacity, native(calls, request))
      else Reply(INVALID_PARAMETER, request.capacity, [], None)
  }

  /** The adapter's method leaves in the coordinator's buffer what the callback's
      reply writes there. */
  lemma PassedOnIsGuard(capacity: U32, reply: Reply, output: seq<Byte>)
    requires |output| == capacity <= TEMPLATE_CAPACITY
    ensures var passed := PassedOn(capacity, reply);
            Guard(capacity, TEMPLATE_CAPACITY, reply, output) ==
            Report(passed.status, passed.size, Overwritten(output, passed.written))
  {
    GuardBounds(capacity, TEMPLATE_CAPACITY, reply, output);
    assert output[capacity..] == [];
  }

  /** The adapter called in place is that callback. */
  method CallAdapter(adapter: Adapter, handle: U32, sizes: seq<U32>, features: seq<array?<Byte>>,
                     size: Cell, output: array<Byte>)
      returns (status: U32)
    requires adapter.Valid() && |sizes| == |features| == TEMPLATE_FEATURES
    requires FeaturesValid(sizes, features) && Readable(sizes, features)
    requires size.value == TEMPLATE_CAPACITY == output.Length
    modifies adapter`requests, size, output
    ensures var request := CreateTemplate(handle, sizes, old(FeatureBytes(sizes, features)), TEMPLATE_CAPACITY);
            var reply := AdapterTemplate(adapter.initialized, adapter.native)(old(adapter.requests), request);
            && status == reply.status && size.value == reply.size
            && output[..] == Overwritten(old(output[..]), reply.written)
            && adapter.requests == old(adapter.requests) + if adapter.initialized then [request] else []
  {
    ghost var before := output[..];
    ghost var request := CreateTemplate(handle, sizes, FeatureBytes(sizes, features), TEMPLATE_CAPACITY);
    PassedOnIsGuard(TEMPLATE_CAPACITY, adapter.native(adapter.requests, request), before);
    assert Passes(request);
    status := adapter.CreateTemplate(handle, Some(sizes), Some(features), size, output);
  }

  function OverAdapter(native: Native, random: seq<Request> -> RandomReply): Operations {
    Operations(AdapterTemplate(true, native), random)
  }

  /** What the coordinator asks of the adapter always passes its checks: each of
      its template calls, of which there is at most one, is answered by the native
      function for exactly that call. */
  lemma NativeSeesEveryCall(native: Native, random: seq<Request> -> RandomReply,
                            handle: U32, id: seq<Byte>, offers: seq<Offer>)
    requires |id| == ID_SIZE && AllBacked(offers)
    ensures var ops := OverAdapter(native, random);
            var calls := After(ops, handle, id, offers).calls;
            && |calls| <= 1
            && forall i :: 0 <= i < |calls| ==>
                 && Passes(calls[i]) && calls[i].capacity == TEMPLATE_CAPACITY
                 && ops.template(calls[..i], calls[i]) == PassedOn(TEMPLATE_CAPACITY, native(calls[..i], calls[i]))
  {
    var ops := OverAdapter(native, random);
    TemplateCallsExact(ops, handle, id, offers);
    RelevantBacked(id, offers);
    var relevant := Relevant(id, offers);
    if |relevant| >= TEMPLATE_FEATURES && AllGood(id, relevant[..TEMPLATE_FEATURES]) {
      RequestPasses(handle, id, relevant[..TEMPLATE_FEATURES]);
    }
  }

  /** Only the call that creates the template depends on the callback. */
  lemma CallbackUnused(ops: Operations, ops': Operations, s: State, o: Offer)
    requires Shaped(s) && (s.terminal || s.buffered < BUFFERED_FEATURES || !Good(s.id, o))
    ensures Accept(ops, s, o) == Accept(ops', s, o)
  {
  }

  lemma CallbackAgrees(ops: Operations, ops': Operations, s: State, o: Offer)
    requires Shaped(s) && !s.terminal && s.buffered == BUFFERED_FEATURES && Good(s.id, o)
    requires ops.random == ops'.random
    requires ops.template(s.calls, TemplateRequest(s, o)) == ops'.template(s.calls, TemplateRequest(s, o))
    ensures Accept(ops, s, o) == Accept(ops', s, o)
  {
  }

  lemma CallsGrow(handle: U32, id: seq<Byte>, relevant: seq<Offer>, o: Offer)
    ensures CallsFor(handle, id, relevant) != [] ==>
              CallsFor(handle, id, relevant + [o]) == CallsFor(handle, id, relevant)
  {
    if |relevant| > BUFFERED_FEATURES {
      CallsSettled(handle, id, relevant, o);
    }
  }

  /** A run depends on the native function through its answer to the template
      call alone: two native functions that agree on the call of `CallsFor` - on
      nothing at all, if there is none - give the same run. */
  lemma {:induction false} OnlyTheAnswerMatters(native: Native, native': Native, random: seq<Request> -> RandomReply,
                                                handle: U32, id: seq<Byte>, offers: seq<Offer>)
    requires |id| == ID_SIZE && AllBacked(offers)
    requires forall r :: r in CallsFor(handle, id, Relevant(id, offers)) ==> native([], r) == native'([], r)
    ensures After(OverAdapter(native, random), handle, id, offers) ==
            After(OverAdapter(native', random), handle, id, offers)
  {
    if offers != [] {
      var before, o := offers[..|offers| - 1], offers[|offers| - 1];
      assert offers == before + [o];
      var relevant := Relevant(id, before);
      RelevantSnoc(id, before, o);
      CallsGrow(handle, id, relevant, o);
      OnlyTheAnswerMatters(native, native', random, handle, id, before);
      SameNextStep(native, native', random, handle, id, before, o);
    }
  }

  lemma SameNextStep(native: Native, native': Native, random: seq<Request> -> RandomReply,
                     handle: U32, id: seq<Byte>, before: seq<Offer>, o: Offer)
    requires |id| == ID_SIZE && AllBacked(before) && Backed(o)
    requires forall r :: r in CallsFor(handle, id, Relevant(id, before + [o])) ==> native([], r) == native'([], r)
    ensures var ops, ops' := OverAdapter(native, random), OverAdapter(native', random);
            Accept(ops, After(ops, handle, id, before), o) == Accept(ops', After(ops, handle, id, before), o)
  {
    var ops, ops' := OverAdapter(native, random), OverAdapter(native', random);
    var s, relevant := After(ops, handle, id, before), Relevant(id, before);
    RunTracks(ops, handle, id, before);
    RelevantSnoc(id, before, o);
    if !s.terminal && s.buffered == BUFFERED_FEATURES && Good(s.id, o) {
      var four := relevant + [o];
      RelevantBacked(id, before);
      FourthRequest(handle, id, relevant, s, o);
      assert four[..TEMPLATE_FEATURES] == four;
      assert RequestFor(handle, four) in CallsFor(handle, id, four);
      CallbackAgrees(ops, ops', s, o);
    } else {
      CallbackUnused(ops, ops', s, o);
    }
  }

  lemma RequestPasses(handle: U32, id: seq<Byte>, four: seq<Offer>)
    requires |four| == TEMPLATE_FEATURES && AllGood(id, four) && AllBacked(four)
    ensures Passes(RequestFor(handle, four))
  {
  }

  /** The state in which the template callback has been called with a reply. */
  lemma FourthOutcome(ops: Operations, s: State, o: Offer)
    requires Shaped(s) && !s.terminal && s.buffered == BUFFERED_FEATURES && o.feature.Some?
    ensures var reply := ops.template(s.calls, TemplateRequest(s, o));
            var (s', outcome) := Create(ops, s, o);
            && s'.lastStatus == reply.status
            && (s'.lastError == TemplateStatus <==> reply.status != 0)
            && (s'.lastError == TemplateSize <==> reply.status == 0 && !(0 < reply.size <= TEMPLATE_CAPACITY))
            && (s'.ready ==> s'.templateSize == reply.size && s'.template == Overwritten(s.template, reply.written))
            && (s'.ready <==> outcome == TemplateReadyCommitBlocked)
    requires !s.ready && s.lastError == NoError
  {
  }

  /** The call that completes the four features, over the adapter.  The native
      function is called with exactly those features; its overrun and its error
      status end the run with a template-status error, the overrun as 0x47; and
      the template-size error occurs exactly when it claims success for nothing.
      Otherwise only the random bytes can still fail. */
  lemma FourthOverAdapter(native: Native, random: seq<Request> -> RandomReply,
                          handle: U32, id: seq<Byte>, before: seq<Offer>, o: Offer)
    requires |id| == ID_SIZE && AllBacked(before) && Backed(o)
    requires |Relevant(id, before)| == BUFFERED_FEATURES && AllGood(id, Relevant(id, before)) && Good(id, o)
    ensures AllBacked(before + [o])
    ensures var ops := OverAdapter(native, random);
            var request := RequestFor(handle, Relevant(id, before) + [o]);
            var reply := native([], request);
            var s := After(ops, handle, id, before + [o]);
            && s.calls == [request] && Passes(request) && s.terminal
            && s.lastStatus == (if reply.size > TEMPLATE_CAPACITY then INVALID_PARAMETER else reply.status)
            && (s.lastError == TemplateStatus <==> reply.size > TEMPLATE_CAPACITY || reply.status != 0)
            && (s.lastError == TemplateSize <==> reply.status == 0 && reply.size == 0)
            && (s.ready <==> reply.status == 0 && 0 < reply.size <= TEMPLATE_CAPACITY && random([request]).status == 0)
            && (s.ready ==> s.templateSize == reply.size
                            && s.template == Overwritten(Zeros(TEMPLATE_CAPACITY), reply.written)
                            && s.token == Token(random([request])))
  {
    var ops := OverAdapter(native, random);
    var good := Relevant(id, before);
    var s := After(ops, handle, id, before);
    RunTracks(ops, handle, id, before);
    RelevantBacked(id, before);
    FourthCreates(ops, handle, id, good, s, o);
    FourthGood(id, good, o);
    RequestPasses(handle, id, good + [o]);
    FourthOutcome(ops, s.(lastError := NoError, lastStatus := 0), o);
    assert (before + [o])[..|before|] == before;
  }

  lemma FourthGood(id: seq<Byte>, good: seq<Offer>, o: Offer)
    requires AllGood(id, good) && Good(id, o) && AllBacked(good) && Backed(o)
    ensures AllGood(id, good + [o]) && AllBacked(good + [o])
  {
  }
}
