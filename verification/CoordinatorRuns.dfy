/** What whole runs of the coordinator guarantee, for every callback and every
    list of calls. */
module CoordinatorRuns {
  import opened Prelude
  import opened Buffers
  import opened AbiAdapter
  import opened CoordinatorSpec

  /** A well-formed call for another enrollment. */
  predicate Mismatch(id: seq<Byte>, o: Offer) {
    o.id.Some? && o.feature.Some? && o.id.value != id
  }

  /** A feature the enrollment can use. */
  predicate Good(id: seq<Byte>, o: Offer) {
    o.id == Some(id) && o.feature.Some? && SizeAllowed(o.size)
  }

  function Relevant(id: seq<Byte>, offers: seq<Offer>): seq<Offer> {
    Filter(offers, (o: Offer) => !Mismatch(id, o))
  }

  ghost predicate AllGood(id: seq<Byte>, offers: seq<Offer>) {
    forall k :: 0 <= k < |offers| ==> Good(id, offers[k])
  }

  /** The template call for four features. */
  function RequestFor(handle: U32, four: seq<Offer>): Request
    requires |four| == TEMPLATE_FEATURES && forall k :: 0 <= k < TEMPLATE_FEATURES ==> four[k].feature.Some?
  {
    CreateTemplate(handle, [four[0].size, four[1].size, four[2].size, four[3].size],
                   [four[0].feature.value, four[1].feature.value, four[2].feature.value, four[3].feature.value],
                   TEMPLATE_CAPACITY)
  }

  /** The template calls a run makes: one for its first four relevant features,
      if all four are good, or none. */
  ghost function CallsFor(handle: U32, id: seq<Byte>, relevant: seq<Offer>): seq<Request> {
    if |relevant| >= TEMPLATE_FEATURES && AllGood(id, relevant[..TEMPLATE_FEATURES]) then
      [RequestFor(handle, relevant[..TEMPLATE_FEATURES])]
    else []
  }

  // ---------------------------------------------------------------------
  // One call
  // ---------------------------------------------------------------------

  /** A live coordinator holds exactly the features it was given, in order. */
  ghost predicate Collecting(handle: U32, id: seq<Byte>, good: seq<Offer>, s: State)
    requires Shaped(s)
  {
    && |good| <= BUFFERED_FEATURES && AllGood(id, good)
    && s.handle == handle && s.id == id && s.buffered == |good| && s.calls == []
    && !s.ready && !s.terminal && s.templateSize == 0
    && s.template == Zeros(TEMPLATE_CAPACITY) && s.token == Zeros(ID_SIZE)
    && (forall k :: 0 <= k < BUFFERED_FEATURES ==> SlotHolds(s, k, good))
  }

  ghost predicate SlotHolds(s: State, k: nat, good: seq<Offer>)
    requires Shaped(s) && k < BUFFERED_FEATURES
  {
    if k < |good| && good[k].feature.Some? then
      && s.sizes[k] == good[k].size
      && s.features[k] == Overwritten(Zeros(FEATURE_CAPACITY), good[k].feature.value)
    else s.sizes[k] == 0 && s.features[k] == Zeros(FEATURE_CAPACITY)
  }

  lemma TerminalIgnores(ops: Operations, s: State, o: Offer)
    requires Shaped(s) && s.terminal
    ensures var (s', outcome) := Accept(ops, s, o);
            s' == s.(lastError := if o.id.None? || o.feature.None? then InvalidArgument else AlreadyTerminal)
            && outcome == Rejected
  {
  }

  lemma MismatchIgnored(ops: Operations, s: State, o: Offer)
    requires Shaped(s) && !s.terminal && Mismatch(s.id, o)
    ensures Accept(ops, s, o) == (s.(lastError := IdMismatch), Rejected)
  {
  }

  lemma GoodIsBuffered(ops: Operations, handle: U32, id: seq<Byte>, good: seq<Offer>, s: State, o: Offer)
    requires Shaped(s) && Collecting(handle, id, good, s) && Good(id, o) && Backed(o) && |good| < BUFFERED_FEATURES
    ensures var (s', outcome) := Accept(ops, s, o);
            && outcome == AcceptedMore && Shaped(s') && Collecting(handle, id, good + [o], s')
            && s'.lastError == NoError && s'.lastStatus == 0
  {
    AcceptKeepsShape(ops, s, o);
    var s' := Accept(ops, s, o).0;
    forall k | 0 <= k < BUFFERED_FEATURES ensures SlotHolds(s', k, good + [o]) {
      assert SlotHolds(s, k, good);
    }
  }

  /** The fourth call hands over the bytes of all four calls. */
  lemma SlotRead(s: State, k: nat, good: seq<Offer>)
    requires Shaped(s) && k < |good| <= BUFFERED_FEATURES && SlotHolds(s, k, good)
    requires Backed(good[k]) && good[k].feature.Some? && SizeAllowed(good[k].size)
    ensures s.sizes[k] == good[k].size && s.features[k][..s.sizes[k]] == good[k].feature.value
  {
  }

  lemma FourthRequest(handle: U32, id: seq<Byte>, good: seq<Offer>, s: State, o: Offer)
    requires Shaped(s) && Collecting(handle, id, good, s) && |good| == BUFFERED_FEATURES
    requires Good(id, o) && AllBacked(good)
    ensures TemplateRequest(s, o) == RequestFor(handle, good + [o])
  {
    SlotRead(s, 0, good);
    SlotRead(s, 1, good);
    SlotRead(s, 2, good);
  }

  lemma FourthCreates(ops: Operations, handle: U32, id: seq<Byte>, good: seq<Offer>, s: State, o: Offer)
    requires Shaped(s) && Collecting(handle, id, good, s) && |good| == BUFFERED_FEATURES
    requires Good(id, o) && Backed(o) && AllBacked(good)
    ensures var s1 := s.(lastError := NoError, lastStatus := 0);
            && Shaped(s1) && Accept(ops, s, o) == Create(ops, s1, o)
            && TemplateRequest(s1, o) == RequestFor(handle, good + [o])
            && Accept(ops, s, o).0.terminal && Accept(ops, s, o).0.calls == [RequestFor(handle, good + [o])]
  {
    var s1 := s.(lastError := NoError, lastStatus := 0);
    forall k | 0 <= k < BUFFERED_FEATURES ensures SlotHolds(s1, k, good) {
      assert SlotHolds(s, k, good);
    }
    FourthRequest(handle, id, good, s1, o);
  }

  lemma BadEnds(ops: Operations, handle: U32, id: seq<Byte>, good: seq<Offer>, s: State, o: Offer)
    requires Shaped(s) && Collecting(handle, id, good, s) && !Mismatch(id, o) && !Good(id, o)
    ensures var (s', outcome) := Accept(ops, s, o); s'.terminal && s'.calls == [] && outcome == Rejected && !s'.ready
  {
  }

  /** Which check fails first: missing pointers, then the end of the run, then
      the ID, then the size; only a usable feature of a live enrollment gets past
      all four, and only a mismatch leaves a live enrollment alive. */
  lemma RejectionsExact(ops: Operations, s: State, o: Offer)
    requires Shaped(s) && FailClosed(s)
    ensures var (s', outcome) := Accept(ops, s, o);
            var missing, wrong := o.id.None? || o.feature.None?, Mismatch(s.id, o);
            && (s'.lastError == InvalidArgument <==> missing)
            && (s'.lastError == AlreadyTerminal <==> !missing && s.terminal)
            && (s'.lastError == IdMismatch <==> !missing && !s.terminal && wrong)
            && (s'.lastError == FeatureSize <==> !missing && !s.terminal && !wrong && !SizeAllowed(o.size))
            && (s'.lastError == NoError <==> outcome != Rejected)
            && (!s'.terminal <==> !s.terminal && (wrong || (Good(s.id, o) && s.buffered < BUFFERED_FEATURES)))
  {
  }

  // ---------------------------------------------------------------------
  // The calls of a run
  // ---------------------------------------------------------------------

  /** What a state says about the relevant calls that led to it. */
  ghost predicate Tracks(handle: U32, id: seq<Byte>, relevant: seq<Offer>, s: State)
    requires Shaped(s)
  {
    && s.calls == CallsFor(handle, id, relevant)
    && (if |relevant| <= BUFFERED_FEATURES && AllGood(id, relevant) then Collecting(handle, id, relevant, s)
        else s.terminal)
  }

  lemma CallsSettled(handle: U32, id: seq<Byte>, relevant: seq<Offer>, o: Offer)
    requires |relevant| > BUFFERED_FEATURES || !AllGood(id, relevant)
    ensures CallsFor(handle, id, relevant + [o]) == CallsFor(handle, id, relevant)
    ensures |relevant + [o]| > BUFFERED_FEATURES || !AllGood(id, relevant + [o])
  {
    var more := relevant + [o];
    if |relevant| >= TEMPLATE_FEATURES {
      assert more[..TEMPLATE_FEATURES] == relevant[..TEMPLATE_FEATURES];
    } else {
      var k :| 0 <= k < |relevant| && !Good(id, relevant[k]);
      assert more[k] == relevant[k];
      assert |more| >= TEMPLATE_FEATURES ==> more[..TEMPLATE_FEATURES][k] == relevant[k];
    }
  }

  lemma BadIsNotGood(id: seq<Byte>, relevant: seq<Offer>, o: Offer)
    requires !Good(id, o)
    ensures !AllGood(id, relevant + [o])
  {
    assert (relevant + [o])[|relevant|] == o;
  }

  lemma RelevantTracks(ops: Operations, handle: U32, id: seq<Byte>, relevant: seq<Offer>, s: State, o: Offer)
    requires Shaped(s) && Tracks(handle, id, relevant, s) && AllBacked(relevant) && Backed(o) && !Mismatch(id, o)
    ensures Shaped(Accept(ops, s, o).0) && Tracks(handle, id, relevant + [o], Accept(ops, s, o).0)
  {
    AcceptKeepsShape(ops, s, o);
    var more := relevant + [o];
    if |relevant| > BUFFERED_FEATURES || !AllGood(id, relevant) {
      TerminalIgnores(ops, s, o);
      CallsSettled(handle, id, relevant, o);
    } else if !Good(id, o) {
      BadEnds(ops, handle, id, relevant, s, o);
      BadIsNotGood(id, relevant, o);
      assert |more| == TEMPLATE_FEATURES ==> more[..TEMPLATE_FEATURES] == more;
    } else if |relevant| < BUFFERED_FEATURES {
      GoodIsBuffered(ops, handle, id, relevant, s, o);
    } else {
      FourthCreates(ops, handle, id, relevant, s, o);
      assert more[..TEMPLATE_FEATURES] == more;
    }
  }

  lemma MismatchTracks(ops: Operations, handle: U32, id: seq<Byte>, relevant: seq<Offer>, s: State, o: Offer)
    requires Shaped(s) && Tracks(handle, id, relevant, s) && Mismatch(id, o)
    ensures var s' := Accept(ops, s, o).0; s' == s.(lastError := s'.lastError) && Tracks(handle, id, relevant, s')
  {
    if s.terminal {
      TerminalIgnores(ops, s, o);
    } else {
      MismatchIgnored(ops, s, o);
    }
    ErrorKeepsTracks(handle, id, relevant, s, Accept(ops, s, o).0.lastError);
  }

  lemma ErrorKeepsTracks(handle: U32, id: seq<Byte>, relevant: seq<Offer>, s: State, e: Error)
    requires Shaped(s) && Tracks(handle, id, relevant, s)
    ensures Shaped(s.(lastError := e)) && Tracks(handle, id, relevant, s.(lastError := e))
  {
    var s' := s.(lastError := e);
    if |relevant| <= BUFFERED_FEATURES && AllGood(id, relevant) {
      forall k | 0 <= k < BUFFERED_FEATURES ensures SlotHolds(s', k, relevant) {
        assert SlotHolds(s, k, relevant);
      }
    }
  }

  lemma RelevantSnoc(id: seq<Byte>, offers: seq<Offer>, o: Offer)
    ensures Relevant(id, offers + [o]) == if Mismatch(id, o) then Relevant(id, offers) else Relevant(id, offers) + [o]
  {
    FilterAppend(offers, [o], (o: Offer) => !Mismatch(id, o));
  }

  lemma RelevantBacked(id: seq<Byte>, offers: seq<Offer>)
    requires AllBacked(offers)
    ensures AllBacked(Relevant(id, offers))
  {
    FilterMembers(offers, (o: Offer) => !Mismatch(id, o));
    var relevant := Relevant(id, offers);
    forall i | 0 <= i < |relevant| ensures Backed(relevant[i]) {
      assert relevant[i] in offers;
    }
  }

  lemma NewTracks(handle: U32, id: seq<Byte>)
    requires |id| == ID_SIZE
    ensures Tracks(handle, id, [], NewState(handle, id))
  {
  }

  lemma {:induction false} RunTracks(ops: Operations, handle: U32, id: seq<Byte>, offers: seq<Offer>)
    requires |id| == ID_SIZE && AllBacked(offers)
    ensures Tracks(handle, id, Relevant(id, offers), After(ops, handle, id, offers))
  {
    if offers == [] {
      NewTracks(handle, id);
    } else {
      var before, o := offers[..|offers| - 1], offers[|offers| - 1];
      assert offers == before + [o];
      RunTracks(ops, handle, id, before);
      RelevantSnoc(id, before, o);
      RelevantBacked(id, before);
      if Mismatch(id, o) {
        MismatchTracks(ops, handle, id, Relevant(id, before), After(ops, handle, id, before), o);
      } else {
        RelevantTracks(ops, handle, id, Relevant(id, before), After(ops, handle, id, before), o);
      }
    }
  }

  /** Over any run the template callback is called at most once: for the first
      four calls that do not belong to another enrollment, if all four bring a
      usable feature, with their bytes in order; and the run is over exactly
      when there have been four such calls or an unusable one. */
  lemma TemplateCallsExact(ops: Operations, handle: U32, id: seq<Byte>, offers: seq<Offer>)
    requires |id| == ID_SIZE && AllBacked(offers)
    ensures var s, relevant := After(ops, handle, id, offers), Relevant(id, offers);
            && s.calls == CallsFor(handle, id, relevant) && |s.calls| <= 1
            && (s.terminal <==> |relevant| > BUFFERED_FEATURES || !AllGood(id, relevant))
            && (!s.terminal ==> s.buffered == |relevant|)
  {
    RunTracks(ops, handle, id, offers);
  }

  // ---------------------------------------------------------------------
  // Calls for another enrollment
  // ---------------------------------------------------------------------

  /** The last error has no influence. */
  lemma ErrorIrrelevant(ops: Operations, s: State, e: Error, o: Offer)
    requires Shaped(s)
    ensures Accept(ops, s.(lastError := e), o) == Accept(ops, s, o)
  {
  }

  /** Calls for another enrollment can be deleted from a run: nothing but the
      last error changes, and not even that unless the last call is deleted. */
  lemma {:induction false} MismatchesDeletable(ops: Operations, handle: U32, id: seq<Byte>, offers: seq<Offer>)
    requires |id| == ID_SIZE && AllBacked(offers)
    ensures AllBacked(Relevant(id, offers))
    ensures var s, s' := After(ops, handle, id, offers), After(ops, handle, id, Relevant(id, offers));
            && s' == s.(lastError := s'.lastError)
            && (offers == [] || !Mismatch(id, offers[|offers| - 1]) ==> s' == s)
  {
    RelevantBacked(id, offers);
    if offers != [] {
      var before, o := offers[..|offers| - 1], offers[|offers| - 1];
      assert offers == before + [o];
      MismatchesDeletable(ops, handle, id, before);
      RelevantSnoc(id, before, o);
      var relevant := Relevant(id, before);
      var s, s' := After(ops, handle, id, before), After(ops, handle, id, relevant);
      if Mismatch(id, o) {
        RunTracks(ops, handle, id, before);
        MismatchTracks(ops, handle, id, relevant, s, o);
      } else {
        assert (relevant + [o])[..|relevant|] == relevant;
        ErrorIrrelevant(ops, s, s'.lastError, o);
      }
    }
  }

  // ---------------------------------------------------------------------
  // Fail closed
  // ---------------------------------------------------------------------

  predicate FailClosed(s: State) {
    && (s.terminal && !s.ready ==>
          && s.id == Zeros(ID_SIZE) && s.sizes == NO_SIZES && s.features == NO_FEATURES
          && s.template == Zeros(TEMPLATE_CAPACITY) && s.token == Zeros(ID_SIZE)
          && s.buffered == 0 && s.templateSize == 0)
    && (s.ready ==>
          && s.terminal && s.buffered == 0 && 1 <= s.templateSize <= TEMPLATE_CAPACITY
          && |s.token| == ID_SIZE && s.token[TOKEN_RANDOM_SIZE..] == Zeros(ID_SIZE - TOKEN_RANDOM_SIZE))
  }

  lemma TokenTail(random: RandomReply)
    ensures |Token(random)| == ID_SIZE
    ensures Token(random)[TOKEN_RANDOM_SIZE..] == Zeros(ID_SIZE - TOKEN_RANDOM_SIZE)
    ensures |random.bytes| >= TOKEN_RANDOM_SIZE ==>
              Token(random)[..TOKEN_RANDOM_SIZE] == random.bytes[..TOKEN_RANDOM_SIZE]
  {
    var written := if |random.bytes| <= TOKEN_RANDOM_SIZE then random.bytes else random.bytes[..TOKEN_RANDOM_SIZE];
    OverwrittenAt(Zeros(ID_SIZE), written);
  }

  lemma AcceptFailsClosed(ops: Operations, s: State, o: Offer)
    requires Shaped(s) && FailClosed(s)
    ensures FailClosed(Accept(ops, s, o).0)
  {
  }

  /** In every state a run can reach: over without a template means that nothing
      is left of ID, features, template and token; a template that is ready has
      a size in range and a token of four callback bytes and sixteen zeros. */
  lemma {:induction false} AlwaysFailClosed(ops: Operations, handle: U32, id: seq<Byte>, offers: seq<Offer>)
    requires |id| == ID_SIZE && AllBacked(offers)
    ensures FailClosed(After(ops, handle, id, offers))
  {
    if offers != [] {
      AlwaysFailClosed(ops, handle, id, offers[..|offers| - 1]);
      AcceptFailsClosed(ops, After(ops, handle, id, offers[..|offers| - 1]), offers[|offers| - 1]);
    }
  }

  // ---------------------------------------------------------------------
  // Readiness
  // ---------------------------------------------------------------------

  predicate IsReady(o: Outcome) {
    o == TemplateReadyCommitBlocked
  }

  lemma ReadyReported(ops: Operations, s: State, o: Offer)
    requires Shaped(s) && FailClosed(s)
    ensures var (s', outcome) := Accept(ops, s, o);
            && (IsReady(outcome) <==> s'.ready && !s.ready)
            && (s.ready ==> s' == s.(lastError := s'.lastError))
            && (IsReady(outcome) ==> !s.terminal && s.buffered == BUFFERED_FEATURES && Good(s.id, o))
  {
  }

  lemma FilterSnoc(outcomes: seq<Outcome>, o: Outcome)
    ensures |Filter(outcomes + [o], IsReady)| == |Filter(outcomes, IsReady)| + if IsReady(o) then 1 else 0
  {
    FilterAppend(outcomes, [o], IsReady);
    assert [o][1..] == [];
  }

  /** A run reports its template at most once: exactly once if it ends ready. */
  lemma {:induction false} ReadyOnce(ops: Operations, handle: U32, id: seq<Byte>, offers: seq<Offer>)
    requires |id| == ID_SIZE && AllBacked(offers)
    ensures |Filter(Outcomes(ops, handle, id, offers), IsReady)| ==
            if After(ops, handle, id, offers).ready then 1 else 0
  {
    if offers != [] {
      var before, o := offers[..|offers| - 1], offers[|offers| - 1];
      ReadyOnce(ops, handle, id, before);
      AlwaysFailClosed(ops, handle, id, before);
      ReadyReported(ops, After(ops, handle, id, before), o);
      FilterSnoc(Outcomes(ops, handle, id, before), Step(ops, After(ops, handle, id, before), o).1);
    }
  }

  /** After the end of a run, nothing but the last error ever changes. */
  lemma {:induction false} TerminalForGood(ops: Operations, handle: U32, id: seq<Byte>,
                                           offers: seq<Offer>, more: seq<Offer>)
    requires |id| == ID_SIZE && AllBacked(offers) && AllBacked(more) && AllBacked(offers + more)
    requires After(ops, handle, id, offers).terminal
    ensures var s, s' := After(ops, handle, id, offers), After(ops, handle, id, offers + more);
            s' == s.(lastError := s'.lastError)
  {
    if more == [] {
      assert offers + more == offers;
    } else {
      var before := more[..|more| - 1];
      assert (offers + more)[..|offers + more| - 1] == offers + before;
      TerminalForGood(ops, handle, id, offers, before);
      TerminalIgnores(ops, After(ops, handle, id, offers + before), more[|more| - 1]);
    }
  }

  /** A snapshot shows a template size exactly when a template is ready, and
      buffered features only before the end. */
  lemma SnapshotsConsistent(ops: Operations, handle: U32, id: seq<Byte>, offers: seq<Offer>)
    requires |id| == ID_SIZE && AllBacked(offers)
    ensures var shown := SnapshotOf(After(ops, handle, id, offers));
            && (shown.templateSize > 0 <==> shown.ready) && (shown.ready ==> shown.terminal)
            && (shown.buffered > 0 ==> !shown.terminal)
            && (!shown.terminal ==> shown.buffered == |Relevant(id, offers)|)
  {
    RunTracks(ops, handle, id, offers);
    AlwaysFailClosed(ops, handle, id, offers);
  }

  // ---------------------------------------------------------------------
  // The last error
  // ---------------------------------------------------------------------

  /** A run can still accept: fewer than four relevant calls, all of them good. */
  ghost predicate Live(id: seq<Byte>, offers: seq<Offer>) {
    |Relevant(id, offers)| <= BUFFERED_FEATURES && AllGood(id, Relevant(id, offers))
  }

  /** The last error of a whole run, from its list of calls alone: it depends on
      the last call and on whether the calls before it left the run alive; the
      other three errors come from the fourth good call. */
  lemma LastErrorExact(ops: Operations, handle: U32, id: seq<Byte>, before: seq<Offer>, o: Offer)
    requires |id| == ID_SIZE && AllBacked(before) && Backed(o)
    ensures AllBacked(before + [o])
    ensures var error := After(ops, handle, id, before + [o]).lastError;
            var missing := o.id.None? || o.feature.None?;
            && (error == InvalidArgument <==> missing)
            && (error == AlreadyTerminal <==> !missing && !Live(id, before))
            && (error == IdMismatch <==> Live(id, before) && Mismatch(id, o))
            && (error == FeatureSize <==>
                  Live(id, before) && o.id == Some(id) && o.feature.Some? && !SizeAllowed(o.size))
            && (error in {TemplateStatus, TemplateSize, TokenRandom} ==>
                  Live(id, before) && Good(id, o) && |Relevant(id, before)| == BUFFERED_FEATURES)
            && (Live(id, before) && Good(id, o) && |Relevant(id, before)| < BUFFERED_FEATURES ==> error == NoError)
  {
    RunTracks(ops, handle, id, before);
    AlwaysFailClosed(ops, handle, id, before);
    RejectionsExact(ops, After(ops, handle, id, before), o);
    assert (before + [o])[..|before|] == before;
  }
}
