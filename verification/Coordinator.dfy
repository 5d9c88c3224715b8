/** The coordinator as the C code keeps it: one structure whose buffers are
    filled and cleared in place. */
module Coordinator {
  import opened Prelude
  import opened Buffers
  import opened AbiAdapter
  import opened CoordinatorSpec

  /** The bytes behind a caller's pointers at the time of the call. */
  function ReadOffer(enrollmentId: array?<Byte>, feature: array?<Byte>, size: U32): Offer
    reads enrollmentId, feature
    requires enrollmentId != null ==> enrollmentId.Length == ID_SIZE
    requires feature != null && SizeAllowed(size) ==> size <= feature.Length
  {
    Offer(if enrollmentId == null then None else Some(enrollmentId[..]),
          if feature == null then None else Some(if SizeAllowed(size) then feature[..size] else []),
          size)
  }

  class Enrollment {
    const handle: U32
    const operations: Operations
    const id: array<Byte>
    var buffered: nat
    const sizes: array<U32>
    const features: array2<Byte>
    var templateSize: U32
    const template: array<Byte>
    const token: array<Byte>
    var ready: bool
    var terminal: bool
    var lastError: Error
    var lastStatus: U32
    /** Every template call so far. */
    var calls: seq<Request>

    ghost const Repr: set<object> := {this, id, sizes, features, template, token}

    /** The structure itself: sizes of its buffers, all of them its own. */
    predicate Layout()
      reads this
    {
      && id.Length == ID_SIZE && token.Length == ID_SIZE && template.Length == TEMPLATE_CAPACITY
      && sizes.Length == BUFFERED_FEATURES
      && features.Length0 == BUFFERED_FEATURES && features.Length1 == FEATURE_CAPACITY
      && id != token && id != template && token != template
      && buffered <= BUFFERED_FEATURES
    }

    predicate Valid()
      reads Repr
    {
      Layout() && (!terminal ==> forall k :: 0 <= k < buffered ==> SizeAllowed(sizes[k]))
    }

    function Row(k: nat): (row: seq<Byte>)
      requires k < features.Length0
      reads features
      ensures |row| == features.Length1
    {
      seq(features.Length1, j requires 0 <= j < features.Length1 reads features => features[k, j])
    }

    function Model(): State
      requires Layout()
      reads Repr
    {
      State(handle, id[..], buffered, sizes[..], [Row(0), Row(1), Row(2)], templateSize, template[..], token[..],
            ready, terminal, lastError, lastStatus, calls)
    }

    lemma ValidIsShaped()
      requires Layout()
      ensures Valid() <==> Shaped(Model())
    {
    }

    constructor (handle: U32, enrollmentId: array<Byte>, operations: Operations)
      requires enrollmentId.Length == ID_SIZE
      ensures Valid() && fresh(Repr)
      ensures Model() == NewState(handle, enrollmentId[..])
      ensures this.operations == operations
    {
      this.handle, this.operations := handle, operations;
      id := new Byte[ID_SIZE](i requires 0 <= i < ID_SIZE reads enrollmentId => enrollmentId[i]);
      sizes := new U32[BUFFERED_FEATURES](_ => 0);
      features := new Byte[BUFFERED_FEATURES, FEATURE_CAPACITY]((_, _) => 0);
      template := new Byte[TEMPLATE_CAPACITY](_ => 0);
      token := new Byte[ID_SIZE](_ => 0);
      buffered, templateSize, ready, terminal, lastError, lastStatus, calls := 0, 0, false, false, NoError, 0, [];
      new;
      assert Row(0) == Row(1) == Row(2) == Zeros(FEATURE_CAPACITY);
      assert id[..] == enrollmentId[..] && sizes[..] == NO_SIZES;
      assert template[..] == Zeros(TEMPLATE_CAPACITY) && token[..] == Zeros(ID_SIZE);
    }

    /** `secure_clear` on the three feature slots. */
    method ClearFeatures()
      requires Layout()
      modifies features
      ensures forall k, j :: 0 <= k < BUFFERED_FEATURES && 0 <= j < FEATURE_CAPACITY ==> features[k, j] == 0
    {
      var k := 0;
      while k < BUFFERED_FEATURES
        invariant 0 <= k <= BUFFERED_FEATURES
        invariant forall i, j :: 0 <= i < k && 0 <= j < FEATURE_CAPACITY ==> features[i, j] == 0
      {
        var j := 0;
        while j < FEATURE_CAPACITY
          invariant 0 <= j <= FEATURE_CAPACITY
          invariant forall i, l :: 0 <= i < k && 0 <= l < FEATURE_CAPACITY ==> features[i, l] == 0
          invariant forall l :: 0 <= l < j ==> features[k, l] == 0
        {
          features[k, j] := 0;
          j := j + 1;
        }
        k := k + 1;
      }
    }

    method ClearSizes()
      requires Layout()
      modifies sizes
      ensures sizes[..] == NO_SIZES
    {
      var k := 0;
      while k < BUFFERED_FEATURES
        invariant 0 <= k <= BUFFERED_FEATURES
        invariant forall i :: 0 <= i < k ==> sizes[i] == 0
      {
        sizes[k] := 0;
        k := k + 1;
      }
    }

    /** Everything `reject` clears. */
    method ClearBuffers()
      requires Layout()
      modifies id, sizes, features, template, token
      ensures id[..] == Zeros(ID_SIZE) && sizes[..] == NO_SIZES && [Row(0), Row(1), Row(2)] == NO_FEATURES
      ensures template[..] == Zeros(TEMPLATE_CAPACITY) && token[..] == Zeros(ID_SIZE)
    {
      ClearedWhole(id[..]);
      SecureClear(id, ID_SIZE);
      ClearSizes();
      ClearFeatures();
      ClearedWhole(template[..]);
      SecureClear(template, TEMPLATE_CAPACITY);
      ClearedWhole(token[..]);
      SecureClear(token, ID_SIZE);
      assert Row(0) == Row(1) == Row(2) == Zeros(FEATURE_CAPACITY);
    }

    method Reject(error: Error, end: bool) returns (outcome: Outcome)
      requires Layout()
      modifies Repr
      ensures Layout() && outcome == Rejected
      ensures Model() == RejectSpec(old(Model()), error, end)
    {
      outcome := Rejected;
      lastError := error;
      if end && !terminal {
        ClearBuffers();
        buffered, templateSize, ready, terminal := 0, 0, false, true;
      }
    }

    /** Copy a feature into the next slot. */
    method BufferFeature(feature: array<Byte>, size: U32)
      requires Valid() && !terminal && buffered < BUFFERED_FEATURES
      requires SizeAllowed(size) && size <= feature.Length && feature !in Repr
      modifies Repr
      ensures Layout() && Shaped(old(Model()))
      ensures Model() == Buffer(old(Model()), Offer(None, Some(old(feature[..size])), size))
    {
      ValidIsShaped();
      var slot := buffered;
      CopyFeature(slot, feature, size);
      sizes[slot] := size;
      buffered := buffered + 1;
    }

    /** `memcpy` into a slot. */
    method CopyFeature(slot: nat, feature: array<Byte>, size: U32)
      requires Layout() && slot < BUFFERED_FEATURES && size <= FEATURE_CAPACITY && size <= feature.Length
      modifies features
      ensures Row(slot) == Overwritten(old(Row(slot)), feature[..size])
      ensures forall k :: 0 <= k < BUFFERED_FEATURES && k != slot ==> Row(k) == old(Row(k))
    {
      var j := 0;
      while j < size
        invariant 0 <= j <= size
        invariant forall l :: 0 <= l < j ==> features[slot, l] == feature[l]
        invariant forall l :: j <= l < FEATURE_CAPACITY ==> features[slot, l] == old(features[slot, l])
        invariant forall k, l :: 0 <= k < BUFFERED_FEATURES && k != slot && 0 <= l < FEATURE_CAPACITY ==>
                    features[k, l] == old(features[k, l])
      {
        features[slot, j] := feature[j];
        j := j + 1;
      }
      OverwrittenAt(old(Row(slot)), feature[..size]);
    }

    /** The template call, the token, and the end of the run. */
    method CreateTemplate(feature: array<Byte>, size: U32) returns (outcome: Outcome)
      requires Valid() && !terminal && buffered == BUFFERED_FEATURES
      requires SizeAllowed(size) && size <= feature.Length && feature !in Repr
      modifies Repr
      ensures Layout() && Shaped(old(Model()))
      ensures (Model(), outcome) == Create(operations, old(Model()), Offer(None, Some(old(feature[..size])), size))
    {
      ValidIsShaped();
      var request := Request.CreateTemplate(
        handle,
        [sizes[0], sizes[1], sizes[2], size],
        [Row(0)[..sizes[0]], Row(1)[..sizes[1]], Row(2)[..sizes[2]], feature[..size]],
        TEMPLATE_CAPACITY);
      buffered := 0;
      templateSize := TEMPLATE_CAPACITY;
      var reply := operations.template(calls, request);
      calls := calls + [request];
      WriteInto(template, reply.written);
      templateSize := reply.size;
      lastStatus := reply.status;
      if reply.status != 0 {
        outcome := Reject(TemplateStatus, true);
        return;
      }
      if templateSize == 0 || templateSize > TEMPLATE_CAPACITY {
        outcome := Reject(TemplateSize, true);
        return;
      }
      outcome := Finalise();
    }

    /** Draw the commit token. */
    method Finalise() returns (outcome: Outcome)
      requires Layout() && !terminal
      modifies Repr
      ensures Layout()
      ensures var random := operations.random(old(calls));
              var drawn := old(Model()).(token := Token(random));
              (Model(), outcome) ==
              if random.status != 0 then (RejectSpec(drawn, TokenRandom, true), Rejected)
              else (drawn.(ready := true, terminal := true), TemplateReadyCommitBlocked)
    {
      ClearedWhole(token[..]);
      SecureClear(token, ID_SIZE);
      var random := operations.random(calls);
      WriteInto(token, if |random.bytes| <= TOKEN_RANDOM_SIZE then random.bytes else random.bytes[..TOKEN_RANDOM_SIZE]);
      if random.status != 0 {
        outcome := Reject(TokenRandom, true);
        return;
      }
      ready, terminal := true, true;
      outcome := TemplateReadyCommitBlocked;
    }

    /** `accept_feature` */
    method AcceptFeature(enrollmentId: array?<Byte>, feature: array?<Byte>, size: U32) returns (outcome: Outcome)
      requires Valid()
      requires enrollmentId != null ==> enrollmentId.Length == ID_SIZE && enrollmentId !in Repr
      requires feature != null ==> feature !in Repr && (SizeAllowed(size) ==> size <= feature.Length)
      modifies Repr
      ensures Valid() && Shaped(old(Model()))
      ensures (Model(), outcome) == Accept(operations, old(Model()), old(ReadOffer(enrollmentId, feature, size)))
    {
      ghost var was, offer := Model(), ReadOffer(enrollmentId, feature, size);
      ValidIsShaped();
      AcceptKeepsShape(operations, was, offer);
      if enrollmentId == null || feature == null {
        outcome := Reject(InvalidArgument, true);
      } else if terminal {
        outcome := Reject(AlreadyTerminal, true);
      } else if enrollmentId[..] != id[..] {
        outcome := Reject(IdMismatch, false);
      } else if size == 0 || size > FEATURE_CAPACITY {
        outcome := Reject(FeatureSize, true);
      } else {
        lastError, lastStatus := NoError, 0;
        if buffered < BUFFERED_FEATURES {
          BufferFeature(feature, size);
          outcome := AcceptedMore;
        } else {
          outcome := CreateTemplate(feature, size);
        }
      }
      ValidIsShaped();
    }

    method TakeSnapshot() returns (snapshot: Snapshot)
      requires Valid()
      ensures snapshot == SnapshotOf(Model())
    {
      snapshot := Snapshot(buffered, ready, templateSize, false, terminal, lastError, lastStatus);
    }
  }

  /** A caller's configuration; callbacks may be missing. */
  datatype Config = Config(mockMode: bool, handle: U32, hasTemplate: bool, hasRandom: bool, operations: Operations)

  method New(config: Option<Config>, enrollmentId: array?<Byte>) returns (coordinator: Enrollment?, error: Error)
    requires enrollmentId != null ==> enrollmentId.Length == ID_SIZE
    ensures error == InvalidArgument <==>
            config.None? || enrollmentId == null || !config.value.hasTemplate || !config.value.hasRandom
    ensures error == MockModeRequired <==> error != InvalidArgument && !config.value.mockMode
    ensures coordinator != null <==> error == NoError
    ensures coordinator != null ==>
              && fresh(coordinator.Repr) && coordinator.Valid() && coordinator.operations == config.value.operations
              && coordinator.Model() == NewState(config.value.handle, enrollmentId[..])
  {
    coordinator := null;
    if config.None? || enrollmentId == null || !config.value.hasTemplate || !config.value.hasRandom {
      error := InvalidArgument;
    } else if !config.value.mockMode {
      error := MockModeRequired;
    } else {
      error := NoError;
      coordinator := new Enrollment(config.value.handle, enrollmentId, config.value.operations);
    }
  }

  /** Only the bytes of an allowed size are looked at. */
  lemma UnreadBytes(ops: Operations, s: State, o: Offer, o': Offer)
    requires Shaped(s) && Backed(o) && Backed(o')
    requires o'.id == o.id && o'.size == o.size && o'.feature.Some? == o.feature.Some?
    requires SizeAllowed(o.size) ==> o' == o
    ensures Accept(ops, s, o') == Accept(ops, s, o)
  {
  }

  method Fill(buffer: array<Byte>, bytes: seq<Byte>)
    requires |bytes| <= buffer.Length
    modifies buffer
    ensures buffer[..|bytes|] == bytes
  {
    WriteInto(buffer, bytes);
  }

  /** Offer one feature through two scratch buffers that are overwritten before
      and after the call. */
  method OfferOnce(c: Enrollment, o: Offer, idBuffer: array<Byte>, featureBuffer: array<Byte>)
      returns (outcome: Outcome)
    requires c.Valid() && Backed(o)
    requires idBuffer.Length == ID_SIZE && featureBuffer.Length == FEATURE_CAPACITY && idBuffer != featureBuffer
    requires idBuffer !in c.Repr && featureBuffer !in c.Repr
    modifies c.Repr, idBuffer, featureBuffer
    ensures c.Valid() && Shaped(old(c.Model()))
    ensures (c.Model(), outcome) == Accept(c.operations, old(c.Model()), o)
  {
    ghost var was := c.Model();
    c.ValidIsShaped();
    if o.id.Some? {
      Fill(idBuffer, o.id.value);
      assert idBuffer[..ID_SIZE] == idBuffer[..];
    }
    if o.feature.Some? {
      Fill(featureBuffer, if SizeAllowed(o.size) then o.feature.value else []);
    }
    var idPointer: array?<Byte> := if o.id.Some? then idBuffer else null;
    var featurePointer: array?<Byte> := if o.feature.Some? then featureBuffer else null;
    UnreadBytes(c.operations, was, o, ReadOffer(idPointer, featurePointer, o.size));
    assert c.Model() == was;
    outcome := c.AcceptFeature(idPointer, featurePointer, o.size);
    SecureClear(idBuffer, ID_SIZE);
    SecureClear(featureBuffer, FEATURE_CAPACITY);
  }

  /** A whole run in place is the run on values, although its caller has only
      one ID buffer and one feature buffer. */
  method OfferAll(handle: U32, id: array<Byte>, operations: Operations, offers: seq<Offer>)
      returns (c: Enrollment, outcomes: seq<Outcome>)
    requires id.Length == ID_SIZE && AllBacked(offers)
    ensures c.Valid() && c.Model() == After(operations, handle, id[..], offers)
    ensures outcomes == Outcomes(operations, handle, id[..], offers)
  {
    var idBuffer, featureBuffer := new Byte[ID_SIZE](_ => 0), new Byte[FEATURE_CAPACITY](_ => 0);
    c := new Enrollment(handle, id, operations);
    outcomes := [];
    ghost var given := id[..];
    for i := 0 to |offers|
      invariant fresh(c.Repr) && idBuffer !in c.Repr && featureBuffer !in c.Repr && c.operations == operations
      invariant c.Valid() && id[..] == given
      invariant c.Model() == After(operations, handle, given, offers[..i])
      invariant outcomes == Outcomes(operations, handle, given, offers[..i])
    {
      var outcome := OfferOnce(c, offers[i], idBuffer, featureBuffer);
      outcomes := outcomes + [outcome];
      assert offers[..i + 1][..i] == offers[..i];
    }
    assert offers[..|offers|] == offers;
  }
}
