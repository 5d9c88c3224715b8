/** When is reassembly exact?  Exactly when no transfer boundary falls one to
    three bytes into a message. */
module ChunkIndependence {
  import opened Prelude
  import opened UsbFraming
  import opened Reassembly
  import opened Provenance

  predicate AllWellFormed(ms: seq<seq<Byte>>) {
    forall m :: m in ms ==> WellFormed(m)
  }

  /** How many of the messages end within the first `p` bytes. */
  function Whole(ms: seq<seq<Byte>>, p: nat): nat {
    if ms == [] || p < |ms[0]| then 0 else 1 + Whole(ms[1..], p - |ms[0]|)
  }

  /** How far position `p` lies behind the start of the message that holds it. */
  function BytesInto(ms: seq<seq<Byte>>, p: nat): nat {
    if ms == [] || p < |ms[0]| then p else BytesInto(ms[1..], p - |ms[0]|)
  }

  predicate CleanCut(ms: seq<seq<Byte>>, p: nat) {
    !(1 <= BytesInto(ms, p) <= 3)
  }

  /** No boundary in front of further data falls 1-3 bytes into a message. */
  ghost predicate CleanInside(cs: seq<UsbChunk>, ms: seq<seq<Byte>>) {
    forall i :: 0 <= i <= |cs| && |Stream(cs[..i])| < |Stream(cs)| ==> CleanCut(ms, |Stream(cs[..i])|)
  }

  /** The same, and the data does not stop there either. */
  ghost predicate CleanThroughout(cs: seq<UsbChunk>, ms: seq<seq<Byte>>) {
    forall i :: 0 <= i <= |cs| ==> CleanCut(ms, |Stream(cs[..i])|)
  }

  predicate NothingDiscarded(segments: seq<Segment>) {
    forall s :: s in segments ==> s.Emitted?
  }

  lemma PayloadsAppend(a: seq<UsbMessage>, b: seq<UsbMessage>)
    ensures Payloads(a + b) == Payloads(a) + Payloads(b)
  {
  }

  // ---------------------------------------------------------------------
  // Cutting a stream of messages
  // ---------------------------------------------------------------------

  lemma ProperPrefixHeader(b: seq<Byte>)
    requires ProperPrefix(b)
    ensures |b| >= 4 ==> LiveBuffer(b)
    ensures 1 <= |b| <= 3 ==> !(MAGIC <= b)
  {
  }

  lemma {:induction false} SplitStream(s: seq<Byte>, ms: seq<seq<Byte>>, tail: seq<Byte>) returns (rem: seq<Byte>)
    requires AllWellFormed(ms) && ProperPrefix(tail) && s <= Concat(ms) + tail
    ensures Whole(ms, |s|) <= |ms|
    ensures s == Concat(ms[..Whole(ms, |s|)]) + rem
    ensures |rem| == BytesInto(ms, |s|) && ProperPrefix(rem)
  {
    if ms == [] {
      rem := s;
      var m: seq<Byte> :| WellFormed(m) && tail < m;
      assert s < m;
    } else if |s| < |ms[0]| {
      rem := s;
      assert ms[0] in ms;
      assert s < ms[0];
    } else {
      assert Concat(ms) + tail == ms[0] + (Concat(ms[1..]) + tail);
      assert s == ms[0] + s[|ms[0]|..];
      assert s[|ms[0]|..] <= Concat(ms[1..]) + tail;
      rem := SplitStream(s[|ms[0]|..], ms[1..], tail);
      var w := Whole(ms[1..], |s| - |ms[0]|);
      assert ms[..w + 1] == [ms[0]] + ms[1..][..w];
      assert ms[..w + 1][1..] == ms[1..][..w];
    }
  }

  lemma {:induction false} WholeMonotone(ms: seq<seq<Byte>>, p: nat, q: nat)
    requires p <= q
    ensures Whole(ms, p) <= Whole(ms, q)
  {
    if ms != [] && |ms[0]| <= p {
      WholeMonotone(ms[1..], p - |ms[0]|, q - |ms[0]|);
    }
  }

  lemma {:induction false} WholeOfAll(ms: seq<seq<Byte>>, extra: nat)
    ensures Whole(ms, |Concat(ms)| + extra) == |ms|
    ensures BytesInto(ms, |Concat(ms)| + extra) == extra
  {
    if ms != [] {
      WholeOfAll(ms[1..], extra);
    }
  }

  // ---------------------------------------------------------------------
  // One transfer
  // ---------------------------------------------------------------------

  /** Draining whole messages and a remainder: all messages come out; the
      remainder stays live unless it is one to three bytes long. */
  ghost predicate DrainedExactly(d: Drained, ms: seq<seq<Byte>>, rem: seq<Byte>) {
    && Payloads(Messages(d.segments)) == ms
    && LiveBytes(d.pending) == (if |rem| >= 4 then rem else [])
    && (NothingDiscarded(d.segments) <==> !(1 <= |rem| <= 3))
  }

  lemma {:induction false} ConcatHead(ms: seq<seq<Byte>>, rem: seq<Byte>)
    requires AllWellFormed(ms) && ms != []
    ensures var b := Concat(ms) + rem;
            && |b| >= |ms[0]| >= HEADER_SIZE && MAGIC <= b && DeclaredLength(b) == |ms[0]|
            && b[..|ms[0]|] == ms[0] && b[|ms[0]|..] == Concat(ms[1..]) + rem
  {
    var b := Concat(ms) + rem;
    assert ms[0] in ms && WellFormed(ms[0]);
    assert b == ms[0] + (Concat(ms[1..]) + rem);
    assert forall i :: 0 <= i < |ms[0]| ==> b[i] == ms[0][i];
  }

  lemma {:induction false} DrainExact(p: Pending, c: UsbChunk, ms: seq<seq<Byte>>, rem: seq<Byte>)
    requires AllWellFormed(ms) && ProperPrefix(rem)
    requires p.buffer == Concat(ms) + rem
    requires ms != [] || |rem| >= 4
    ensures DrainedExactly(Drain(p, c), ms, rem)
    decreases |ms|
  {
    ProperPrefixHeader(rem);
    if ms == [] {
      assert p.buffer == rem;
      assert Drain(p, c) == Drained(Some(p), []);
    } else {
      ConcatHead(ms, rem);
      var rest := p.buffer[|ms[0]|..];
      var first := Emitted(Decode(p, c.direction));
      var d := Drain(p, c);
      assert ms == [ms[0]] + ms[1..];
      if ms[1..] != [] || |rem| >= 4 {
        if ms[1..] != [] {
          ConcatHead(ms[1..], rem);
        } else {
          assert rest == rem;
        }
        DrainExact(Stamp(c, rest), c, ms[1..], rem);
        var more := Drain(Stamp(c, rest), c);
        assert d.segments == [first] + more.segments;
        assert Messages(d.segments) == [first.message] + Messages(more.segments);
        PayloadsAppend([first.message], Messages(more.segments));
      } else {
        assert rest == rem;
        LastMessage(first.message, rem);
      }
    }
  }

  lemma LastMessage(m: UsbMessage, rem: seq<Byte>)
    requires |rem| <= 3
    ensures var segments := if rem == [] then [Emitted(m)] else [Emitted(m), Discarded(rem)];
            DrainedExactly(Drained(None, segments), [m.payload], rem)
  {
    if rem != [] {
      var segments := [Emitted(m), Discarded(rem)];
      assert segments[1] in segments;
      assert segments[1..] == [Discarded(rem)] && segments[1..][1..] == [];
      assert Messages(segments[1..]) == [];
      assert Messages(segments) == [m];
    }
  }

  lemma FeedExact(p: Option<Pending>, c: UsbChunk, ms: seq<seq<Byte>>, rem: seq<Byte>)
    requires SoundPending(p) && AllWellFormed(ms) && ProperPrefix(rem)
    requires LiveBytes(p) + c.data == Concat(ms) + rem
    ensures DrainedExactly(Feed(p, c), ms, rem)
  {
    ProperPrefixHeader(rem);
    if ms != [] {
      ConcatHead(ms, rem);
    }
    if p.Some? {
      DrainExact(p.value.(buffer := p.value.buffer + c.data), c, ms, rem);
    } else {
      assert [] + c.data == c.data;
      if MAGIC <= c.data {
        if ms == [] {
          assert c.data == rem;
        }
        DrainExact(Stamp(c, c.data), c, ms, rem);
      } else {
        assert ms == [] && c.data == rem;
        if rem != [] {
          assert Feed(p, c).segments == [Discarded(rem)];
          assert Discarded(rem) in Feed(p, c).segments;
        }
      }
    }
  }

  // ---------------------------------------------------------------------
  // Whole runs of one direction
  // ---------------------------------------------------------------------

  lemma CleanInsidePrefix(cs: seq<UsbChunk>, c: UsbChunk, ms: seq<seq<Byte>>)
    requires CleanInside(cs + [c], ms)
    ensures CleanInside(cs, ms)
    ensures c.data != [] ==> CleanCut(ms, |Stream(cs)|)
  {
    LaneSnoc(cs, c);
    forall i | 0 <= i <= |cs| ensures (cs + [c])[..i] == cs[..i] {}
    assert cs[..|cs|] == cs;
  }

  /** After any cleanly cut prefix of a stream of messages, exactly the whole
      messages have come out and the cut-off one is live. */
  lemma {:induction false} CleanRun(cs: seq<UsbChunk>, d: string, ms: seq<seq<Byte>>, tail: seq<Byte>, rem: seq<Byte>)
    requires forall c :: c in cs ==> c.direction == d
    requires AllWellFormed(ms) && ProperPrefix(tail) && Stream(cs) <= Concat(ms) + tail
    requires CleanInside(cs, ms)
    requires Whole(ms, |Stream(cs)|) <= |ms| && ProperPrefix(rem) && |rem| == BytesInto(ms, |Stream(cs)|)
    requires Stream(cs) == Concat(ms[..Whole(ms, |Stream(cs)|)]) + rem
    ensures DrainedExactly(Lane(cs), ms[..Whole(ms, |Stream(cs)|)], rem)
    decreases |cs|
  {
    if cs == [] {
      assert ms != [] ==> ms[0] in ms;
      assert Whole(ms, 0) == 0 && rem == [] && ms[..0] == [];
    } else {
      var init, c := cs[..|cs| - 1], cs[|cs| - 1];
      assert cs == init + [c];
      LaneSnoc(init, c);
      CleanInsidePrefix(init, c, ms);
      var w, w' := Whole(ms, |Stream(init)|), Whole(ms, |Stream(cs)|);
      var before := SplitStream(Stream(init), ms, tail);
      CleanRun(init, d, ms, tail, before);
      LaneSound(init, d);
      WholeMonotone(ms, |Stream(init)|, |Stream(cs)|);
      CleanStep(Lane(init), c, ms, w, before, w', rem);
    }
  }

  lemma CleanStep(lane: Drained, c: UsbChunk, ms: seq<seq<Byte>>, w: nat, before: seq<Byte>, w': nat, rem: seq<Byte>)
    requires w <= w' <= |ms| && AllWellFormed(ms) && ProperPrefix(rem)
    requires (Concat(ms[..w]) + before) + c.data == Concat(ms[..w']) + rem
    requires SoundPending(lane.pending) && DrainedExactly(lane, ms[..w], before)
    requires c.data == [] ==> w == w'
    requires c.data != [] ==> !(1 <= |before| <= 3)
    ensures var step := Feed(lane.pending, c);
            DrainedExactly(Drained(step.pending, lane.segments + step.segments), ms[..w'], rem)
  {
    if c.data == [] {
      assert (Concat(ms[..w]) + before) + [] == Concat(ms[..w]) + before;
      Cancel(Concat(ms[..w]), before, rem);
      EmptyTransfer(lane, c, ms[..w], rem);
    } else {
      assert ms[..w'] == ms[..w] + ms[w..w'];
      ConcatAppend(ms[..w], ms[w..w']);
      assert (Concat(ms[..w]) + before) + c.data == Concat(ms[..w]) + (before + c.data);
      assert (Concat(ms[..w]) + Concat(ms[w..w'])) + rem == Concat(ms[..w]) + (Concat(ms[w..w']) + rem);
      Cancel(Concat(ms[..w]), before + c.data, Concat(ms[w..w']) + rem);
      FeedExact(lane.pending, c, ms[w..w'], rem);
      JoinExact(lane, Feed(lane.pending, c), ms[..w], before, ms[w..w'], rem);
    }
  }

  lemma JoinExact(lane: Drained, step: Drained, a: seq<seq<Byte>>, before: seq<Byte>, b: seq<seq<Byte>>, rem: seq<Byte>)
    requires DrainedExactly(lane, a, before) && !(1 <= |before| <= 3) && DrainedExactly(step, b, rem)
    ensures DrainedExactly(Drained(step.pending, lane.segments + step.segments), a + b, rem)
  {
    MessagesAppend(lane.segments, step.segments);
    PayloadsAppend(Messages(lane.segments), Messages(step.segments));
    if !NothingDiscarded(step.segments) {
      var s :| s in step.segments && !s.Emitted?;
      assert s in lane.segments + step.segments;
    }
  }

  lemma EmptyTransfer(lane: Drained, c: UsbChunk, a: seq<seq<Byte>>, rem: seq<Byte>)
    requires DrainedExactly(lane, a, rem) && SoundPending(lane.pending) && ProperPrefix(rem) && c.data == []
    ensures var step := Feed(lane.pending, c);
            DrainedExactly(Drained(step.pending, lane.segments + step.segments), a, rem)
  {
    var step := Feed(lane.pending, c);
    if 1 <= |rem| <= 3 {
      assert lane.pending.None?;
      assert lane.segments + step.segments == lane.segments;
    } else {
      assert LiveBytes(lane.pending) + c.data == Concat([]) + rem;
      FeedExact(lane.pending, c, [], rem);
      JoinExact(lane, step, a, rem, [], rem);
      assert a + [] == a;
    }
  }

  lemma Cancel<T>(a: seq<T>, b: seq<T>, c: seq<T>)
    requires a + b == a + c
    ensures b == c
  {
    assert b == (a + b)[|a|..];
    assert c == (a + c)[|a|..];
  }

  /** Sufficiency.  Whole messages followed by a cut-off one, split into
      transfers in any way that leaves no 1-3 byte fragment in front of further
      data: the emitted payloads are those messages. */
  lemma MessagesExact(cs: seq<UsbChunk>, d: string, ms: seq<seq<Byte>>, tail: seq<Byte>)
    requires forall c :: c in cs ==> c.direction == d
    requires AllWellFormed(ms) && ProperPrefix(tail) && Stream(cs) == Concat(ms) + tail
    requires CleanInside(cs, ms)
    ensures DrainedExactly(Lane(cs), ms, tail)
  {
    WholeOfAll(ms, |tail|);
    assert ms[..|ms|] == ms;
    CleanRun(cs, d, ms, tail, tail);
  }

  lemma {:induction false} LanePrefix(cs: seq<UsbChunk>, i: nat)
    requires i <= |cs|
    ensures Lane(cs[..i]).segments <= Lane(cs).segments
    ensures Stream(cs[..i]) <= Stream(cs)
  {
    if i == |cs| {
      assert cs[..i] == cs;
    } else {
      var init := cs[..|cs| - 1];
      LanePrefix(init, i);
      assert init[..i] == cs[..i];
      assert Lane(init).segments <= Lane(cs).segments;
    }
  }

  lemma {:induction false} BytesOfPayloads(segments: seq<Segment>)
    requires NothingDiscarded(segments)
    ensures Bytes(segments) == Concat(Payloads(Messages(segments)))
    ensures |Messages(segments)| == |segments|
  {
    if segments != [] {
      assert segments[0] in segments;
      BytesOfPayloads(segments[1..]);
      assert Payloads(Messages(segments))[1..] == Payloads(Messages(segments[1..]));
    }
  }

  /** A ledger of whole messages, followed by live bytes, does not end 1-3
      bytes into a message. */
  lemma LedgerEndsClean(segments: seq<Segment>, live: seq<Byte>, ms: seq<seq<Byte>>, tail: seq<Byte>)
    requires AllWellFormed(ms) && ProperPrefix(tail)
    requires Bytes(segments) + live <= Concat(ms) + tail
    requires live == [] || LiveBuffer(live)
    requires NothingDiscarded(segments) && Payloads(Messages(segments)) <= ms
    ensures CleanCut(ms, |Bytes(segments)| + |live|)
  {
    var j := |Messages(segments)|;
    assert Payloads(Messages(segments)) == ms[..j];
    BytesOfPayloads(segments);
    CutBehindLiveBytes(ms, tail, j, live);
  }

  lemma PrefixOfLossless(now: seq<Segment>, all: seq<Segment>)
    requires now <= all && NothingDiscarded(all)
    ensures NothingDiscarded(now)
    ensures Payloads(Messages(now)) <= Payloads(Messages(all))
  {
    var later := all[|now|..];
    assert all == now + later;
    MessagesAppend(now, later);
    PayloadsAppend(Messages(now), Messages(later));
    assert forall s :: s in now ==> s in all;
  }

  /** So a run that loses nothing is cleanly cut at every transfer. */
  lemma NothingLostMeansClean(cs: seq<UsbChunk>, d: string, ms: seq<seq<Byte>>, tail: seq<Byte>, i: nat)
    requires forall c :: c in cs ==> c.direction == d
    requires AllWellFormed(ms) && ProperPrefix(tail) && Stream(cs) == Concat(ms) + tail
    requires i <= |cs| && NothingDiscarded(Lane(cs).segments)
    requires Payloads(Messages(Lane(cs).segments)) == ms
    ensures CleanCut(ms, |Stream(cs[..i])|)
  {
    LanePrefix(cs, i);
    var now := Lane(cs[..i]);
    PrefixOfLossless(now.segments, Lane(cs).segments);
    assert Bytes(now.segments) + LiveBytes(now.pending) == Stream(cs[..i]) && SoundPending(now.pending) by {
      LaneSound(cs[..i], d);
    }
    LedgerEndsClean(now.segments, LiveBytes(now.pending), ms, tail);
  }

  lemma LiveIsCutOff(ms: seq<seq<Byte>>, rem: seq<Byte>)
    requires AllWellFormed(ms) && LiveBuffer(Concat(ms) + rem)
    ensures ms == []
  {
    if ms != [] {
      ConcatHead(ms, rem);
    }
  }

  lemma CutBehindLiveBytes(ms: seq<seq<Byte>>, tail: seq<Byte>, j: nat, live: seq<Byte>)
    requires AllWellFormed(ms) && ProperPrefix(tail) && j <= |ms|
    requires Concat(ms[..j]) + live <= Concat(ms) + tail
    requires live == [] || LiveBuffer(live)
    ensures CleanCut(ms, |Concat(ms[..j])| + |live|)
  {
    var s := Concat(ms[..j]) + live;
    var rem := SplitStream(s, ms, tail);
    var w := Whole(ms, |s|);
    WholeConcat(ms, j, |s|);
    assert ms[..w] == ms[..j] + ms[j..w];
    ConcatAppend(ms[..j], ms[j..w]);
    assert s == Concat(ms[..j]) + (Concat(ms[j..w]) + rem);
    Cancel(Concat(ms[..j]), live, Concat(ms[j..w]) + rem);
    if live != [] {
      LiveIsCutOff(ms[j..w], rem);
      assert Concat(ms[j..w]) == [] && live == rem;
    }
  }

  lemma {:induction false} WholeConcat(ms: seq<seq<Byte>>, j: nat, p: nat)
    requires j <= |ms| && |Concat(ms[..j])| <= p
    ensures j <= Whole(ms, p)
  {
    if j > 0 {
      assert ms[..j][1..] == ms[1..][..j - 1];
      WholeConcat(ms[1..], j - 1, p - |ms[0]|);
    }
  }

  /** Exactness, both ways.  Every byte of the stream ends up in the message
      it belongs to or stays live, if and only if no transfer ends one to three
      bytes into a message. */
  lemma NothingLostIff(cs: seq<UsbChunk>, d: string, ms: seq<seq<Byte>>, tail: seq<Byte>)
    requires forall c :: c in cs ==> c.direction == d
    requires AllWellFormed(ms) && ProperPrefix(tail) && Stream(cs) == Concat(ms) + tail
    ensures CleanThroughout(cs, ms) <==>
            && Payloads(Messages(Lane(cs).segments)) == ms
            && NothingDiscarded(Lane(cs).segments)
            && LiveBytes(Lane(cs).pending) == tail
  {
    if CleanThroughout(cs, ms) {
      MessagesExact(cs, d, ms, tail);
      WholeOfAll(ms, |tail|);
      assert cs[..|cs|] == cs;
    }
    if Payloads(Messages(Lane(cs).segments)) == ms && NothingDiscarded(Lane(cs).segments) {
      forall i | 0 <= i <= |cs| ensures CleanCut(ms, |Stream(cs[..i])|) {
        NothingLostMeansClean(cs, d, ms, tail, i);
      }
    }
  }

  lemma PayloadBytesHead(segments: seq<Segment>)
    requires segments != []
    ensures Concat(Payloads(Messages(segments))) ==
            (if segments[0].Emitted? then segments[0].message.payload else []) +
            Concat(Payloads(Messages(segments[1..])))
  {
    var rest := Messages(segments[1..]);
    if segments[0].Emitted? {
      assert Messages(segments) == [segments[0].message] + rest;
      assert Payloads(Messages(segments))[1..] == Payloads(rest);
    } else {
      assert Messages(segments) == rest;
    }
  }

  lemma {:induction false} DiscardedBytes(segments: seq<Segment>, d: string)
    requires forall s :: s in segments ==> SoundSegment(s, d)
    ensures |Bytes(segments)| >= |Concat(Payloads(Messages(segments)))|
    ensures |Bytes(segments)| == |Concat(Payloads(Messages(segments)))| ==> NothingDiscarded(segments)
  {
    if segments != [] {
      assert SoundSegment(segments[0], d);
      DiscardedBytes(segments[1..], d);
      PayloadBytesHead(segments);
      assert segments == [segments[0]] + segments[1..];
    }
  }

  /** For a stream of whole messages the payloads alone decide: they are the
      messages if and only if no boundary falls one to three bytes into one. */
  lemma WholeStreamExactIff(cs: seq<UsbChunk>, d: string, ms: seq<seq<Byte>>)
    requires forall c :: c in cs ==> c.direction == d
    requires AllWellFormed(ms) && Stream(cs) == Concat(ms)
    ensures Payloads(Messages(Lane(cs).segments)) == ms <==> CleanThroughout(cs, ms)
  {
    assert Concat(ms) + [] == Concat(ms);
    NothingIsProperPrefix();
    NothingLostIff(cs, d, ms, []);
    if Payloads(Messages(Lane(cs).segments)) == ms {
      LaneSound(cs, d);
      DiscardedBytes(Lane(cs).segments, d);
    }
  }

  // ---------------------------------------------------------------------
  // The interleaved, sorted result
  // ---------------------------------------------------------------------

  /** Chunk independence of the final result: with cleanly cut transfers whose
      frames do not decrease, one direction's payloads are its messages in
      order, whatever the chunking and whatever other directions interleave. */
  lemma ChunkIndependence(chunks: seq<UsbChunk>, d: string, ms: seq<seq<Byte>>, tail: seq<Byte>)
    requires AllWellFormed(ms) && ProperPrefix(tail)
    requires Stream(OfDirection(chunks, d)) == Concat(ms) + tail
    requires CleanInside(OfDirection(chunks, d), ms)
    requires FramesInOrder(OfDirection(chunks, d))
    ensures Payloads(Filter(Reassembled(chunks), Towards(d))) == ms
  {
    OfDirectionMembers(chunks, d);
    MessagesExact(OfDirection(chunks, d), d, ms, tail);
    SortKeepsDirectionOrder(chunks, d);
  }

  /** The exact condition for streams of whole messages. */
  lemma ChunkIndependenceIff(chunks: seq<UsbChunk>, d: string, ms: seq<seq<Byte>>)
    requires AllWellFormed(ms)
    requires Stream(OfDirection(chunks, d)) == Concat(ms)
    requires FramesInOrder(OfDirection(chunks, d))
    ensures Payloads(Filter(Reassembled(chunks), Towards(d))) == ms <==>
            CleanThroughout(OfDirection(chunks, d), ms)
  {
    OfDirectionMembers(chunks, d);
    WholeStreamExactIff(OfDirection(chunks, d), d, ms);
    SortKeepsDirectionOrder(chunks, d);
  }

  /** Without the condition exactness fails: a message whose first byte comes
      in a transfer of its own is not delivered. */
  lemma ShortFragmentLosesMessage()
    ensures exists chunks: seq<UsbChunk>, m: seq<Byte> ::
              && WellFormed(m) && Stream(OfDirection(chunks, "OUT")) == m
              && FramesInOrder(OfDirection(chunks, "OUT"))
              && Payloads(Filter(Reassembled(chunks), Towards("OUT"))) != [m]
  {
    var m: seq<Byte> := [1, 0, 0, 0, 12, 0, 0, 0, 0x6c, 0, 0, 0];
    var first := UsbChunk(1, 0.0, "OUT", 1, 1, m[..1]);
    var second := UsbChunk(2, 0.0, "OUT", 1, 11, m[1..]);
    var chunks := [first, second];
    assert chunks == ([] + [first]) + [second];
    OfDirectionSnoc([], first, "OUT");
    OfDirectionSnoc([first], second, "OUT");
    assert OfDirection(chunks, "OUT") == chunks;
    LaneSnoc([], first);
    LaneSnoc([first], second);
    assert Stream(chunks[..1]) == m[..1] && Stream(chunks) == m[..1] + m[1..] == m == Concat([m]);
    assert BytesInto([m], |Stream(chunks[..1])|) == 1;
    ChunkIndependenceIff(chunks, "OUT", [m]);
  }
}
