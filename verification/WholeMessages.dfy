/** Chunk independence of whole messages: not only the payloads but the decoded
    messages with their stamps, and everything derived from them. */
module WholeMessages {
  import opened Prelude
  import opened StableSort
  import opened UsbFraming
  import opened Reassembly
  import opened Provenance
  import opened ChunkIndependence
  import opened UpdateExchanges

  // ---------------------------------------------------------------------
  // With clean cuts only the end of a stream can be discarded
  // ---------------------------------------------------------------------

  ghost predicate DiscardsLast(segments: seq<Segment>) {
    forall j :: 0 <= j < |segments| - 1 ==> segments[j].Emitted?
  }

  lemma {:induction false} DrainDiscardsLast(p: Pending, c: UsbChunk)
    ensures DiscardsLast(Drain(p, c).segments)
    decreases |p.buffer|
  {
    if |p.buffer| >= HEADER_SIZE && MAGIC <= p.buffer && HEADER_SIZE <= DeclaredLength(p.buffer) <= |p.buffer| {
      var rest := p.buffer[DeclaredLength(p.buffer)..];
      if MAGIC <= rest {
        DrainDiscardsLast(Stamp(c, rest), c);
      }
    }
  }

  lemma NoDataNoSegments(p: Option<Pending>, c: UsbChunk)
    requires SoundPending(p) && c.data == []
    ensures Feed(p, c).segments == []
  {
    if p.Some? {
      assert p.value.buffer + c.data == p.value.buffer;
    }
  }

  lemma DiscardsLastJoin(a: seq<Segment>, b: seq<Segment>)
    requires NothingDiscarded(a) && DiscardsLast(b)
    ensures DiscardsLast(a + b)
  {
    forall j | 0 <= j < |a + b| - 1 ensures (a + b)[j].Emitted? {
      if j < |a| {
        assert (a + b)[j] in a;
      }
    }
  }

  lemma {:induction false} LaneDiscardsLast(cs: seq<UsbChunk>, d: string, ms: seq<seq<Byte>>, tail: seq<Byte>)
    requires forall c :: c in cs ==> c.direction == d
    requires AllWellFormed(ms) && ProperPrefix(tail) && Stream(cs) <= Concat(ms) + tail
    requires CleanInside(cs, ms)
    ensures DiscardsLast(Lane(cs).segments)
  {
    if cs != [] {
      var init, c := cs[..|cs| - 1], cs[|cs| - 1];
      assert cs == init + [c];
      LaneSnoc(init, c);
      CleanInsidePrefix(init, c, ms);
      LaneSound(init, d);
      if c.data == [] {
        LaneDiscardsLast(init, d, ms, tail);
        NoDataNoSegments(Lane(init).pending, c);
        assert Lane(cs).segments == Lane(init).segments;
      } else {
        var rem := SplitStream(Stream(init), ms, tail);
        CleanRun(init, d, ms, tail, rem);
        FeedDiscardsLast(Lane(init).pending, c);
        DiscardsLastJoin(Lane(init).segments, Feed(Lane(init).pending, c).segments);
      }
    }
  }

  lemma FeedDiscardsLast(p: Option<Pending>, c: UsbChunk)
    ensures DiscardsLast(Feed(p, c).segments)
  {
    if p.Some? {
      DrainDiscardsLast(p.value.(buffer := p.value.buffer + c.data), c);
    } else if MAGIC <= c.data {
      DrainDiscardsLast(Stamp(c, c.data), c);
    }
  }

  // ---------------------------------------------------------------------
  // Whole messages
  // ---------------------------------------------------------------------

  lemma {:induction false} EmittedInOrder(segments: seq<Segment>, k: nat)
    requires DiscardsLast(segments) && k < |Messages(segments)|
    ensures k < |segments| && segments[k] == Emitted(Messages(segments)[k])
    ensures Bytes(segments[..k]) == Concat(Payloads(Messages(segments))[..k])
  {
    var rest := segments[1..];
    assert !segments[0].Emitted? ==> rest == [];
    if segments[0].Emitted? {
      var payloads := Payloads(Messages(segments));
      assert payloads[1..] == Payloads(Messages(rest));
      if k > 0 {
        EmittedInOrder(rest, k - 1);
        assert segments[..k][1..] == rest[..k - 1];
        assert payloads[..k][1..] == payloads[1..][..k - 1];
      }
    }
  }

  /** The stamp of the transfer in which message `k` of the stream starts, with
      the message's bytes. */
  function StartStamp(cs: seq<UsbChunk>, ms: seq<seq<Byte>>, k: nat): Pending
    requires k < |ms| && |Concat(ms[..k])| < |Stream(cs)|
  {
    Stamp(cs[Holder(cs, |Concat(ms[..k])|)], ms[k])
  }

  ghost predicate StartsInside(cs: seq<UsbChunk>, ms: seq<seq<Byte>>) {
    forall k :: 0 <= k < |ms| ==> |Concat(ms[..k])| < |Stream(cs)|
  }

  lemma MessagesStartInside(cs: seq<UsbChunk>, ms: seq<seq<Byte>>, tail: seq<Byte>)
    requires AllWellFormed(ms) && Stream(cs) == Concat(ms) + tail
    ensures StartsInside(cs, ms)
  {
    forall k | 0 <= k < |ms| ensures |Concat(ms[..k])| < |Stream(cs)| {
      assert ms == ms[..k] + ms[k..] && ms[k] in ms;
      ConcatAppend(ms[..k], ms[k..]);
    }
  }

  function Stamps(cs: seq<UsbChunk>, ms: seq<seq<Byte>>): seq<Pending>
    requires StartsInside(cs, ms)
  {
    seq(|ms|, k requires 0 <= k < |ms| => StartStamp(cs, ms, k))
  }

  ghost predicate AllDecodable(stamps: seq<Pending>) {
    forall k :: 0 <= k < |stamps| ==> WellFormed(stamps[k].buffer)
  }

  /** The messages as their bytes and stamps prescribe them. */
  ghost function Decoded(stamps: seq<Pending>, d: string): seq<UsbMessage>
    requires AllDecodable(stamps)
  {
    seq(|stamps|, k requires 0 <= k < |stamps| => Decode(stamps[k], d))
  }

  lemma StampsDecodable(cs: seq<UsbChunk>, ms: seq<seq<Byte>>)
    requires StartsInside(cs, ms) && AllWellFormed(ms)
    ensures AllDecodable(Stamps(cs, ms))
  {
    forall k | 0 <= k < |ms| ensures WellFormed(Stamps(cs, ms)[k].buffer) {
      assert ms[k] in ms;
    }
  }

  lemma OneMessage(cs: seq<UsbChunk>, d: string, ms: seq<seq<Byte>>, tail: seq<Byte>, k: nat)
    requires forall c :: c in cs ==> c.direction == d
    requires AllWellFormed(ms) && ProperPrefix(tail) && Stream(cs) == Concat(ms) + tail
    requires CleanInside(cs, ms) && StartsInside(cs, ms) && k < |ms|
    ensures |Messages(Lane(cs).segments)| == |ms| && ms[k] in ms
    ensures Messages(Lane(cs).segments)[k] == Decode(StartStamp(cs, ms, k), d)
  {
    var segments := Lane(cs).segments;
    MessagesExact(cs, d, ms, tail);
    assert |Payloads(Messages(segments))| == |ms|;
    LaneDiscardsLast(cs, d, ms, tail);
    EmittedInOrder(segments, k);
    LaneProvenance(cs, d);
    LaneSound(cs, d);
    var m := Messages(segments)[k];
    assert SoundSegment(segments[k], d);
    assert m.payload == Payloads(Messages(segments))[k] == ms[k];
    assert StartOf(segments, k) == |Concat(ms[..k])|;
  }

  /** Chunk independence of whole messages.  With clean cuts and frames that do
      not decrease, message k of a direction is the decoding of the k-th message
      of its stream, stamped by the transfer that holds its first byte. */
  lemma MessagesDecoded(chunks: seq<UsbChunk>, d: string, ms: seq<seq<Byte>>, tail: seq<Byte>)
    requires CleanCapture(chunks, d, ms, tail)
    ensures var mine := OfDirection(chunks, d);
            && StartsInside(mine, ms) && AllDecodable(Stamps(mine, ms))
            && Filter(Reassembled(chunks), Towards(d)) == Decoded(Stamps(mine, ms), d)
  {
    var mine := OfDirection(chunks, d);
    OfDirectionMembers(chunks, d);
    MessagesStartInside(mine, ms, tail);
    StampsDecodable(mine, ms);
    SortKeepsDirectionOrder(chunks, d);
    MessagesExact(mine, d, ms, tail);
    assert |Payloads(Messages(Lane(mine).segments))| == |ms|;
    forall k | 0 <= k < |ms| ensures Messages(Lane(mine).segments)[k] == Decoded(Stamps(mine, ms), d)[k] {
      OneMessage(mine, d, ms, tail, k);
    }
  }

  /** One direction of a capture: whole messages and a cut-off one, cleanly cut. */
  ghost predicate CleanCapture(chunks: seq<UsbChunk>, d: string, ms: seq<seq<Byte>>, tail: seq<Byte>) {
    && AllWellFormed(ms) && ProperPrefix(tail)
    && Stream(OfDirection(chunks, d)) == Concat(ms) + tail
    && CleanInside(OfDirection(chunks, d), ms) && FramesInOrder(OfDirection(chunks, d))
  }

  // ---------------------------------------------------------------------
  // Two captures of the same traffic
  // ---------------------------------------------------------------------

  /** A frame carries one transfer, hence one direction. */
  ghost predicate OneDirectionPerFrame(messages: seq<UsbMessage>) {
    forall m, n :: m in messages && n in messages && m.frame == n.frame ==> m.direction == n.direction
  }

  lemma {:induction false} FilterTwice<T>(s: seq<T>, p: T -> bool, q: T -> bool)
    requires forall x :: x in s && q(x) ==> p(x)
    ensures Filter(Filter(s, p), q) == Filter(s, q)
  {
    if s != [] {
      assert forall x :: x in s[1..] ==> x in s;
      FilterTwice(s[1..], p, q);
      if p(s[0]) {
        assert Filter(s, p)[1..] == Filter(s[1..], p);
      } else {
        assert s[0] in s;
      }
    }
  }

  lemma TiedFrames(x: UsbMessage, y: UsbMessage)
    ensures Tied(x, EarlierFrame)(y) <==> x.frame == y.frame
  {
    assert EarlierFrame(x, y) <==> x.frame <= y.frame;
    assert EarlierFrame(y, x) <==> y.frame <= x.frame;
  }

  /** Two ordered lists with the same messages in each direction have the same
      ties, as ties have one direction. */
  lemma SameTies(a: seq<UsbMessage>, b: seq<UsbMessage>, x: UsbMessage)
    requires OneDirectionPerFrame(a)
    requires forall d :: Filter(a, Towards(d)) == Filter(b, Towards(d))
    ensures Filter(a, Tied(x, EarlierFrame)) == Filter(b, Tied(x, EarlierFrame))
  {
    var tied := Tied(x, EarlierFrame);
    SameMembers(a, b);
    if m :| m in a && tied(m) {
      forall y | y in a && tied(y) ensures Towards(m.direction)(y) {
        TiedFrames(x, y);
        TiedFrames(x, m);
      }
      FilterTwice(a, Towards(m.direction), tied);
      FilterTwice(b, Towards(m.direction), tied);
    } else {
      FilterNone(a, tied);
      FilterNone(b, tied);
    }
  }

  lemma SameMembers(a: seq<UsbMessage>, b: seq<UsbMessage>)
    requires forall d :: Filter(a, Towards(d)) == Filter(b, Towards(d))
    ensures forall m :: m in a <==> m in b
  {
    forall m ensures m in a <==> m in b {
      FilterMembers(a, Towards(m.direction));
      FilterMembers(b, Towards(m.direction));
      assert m in Filter(a, Towards(m.direction)) <==> m in Filter(b, Towards(m.direction));
    }
  }

  lemma DirectionsDetermineList(a: seq<UsbMessage>, b: seq<UsbMessage>)
    requires Sorted(a, EarlierFrame) && Sorted(b, EarlierFrame) && OneDirectionPerFrame(a)
    requires forall d :: Filter(a, Towards(d)) == Filter(b, Towards(d))
    ensures a == b
  {
    FrameOrderIsPreorder();
    forall x ensures Filter(a, Tied(x, EarlierFrame)) == Filter(b, Tied(x, EarlierFrame)) {
      SameTies(a, b, x);
    }
    StableSortUnique(b, a, EarlierFrame);
    SortOfSorted(b, EarlierFrame);
  }

  /** Two captures of the same messages, both cleanly cut, that agree on the
      transfer in which each message starts, give the same list of messages,
      however they cut and interleave the rest; so everything computed from the
      list, the update exchanges in particular, is the same. */
  lemma SameMessagesSameExchanges(chunks: seq<UsbChunk>, chunks': seq<UsbChunk>,
                                  ms: string -> seq<seq<Byte>>, tail: string -> seq<Byte>)
    requires forall d :: CleanCapture(chunks, d, ms(d), tail(d)) && CleanCapture(chunks', d, ms(d), tail(d))
    requires forall d, k :: 0 <= k < |ms(d)| ==> SameStart(chunks, chunks', d, ms(d), k)
    requires OneDirectionPerFrame(Reassembled(chunks))
    ensures Reassembled(chunks) == Reassembled(chunks')
    ensures Positions(Reassembled(chunks), Requests(Reassembled(chunks)))
    ensures ExchangesFor(Reassembled(chunks), Requests(Reassembled(chunks))) ==
            ExchangesFor(Reassembled(chunks'), Requests(Reassembled(chunks')))
  {
    forall d ensures Filter(Reassembled(chunks), Towards(d)) == Filter(Reassembled(chunks'), Towards(d)) {
      SameDirection(chunks, chunks', d, ms(d), tail(d));
    }
    FrameOrderIsPreorder();
    SortSorted(Scan(chunks).messages, EarlierFrame);
    SortSorted(Scan(chunks').messages, EarlierFrame);
    DirectionsDetermineList(Reassembled(chunks), Reassembled(chunks'));
    RequestsArePositions(Reassembled(chunks));
  }

  /** Message `k` starts in transfers with the same frame, time and endpoint. */
  ghost predicate SameStart(chunks: seq<UsbChunk>, chunks': seq<UsbChunk>, d: string, ms: seq<seq<Byte>>, k: nat) {
    var mine, mine' := OfDirection(chunks, d), OfDirection(chunks', d);
    && k < |ms| && |Concat(ms[..k])| < |Stream(mine)| && |Concat(ms[..k])| < |Stream(mine')|
    && StartStamp(mine, ms, k) == StartStamp(mine', ms, k)
  }

  lemma SameDirection(chunks: seq<UsbChunk>, chunks': seq<UsbChunk>, d: string, ms: seq<seq<Byte>>, tail: seq<Byte>)
    requires CleanCapture(chunks, d, ms, tail) && CleanCapture(chunks', d, ms, tail)
    requires forall k :: 0 <= k < |ms| ==> SameStart(chunks, chunks', d, ms, k)
    ensures Filter(Reassembled(chunks), Towards(d)) == Filter(Reassembled(chunks'), Towards(d))
  {
    MessagesDecoded(chunks, d, ms, tail);
    MessagesDecoded(chunks', d, ms, tail);
    var mine, mine' := OfDirection(chunks, d), OfDirection(chunks', d);
    forall k | 0 <= k < |ms| ensures Stamps(mine, ms)[k] == Stamps(mine', ms)[k] {
      assert SameStart(chunks, chunks', d, ms, k);
    }
    assert Stamps(mine, ms) == Stamps(mine', ms);
  }
}
