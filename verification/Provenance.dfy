/** Every message carries the frame, time and endpoint of the transfer that
    holds its first byte. */
module Provenance {
  import opened Prelude
  import opened StableSort
  import opened UsbFraming
  import opened Reassembly

  /** The index of the transfer that holds byte `o` of the direction's stream. */
  function Holder(cs: seq<UsbChunk>, o: nat): nat
    requires o < |Stream(cs)|
    ensures Holder(cs, o) < |cs|
  {
    if o < |Stream(cs[..|cs| - 1])| then Holder(cs[..|cs| - 1], o) else |cs| - 1
  }

  /** `Holder` is the transfer that spans `o`. */
  lemma {:induction false} HolderSpans(cs: seq<UsbChunk>, o: nat)
    requires o < |Stream(cs)|
    ensures var h := Holder(cs, o);
            |Stream(cs[..h])| <= o < |Stream(cs[..h + 1])|
  {
    var init := cs[..|cs| - 1];
    if o < |Stream(init)| {
      HolderSpans(init, o);
      var h := Holder(init, o);
      assert init[..h] == cs[..h] && init[..h + 1] == cs[..h + 1];
    } else {
      assert cs[..|cs|] == cs;
    }
  }

  lemma {:induction false} HolderMonotone(cs: seq<UsbChunk>, o: nat, p: nat)
    requires o <= p < |Stream(cs)|
    ensures Holder(cs, o) <= Holder(cs, p)
  {
    if p < |Stream(cs[..|cs| - 1])| {
      HolderMonotone(cs[..|cs| - 1], o, p);
    }
  }

  predicate StampedMessage(m: UsbMessage, c: UsbChunk) {
    m.frame == c.frame && m.relativeTime == c.relativeTime && m.endpoint == c.endpoint
  }

  predicate StampedPending(p: Pending, c: UsbChunk) {
    p.frame == c.frame && p.relativeTime == c.relativeTime && p.endpoint == c.endpoint
  }

  /** Where ledger entry `j` starts. */
  function StartOf(segments: seq<Segment>, j: nat): nat
    requires j <= |segments|
  {
    |Bytes(segments[..j])|
  }

  /** What one drain does to stamps: the first message keeps the stamp of the
      old live bytes, everything that starts later starts inside `c`. */
  ghost predicate DrainStamps(d: Drained, p: Pending, c: UsbChunk, carried: nat) {
    && (forall j :: 0 <= j < |d.segments| && d.segments[j].Emitted? ==>
          if j == 0 then
            var m := d.segments[j].message;
            m.frame == p.frame && m.relativeTime == p.relativeTime && m.endpoint == p.endpoint
          else StampedMessage(d.segments[j].message, c) && StartOf(d.segments, j) >= carried)
    && (d.pending.Some? ==>
          if d.segments == [] then d.pending.value == p
          else StampedPending(d.pending.value, c) && |Bytes(d.segments)| >= carried)
  }

  lemma {:induction false} DrainKeepsStamps(p: Pending, c: UsbChunk, before: seq<Byte>)
    requires MAGIC <= p.buffer
    requires before == [] || (LiveBuffer(before) && before <= p.buffer)
    ensures DrainStamps(Drain(p, c), p, c, |before|)
    decreases |p.buffer|
  {
    if |p.buffer| >= HEADER_SIZE && HEADER_SIZE <= DeclaredLength(p.buffer) <= |p.buffer| {
      var n := DeclaredLength(p.buffer);
      var rest := p.buffer[n..];
      var d := Drain(p, c);
      assert |before| >= HEADER_SIZE ==> DeclaredLength(before) == n;
      assert n >= |before|;
      var first := Emitted(Decode(p, c.direction));
      assert d.segments[0] == first && |SegmentBytes(first)| == n;
      assert forall j :: 1 <= j <= |d.segments| ==> d.segments[..j] == [first] + d.segments[1..j];
      assert forall j :: 1 <= j <= |d.segments| ==> StartOf(d.segments, j) >= n by {
        forall j | 1 <= j <= |d.segments| ensures StartOf(d.segments, j) >= n {
          BytesAppend([first], d.segments[1..j]);
          assert Bytes([first]) == SegmentBytes(first) + Bytes([]);
        }
      }
      assert d.segments[..|d.segments|] == d.segments;
      if MAGIC <= rest {
        DrainKeepsStamps(Stamp(c, rest), c, []);
        assert d.segments[1..] == Drain(Stamp(c, rest), c).segments;
      }
    }
  }

  /** The same for one transfer. */
  ghost predicate FeedStamps(step: Drained, p: Option<Pending>, c: UsbChunk) {
    && (forall j :: 0 <= j < |step.segments| && step.segments[j].Emitted? ==>
          if j == 0 && p.Some? then
            var m := step.segments[j].message;
            m.frame == p.value.frame && m.relativeTime == p.value.relativeTime && m.endpoint == p.value.endpoint
          else StampedMessage(step.segments[j].message, c) && StartOf(step.segments, j) >= |LiveBytes(p)|)
    && (step.pending.Some? ==>
          if step.segments == [] && p.Some? then
            var now := step.pending.value;
            now.frame == p.value.frame && now.relativeTime == p.value.relativeTime && now.endpoint == p.value.endpoint
          else StampedPending(step.pending.value, c) && |Bytes(step.segments)| >= |LiveBytes(p)|)
  }

  lemma FeedKeepsStamps(p: Option<Pending>, c: UsbChunk)
    requires SoundPending(p)
    ensures FeedStamps(Feed(p, c), p, c)
  {
    if p.Some? {
      DrainKeepsStamps(p.value.(buffer := p.value.buffer + c.data), c, p.value.buffer);
    } else if MAGIC <= c.data {
      DrainKeepsStamps(Stamp(c, c.data), c, []);
    }
  }

  ghost predicate LaneStamped(cs: seq<UsbChunk>, lane: Drained) {
    && (forall j :: 0 <= j < |lane.segments| && lane.segments[j].Emitted? ==>
          && StartOf(lane.segments, j) < |Stream(cs)|
          && StampedMessage(lane.segments[j].message, cs[Holder(cs, StartOf(lane.segments, j))]))
    && (lane.pending.Some? ==>
          && |Bytes(lane.segments)| < |Stream(cs)|
          && StampedPending(lane.pending.value, cs[Holder(cs, |Bytes(lane.segments)|)]))
  }

  lemma StartOfAppend(a: seq<Segment>, b: seq<Segment>, j: nat)
    requires j <= |a| + |b|
    ensures StartOf(a + b, j) == if j < |a| then StartOf(a, j) else |Bytes(a)| + StartOf(b, j - |a|)
  {
    if j < |a| {
      assert (a + b)[..j] == a[..j];
    } else {
      assert (a + b)[..j] == a + b[..j - |a|];
      BytesAppend(a, b[..j - |a|]);
    }
  }

  lemma HolderSnoc(cs: seq<UsbChunk>, c: UsbChunk, o: nat)
    requires o < |Stream(cs + [c])|
    ensures o < |Stream(cs)| ==> Holder(cs + [c], o) == Holder(cs, o)
    ensures o >= |Stream(cs)| ==> Holder(cs + [c], o) == |cs|
  {
  }

  lemma EmittedStartsEarly(segments: seq<Segment>, d: string, j: nat)
    requires forall s :: s in segments ==> SoundSegment(s, d)
    requires j < |segments| && segments[j].Emitted?
    ensures StartOf(segments, j) < |Bytes(segments)|
  {
    assert segments[j] in segments;
    assert segments == segments[..j] + segments[j..];
    BytesAppend(segments[..j], segments[j..]);
    assert Bytes(segments[j..]) == SegmentBytes(segments[j]) + Bytes(segments[j..][1..]);
  }

  /** Provenance: for all transfers of one direction, each emitted message is
      stamped by the transfer that holds its first byte, even when one transfer
      ends a message and starts several. */
  lemma {:induction false} LaneProvenance(cs: seq<UsbChunk>, d: string)
    requires forall c :: c in cs ==> c.direction == d
    ensures LaneStamped(cs, Lane(cs))
  {
    if cs != [] {
      var init, c := cs[..|cs| - 1], cs[|cs| - 1];
      assert cs == init + [c];
      LaneProvenance(init, d);
      LaneSound(init, d);
      LaneSound(cs, d);
      LaneSnoc(init, c);
      FeedKeepsStamps(Lane(init).pending, c);
      JoinStamps(init, c, d, Lane(init), Feed(Lane(init).pending, c));
    }
  }

  lemma JoinStamps(cs: seq<UsbChunk>, c: UsbChunk, d: string, lane: Drained, step: Drained)
    requires LaneStamped(cs, lane) && FeedStamps(step, lane.pending, c)
    requires |Bytes(lane.segments)| + |LiveBytes(lane.pending)| == |Stream(cs)|
    requires |Bytes(lane.segments + step.segments)| + |LiveBytes(step.pending)| == |Stream(cs + [c])|
    requires forall s :: s in lane.segments + step.segments ==> SoundSegment(s, d)
    requires SoundPending(step.pending)
    ensures LaneStamped(cs + [c], Drained(step.pending, lane.segments + step.segments))
  {
    var all := lane.segments + step.segments;
    BytesAppend(lane.segments, step.segments);
    forall j | 0 <= j < |all| && all[j].Emitted?
      ensures StartOf(all, j) < |Stream(cs + [c])|
      ensures StampedMessage(all[j].message, (cs + [c])[Holder(cs + [c], StartOf(all, j))])
    {
      EmittedStartsEarly(all, d, j);
      StartOfAppend(lane.segments, step.segments, j);
      HolderSnoc(cs, c, StartOf(all, j));
      assert StartOf(step.segments, 0) == 0;
    }
    if step.pending.Some? {
      HolderSnoc(cs, c, |Bytes(all)|);
      assert step.segments == [] ==> Bytes(step.segments) == [];
    }
  }

  ghost predicate FramesInOrder(cs: seq<UsbChunk>) {
    forall i, j :: 0 <= i <= j < |cs| ==> cs[i].frame <= cs[j].frame
  }

  lemma StartOfMonotone(segments: seq<Segment>, i: nat, j: nat)
    requires i <= j <= |segments|
    ensures StartOf(segments, i) <= StartOf(segments, j)
  {
    assert segments[..j] == segments[..i] + segments[i..j];
    BytesAppend(segments[..i], segments[i..j]);
  }

  /** With frames that do not decrease, one direction's messages come out in
      frame order. */
  lemma MessagesInFrameOrder(cs: seq<UsbChunk>, d: string)
    requires forall c :: c in cs ==> c.direction == d
    requires FramesInOrder(cs)
    ensures Sorted(Messages(Lane(cs).segments), EarlierFrame)
  {
    var segments := Lane(cs).segments;
    LaneProvenance(cs, d);
    forall i, j | 0 <= i < j < |segments| && segments[i].Emitted? && segments[j].Emitted?
      ensures segments[i].message.frame <= segments[j].message.frame
    {
      StartOfMonotone(segments, i, j);
      HolderMonotone(cs, StartOf(segments, i), StartOf(segments, j));
    }
    SortedMessages(segments);
  }

  lemma {:induction false} SortedMessages(segments: seq<Segment>)
    requires forall i, j :: 0 <= i < j < |segments| && segments[i].Emitted? && segments[j].Emitted? ==>
      segments[i].message.frame <= segments[j].message.frame
    ensures Sorted(Messages(segments), EarlierFrame)
  {
    if segments != [] {
      SortedMessages(segments[1..]);
      var rest := Messages(segments[1..]);
      MessagesMembers(segments[1..]);
      if segments[0].Emitted? {
        forall k | 0 <= k < |rest| ensures segments[0].message.frame <= rest[k].frame {
          assert Emitted(rest[k]) in segments[1..];
        }
      }
    }
  }

  /** Hence the final sort never reorders messages of one direction. */
  lemma SortKeepsDirectionOrder(chunks: seq<UsbChunk>, d: string)
    requires FramesInOrder(OfDirection(chunks, d))
    ensures Filter(Reassembled(chunks), Towards(d)) == Messages(Lane(OfDirection(chunks, d)).segments)
  {
    OfDirectionMembers(chunks, d);
    ReassembledTowards(chunks, d);
    MessagesInFrameOrder(OfDirection(chunks, d), d);
    SortOfSorted(Messages(Lane(OfDirection(chunks, d)).segments), EarlierFrame);
  }
}
