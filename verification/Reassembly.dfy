/** `reassemble_messages`: interleaved directions, one loop, one final sort. */
module Reassembly {
  import opened Prelude
  import opened StableSort
  import opened UsbFraming

  /** The loop's two variables. */
  datatype World = World(states: map<string, Pending>, messages: seq<UsbMessage>)

  predicate EarlierFrame(a: UsbMessage, b: UsbMessage) {
    a.frame <= b.frame
  }

  function Lookup(states: map<string, Pending>, direction: string): Option<Pending> {
    if direction in states then Some(states[direction]) else None
  }

  function Store(states: map<string, Pending>, direction: string, p: Option<Pending>): map<string, Pending> {
    if p.Some? then states[direction := p.value] else states - {direction}
  }

  function Arrive(w: World, c: UsbChunk): World {
    var step := Feed(Lookup(w.states, c.direction), c);
    World(Store(w.states, c.direction, step.pending), w.messages + Messages(step.segments))
  }

  function Scan(chunks: seq<UsbChunk>): World {
    if chunks == [] then World(map[], [])
    else Arrive(Scan(chunks[..|chunks| - 1]), chunks[|chunks| - 1])
  }

  function Reassembled(chunks: seq<UsbChunk>): seq<UsbMessage> {
    Sort(Scan(chunks).messages, EarlierFrame)
  }

  /** The inner loop: take every whole message off the live bytes of `state`.
      `live` says whether the direction keeps a state afterwards. */
  method TakeMessages(chunk: UsbChunk, state: Pending, before: seq<UsbMessage>)
    returns (live: bool, left: Pending, messages: seq<UsbMessage>)
    ensures (if live then Some(left) else None) == Drain(state, chunk).pending
    ensures messages == before + Messages(Drain(state, chunk).segments)
  {
    live, left, messages := true, state, before;
    while |left.buffer| >= HEADER_SIZE
      invariant Drain(left, chunk).pending == Drain(state, chunk).pending
      invariant messages + Messages(Drain(left, chunk).segments) == before + Messages(Drain(state, chunk).segments)
      decreases |left.buffer|
    {
      ghost var now := Drain(left, chunk);
      if !(MAGIC <= left.buffer) {
        return false, left, messages;
      }
      var declaredLength := DeclaredLength(left.buffer);
      if declaredLength < HEADER_SIZE {
        return false, left, messages;
      }
      if |left.buffer| < declaredLength {
        return;
      }
      var buffer := left.buffer[declaredLength..];
      assert Messages(now.segments) == [Decode(left, chunk.direction)] + Messages(now.segments[1..]);
      messages := messages + [Decode(left, chunk.direction)];
      if buffer == [] {
        return false, left, messages;
      }
      if !(MAGIC <= buffer) {
        assert Messages(now.segments[1..]) == [];
        return false, left, messages;
      }
      left := Stamp(chunk, buffer);
      assert now.segments[1..] == Drain(left, chunk).segments;
    }
  }

  method ReassembleMessages(chunks: seq<UsbChunk>) returns (messages: seq<UsbMessage>)
    ensures messages == Reassembled(chunks)
  {
    var states: map<string, Pending> := map[];
    messages := [];
    for n := 0 to |chunks|
      invariant World(states, messages) == Scan(chunks[..n])
    {
      var chunk := chunks[n];
      assert chunks[..n + 1][..n] == chunks[..n];
      var state: Pending;
      if chunk.direction in states {
        state := states[chunk.direction];
      } else {
        if !(MAGIC <= chunk.data) {
          assert Messages(Feed(None, chunk).segments) == [];
          assert states - {chunk.direction} == states;
          continue;
        }
        state := Stamp(chunk, []);
      }
      state := state.(buffer := state.buffer + chunk.data);
      assert [] + chunk.data == chunk.data;
      var live;
      live, state, messages := TakeMessages(chunk, state, messages);
      states := if live then states[chunk.direction := state] else states - {chunk.direction};
    }
    assert chunks[..|chunks|] == chunks;
    messages := Sort(messages, EarlierFrame);
  }

  // ---------------------------------------------------------------------
  // Directions do not interfere
  // ---------------------------------------------------------------------

  function Towards(direction: string): UsbMessage -> bool {
    (m: UsbMessage) => m.direction == direction
  }

  function OfDirection(chunks: seq<UsbChunk>, direction: string): seq<UsbChunk> {
    Filter(chunks, (c: UsbChunk) => c.direction == direction)
  }

  lemma OfDirectionSnoc(chunks: seq<UsbChunk>, c: UsbChunk, direction: string)
    ensures OfDirection(chunks + [c], direction) ==
            OfDirection(chunks, direction) + if c.direction == direction then [c] else []
  {
    FilterAppend(chunks, [c], (c: UsbChunk) => c.direction == direction);
  }

  lemma OfDirectionMembers(chunks: seq<UsbChunk>, direction: string)
    ensures forall c :: c in OfDirection(chunks, direction) <==> c in chunks && c.direction == direction
  {
    FilterMembers(chunks, (c: UsbChunk) => c.direction == direction);
  }

  lemma OfDirectionTwice(chunks: seq<UsbChunk>, direction: string)
    ensures OfDirection(OfDirection(chunks, direction), direction) == OfDirection(chunks, direction)
  {
    OfDirectionMembers(chunks, direction);
    FilterAll(OfDirection(chunks, direction), (c: UsbChunk) => c.direction == direction);
  }

  lemma MessagesTowards(segments: seq<Segment>, direction: string, other: string)
    requires forall s :: s in segments ==> SoundSegment(s, direction)
    ensures Filter(Messages(segments), Towards(other)) == if other == direction then Messages(segments) else []
  {
    MessagesMembers(segments);
    if other == direction {
      FilterAll(Messages(segments), Towards(other));
    } else {
      FilterNone(Messages(segments), Towards(other));
    }
  }

  lemma LaneSnoc(cs: seq<UsbChunk>, c: UsbChunk)
    ensures var step := Feed(Lane(cs).pending, c);
            Lane(cs + [c]) == Drained(step.pending, Lane(cs).segments + step.segments)
    ensures Stream(cs + [c]) == Stream(cs) + c.data
  {
  }

  /** Before the sort, one direction of the interleaved run is the run of that
      direction alone: same live state, same messages in the same order. */
  lemma {:induction false} ScanIsolated(chunks: seq<UsbChunk>, direction: string)
    ensures Lookup(Scan(chunks).states, direction) == Lane(OfDirection(chunks, direction)).pending
    ensures Filter(Scan(chunks).messages, Towards(direction)) ==
            Messages(Lane(OfDirection(chunks, direction)).segments)
  {
    if chunks != [] {
      var init, c := chunks[..|chunks| - 1], chunks[|chunks| - 1];
      assert chunks == init + [c];
      ScanIsolated(init, direction);
      ScanIsolated(init, c.direction);
      OfDirectionSnoc(init, c, direction);
      OfDirectionTwice(init, c.direction);
      ArriveIsolated(Scan(init), c, OfDirection(init, c.direction), direction);
      if c.direction != direction {
        assert OfDirection(init, direction) + [] == OfDirection(init, direction);
      } else {
        LaneSnoc(OfDirection(init, direction), c);
        MessagesAppend(Lane(OfDirection(init, direction)).segments,
                       Feed(Lookup(Scan(init).states, direction), c).segments);
      }
    }
  }

  /** One transfer adds messages of its own direction only. */
  lemma ArriveIsolated(w: World, c: UsbChunk, mine: seq<UsbChunk>, direction: string)
    requires mine == OfDirection(mine, c.direction)
    requires Lookup(w.states, c.direction) == Lane(mine).pending
    ensures Filter(Arrive(w, c).messages, Towards(direction)) ==
            Filter(w.messages, Towards(direction)) +
            if c.direction == direction then Messages(Feed(Lookup(w.states, direction), c).segments) else []
    ensures c.direction != direction ==> Lookup(Arrive(w, c).states, direction) == Lookup(w.states, direction)
  {
    var step := Feed(Lookup(w.states, c.direction), c);
    assert SoundPending(Lookup(w.states, c.direction)) by {
      OfDirectionMembers(mine, c.direction);
      LaneSound(mine, c.direction);
    }
    FeedSound(Lookup(w.states, c.direction), c);
    MessagesTowards(step.segments, c.direction, direction);
    FilterAppend(w.messages, Messages(step.segments), Towards(direction));
  }

  lemma FrameOrderIsPreorder()
    ensures TotalPreorder(EarlierFrame)
  {
  }

  /** One direction of the sorted result, in terms of that direction alone. */
  lemma ReassembledTowards(chunks: seq<UsbChunk>, direction: string)
    ensures Filter(Reassembled(chunks), Towards(direction)) ==
            Sort(Messages(Lane(OfDirection(chunks, direction)).segments), EarlierFrame)
  {
    FrameOrderIsPreorder();
    FilterSort(Scan(chunks).messages, EarlierFrame, Towards(direction));
    ScanIsolated(chunks, direction);
  }

  /** Keeping one direction's messages of the final result is the same as
      reassembling only that direction's transfers. */
  lemma DirectionIsolation(chunks: seq<UsbChunk>, direction: string)
    ensures Filter(Reassembled(chunks), Towards(direction)) == Reassembled(OfDirection(chunks, direction))
  {
    var mine := OfDirection(chunks, direction);
    OfDirectionMembers(chunks, direction);
    OfDirectionTwice(chunks, direction);
    ReassembledTowards(chunks, direction);
    ReassembledTowards(mine, direction);
    FrameOrderIsPreorder();
    SortMembers(Scan(mine).messages, EarlierFrame);
    forall m | m in Scan(mine).messages ensures m.direction == direction {
      MessageDirections(mine, m);
    }
    FilterAll(Reassembled(mine), Towards(direction));
  }

  lemma {:induction false} MessageDirections(chunks: seq<UsbChunk>, m: UsbMessage)
    requires m in Scan(chunks).messages
    ensures exists c :: c in chunks && c.direction == m.direction
  {
    var init, c := chunks[..|chunks| - 1], chunks[|chunks| - 1];
    if m in Scan(init).messages {
      MessageDirections(init, m);
    } else {
      var p := Lookup(Scan(init).states, c.direction);
      ScanIsolated(init, c.direction);
      OfDirectionMembers(init, c.direction);
      LaneSound(OfDirection(init, c.direction), c.direction);
      FeedSound(p, c);
      MessagesMembers(Feed(p, c).segments);
    }
  }

  /** Soundness and conservation of the returned list, for every list of
      transfers and every direction: its messages of that direction are the
      emitted entries of a ledger, each message describes its own bytes, and the
      ledger followed by the live bytes spells out the direction's byte stream. */
  lemma ReassemblySound(chunks: seq<UsbChunk>, direction: string) returns (ledger: seq<Segment>, live: seq<Byte>)
    ensures Filter(Reassembled(chunks), Towards(direction)) == Sort(Messages(ledger), EarlierFrame)
    ensures forall s :: s in ledger ==> SoundSegment(s, direction)
    ensures forall m :: m in Reassembled(chunks) && m.direction == direction ==> Faithful(m)
    ensures Bytes(ledger) + live == Stream(OfDirection(chunks, direction))
    ensures Lookup(Scan(chunks).states, direction) == None ==> live == []
    ensures Lookup(Scan(chunks).states, direction).Some? ==>
              live == Lookup(Scan(chunks).states, direction).value.buffer && LiveBuffer(live)
    ensures ProperPrefix(live) <==> |live| < 8 || U32At(live, 4) >= HEADER_SIZE
  {
    var mine := OfDirection(chunks, direction);
    OfDirectionMembers(chunks, direction);
    LaneSound(mine, direction);
    LiveBytesProperPrefixIff(mine, direction);
    ScanIsolated(chunks, direction);
    ReassembledTowards(chunks, direction);
    ledger, live := Lane(mine).segments, LiveBytes(Lane(mine).pending);
    FrameOrderIsPreorder();
    SortMembers(Messages(ledger), EarlierFrame);
    MessagesMembers(ledger);
    FilterMembers(Reassembled(chunks), Towards(direction));
    forall m | m in Reassembled(chunks) && m.direction == direction ensures Faithful(m) {
      assert m in Filter(Reassembled(chunks), Towards(direction));
      assert Emitted(m) in ledger;
    }
  }
}
