/** Length-prefixed application messages inside a stream of USB transfers.

    `Drain` and `Feed` say what one transfer does to one direction.  They
    return, beside the new reassembly state, a ledger of what became of the
    bytes: every byte leaves the state inside an `Emitted` message or inside a
    `Discarded` segment. */
module UsbFraming {
  import opened Prelude

  const HEADER_SIZE := 12
  const MAGIC: seq<Byte> := [1, 0, 0, 0]

  datatype UsbChunk = UsbChunk(
    frame: int,
    relativeTime: real,
    direction: string,
    endpoint: int,
    capturedLength: int,
    data: seq<Byte>)

  datatype UsbMessage = UsbMessage(
    frame: int,
    relativeTime: real,
    direction: string,
    endpoint: int,
    capturedLength: nat,
    declaredLength: nat,
    command: nat,
    commandFlags: nat,
    payload: seq<Byte>)

  /** The reassembly state of one direction: provenance stamp and live bytes. */
  datatype Pending = Pending(frame: int, relativeTime: real, endpoint: int, buffer: seq<Byte>)

  datatype Segment = Emitted(message: UsbMessage) | Discarded(bytes: seq<Byte>)

  datatype Drained = Drained(pending: Option<Pending>, segments: seq<Segment>)

  /** `struct.unpack_from ("<H", b, at)` */
  function U16At(b: seq<Byte>, at: nat): nat
    requires at + 2 <= |b|
  {
    b[at] as int + 0x100 * b[at + 1] as int
  }

  /** `struct.unpack_from ("<I", b, at)` */
  function U32At(b: seq<Byte>, at: nat): nat
    requires at + 4 <= |b|
  {
    b[at] as int + 0x100 * b[at + 1] as int + 0x1_0000 * b[at + 2] as int + 0x100_0000 * b[at + 3] as int
  }

  function DeclaredLength(b: seq<Byte>): nat
    requires |b| >= HEADER_SIZE
  {
    U32At(b, 4)
  }

  /** One whole application message. */
  predicate WellFormed(m: seq<Byte>) {
    |m| >= HEADER_SIZE && MAGIC <= m && DeclaredLength(m) == |m|
  }

  /** A message that was cut off before its last byte. */
  ghost predicate ProperPrefix(b: seq<Byte>) {
    exists m: seq<Byte> :: WellFormed(m) && b < m
  }

  /** What the reassembler keeps between transfers. */
  predicate LiveBuffer(b: seq<Byte>) {
    MAGIC <= b && (|b| >= HEADER_SIZE ==> HEADER_SIZE <= DeclaredLength(b) && |b| < DeclaredLength(b))
  }

  function LiveBytes(p: Option<Pending>): seq<Byte> {
    if p.Some? then p.value.buffer else []
  }

  function Stamp(c: UsbChunk, buffer: seq<Byte>): Pending {
    Pending(c.frame, c.relativeTime, c.endpoint, buffer)
  }

  function Decode(p: Pending, direction: string): UsbMessage
    requires |p.buffer| >= HEADER_SIZE && DeclaredLength(p.buffer) <= |p.buffer|
    requires DeclaredLength(p.buffer) >= HEADER_SIZE
  {
    var payload := p.buffer[..DeclaredLength(p.buffer)];
    UsbMessage(p.frame, p.relativeTime, direction, p.endpoint, |payload|, DeclaredLength(p.buffer),
               U16At(payload, 8), U16At(payload, 10), payload)
  }

  function Prepend(s: Segment, d: Drained): Drained {
    Drained(d.pending, [s] + d.segments)
  }

  /** Take whole messages off the front of the live bytes. */
  function Drain(p: Pending, c: UsbChunk): Drained
    decreases |p.buffer|
  {
    if |p.buffer| < HEADER_SIZE then
      Drained(Some(p), [])
    else if !(MAGIC <= p.buffer) || DeclaredLength(p.buffer) < HEADER_SIZE then
      Drained(None, [Discarded(p.buffer)])
    else if |p.buffer| < DeclaredLength(p.buffer) then
      Drained(Some(p), [])
    else
      var rest := p.buffer[DeclaredLength(p.buffer)..];
      var first := Emitted(Decode(p, c.direction));
      if rest == [] then Drained(None, [first])
      else if !(MAGIC <= rest) then Drained(None, [first, Discarded(rest)])
      else Prepend(first, Drain(Stamp(c, rest), c))
  }

  /** One transfer arrives. */
  function Feed(p: Option<Pending>, c: UsbChunk): Drained {
    if p.Some? then Drain(p.value.(buffer := p.value.buffer + c.data), c)
    else if MAGIC <= c.data then Drain(Stamp(c, c.data), c)
    else Drained(None, if c.data == [] then [] else [Discarded(c.data)])
  }

  /** The state and the ledger after all transfers of one direction. */
  function Lane(cs: seq<UsbChunk>): Drained {
    if cs == [] then Drained(None, [])
    else
      var before := Lane(cs[..|cs| - 1]);
      var step := Feed(before.pending, cs[|cs| - 1]);
      Drained(step.pending, before.segments + step.segments)
  }

  function SegmentBytes(s: Segment): seq<Byte> {
    match s
    case Emitted(m) => m.payload
    case Discarded(bytes) => bytes
  }

  function Bytes(segments: seq<Segment>): seq<Byte> {
    if segments == [] then [] else SegmentBytes(segments[0]) + Bytes(segments[1..])
  }

  function Messages(segments: seq<Segment>): seq<UsbMessage> {
    if segments == [] then []
    else (if segments[0].Emitted? then [segments[0].message] else []) + Messages(segments[1..])
  }

  function Payloads(messages: seq<UsbMessage>): seq<seq<Byte>> {
    seq(|messages|, i requires 0 <= i < |messages| => messages[i].payload)
  }

  function Stream(cs: seq<UsbChunk>): seq<Byte> {
    if cs == [] then [] else Stream(cs[..|cs| - 1]) + cs[|cs| - 1].data
  }

  lemma {:induction false} BytesAppend(a: seq<Segment>, b: seq<Segment>)
    ensures Bytes(a + b) == Bytes(a) + Bytes(b)
  {
    if a == [] {
      assert a + b == b;
    } else {
      assert (a + b)[1..] == a[1..] + b;
      BytesAppend(a[1..], b);
    }
  }

  lemma BytesOne(s: Segment)
    ensures Bytes([s]) == SegmentBytes(s)
  {
  }

  lemma {:induction false} MessagesAppend(a: seq<Segment>, b: seq<Segment>)
    ensures Messages(a + b) == Messages(a) + Messages(b)
  {
    if a == [] {
      assert a + b == b;
    } else {
      assert (a + b)[1..] == a[1..] + b && (a + b)[0] == a[0];
      MessagesAppend(a[1..], b);
      var head := if a[0].Emitted? then [a[0].message] else [];
      assert Messages(a) == head + Messages(a[1..]);
      assert (head + Messages(a[1..])) + Messages(b) == head + (Messages(a[1..]) + Messages(b));
    }
  }

  lemma {:induction false} MessagesMembers(segments: seq<Segment>)
    ensures forall m :: m in Messages(segments) <==> Emitted(m) in segments
  {
    if segments != [] {
      MessagesMembers(segments[1..]);
      assert segments == [segments[0]] + segments[1..];
    }
  }

  // ---------------------------------------------------------------------
  // What every run keeps
  // ---------------------------------------------------------------------

  /** A message says of itself what its bytes say. */
  predicate Faithful(m: UsbMessage) {
    && WellFormed(m.payload)
    && m.declaredLength == m.capturedLength == |m.payload|
    && m.command == U16At(m.payload, 8)
    && m.commandFlags == U16At(m.payload, 10)
  }

  predicate SoundSegment(s: Segment, direction: string) {
    match s
    case Emitted(m) => Faithful(m) && m.direction == direction
    case Discarded(bytes) => bytes != []
  }

  /** Either nothing is pending or the live bytes still look like a message. */
  predicate SoundPending(p: Option<Pending>) {
    p.Some? ==> LiveBuffer(p.value.buffer)
  }

  lemma {:induction false} DrainSound(p: Pending, c: UsbChunk)
    requires MAGIC <= p.buffer
    ensures SoundPending(Drain(p, c).pending)
    ensures forall s :: s in Drain(p, c).segments ==> SoundSegment(s, c.direction)
    decreases |p.buffer|
  {
    if |p.buffer| >= HEADER_SIZE && HEADER_SIZE <= DeclaredLength(p.buffer) <= |p.buffer| {
      var rest := p.buffer[DeclaredLength(p.buffer)..];
      assert Faithful(Decode(p, c.direction));
      if MAGIC <= rest {
        DrainSound(Stamp(c, rest), c);
      }
    }
  }

  lemma {:induction false} DrainConserves(p: Pending, c: UsbChunk)
    ensures Bytes(Drain(p, c).segments) + LiveBytes(Drain(p, c).pending) == p.buffer
    decreases |p.buffer|
  {
    var d := Drain(p, c);
    if |p.buffer| >= HEADER_SIZE && MAGIC <= p.buffer {
      if HEADER_SIZE <= DeclaredLength(p.buffer) <= |p.buffer| {
        var n := DeclaredLength(p.buffer);
        var rest := p.buffer[n..];
        assert p.buffer == p.buffer[..n] + rest;
        BytesOne(Emitted(Decode(p, c.direction)));
        BytesAppend([Emitted(Decode(p, c.direction))], d.segments[1..]);
        assert d.segments == [Emitted(Decode(p, c.direction))] + d.segments[1..];
        if MAGIC <= rest {
          DrainConserves(Stamp(c, rest), c);
          assert d.segments[1..] == Drain(Stamp(c, rest), c).segments;
        } else if rest != [] {
          BytesOne(Discarded(rest));
          assert d.segments[1..] == [Discarded(rest)];
        }
      } else {
        BytesOne(Discarded(p.buffer));
      }
    } else {
      BytesOne(Discarded(p.buffer));
    }
  }

  lemma FeedSound(p: Option<Pending>, c: UsbChunk)
    requires SoundPending(p)
    ensures SoundPending(Feed(p, c).pending)
    ensures forall s :: s in Feed(p, c).segments ==> SoundSegment(s, c.direction)
    ensures Bytes(Feed(p, c).segments) + LiveBytes(Feed(p, c).pending) == LiveBytes(p) + c.data
  {
    if p.Some? {
      DrainSound(p.value.(buffer := p.value.buffer + c.data), c);
      DrainConserves(p.value.(buffer := p.value.buffer + c.data), c);
    } else if MAGIC <= c.data {
      DrainSound(Stamp(c, c.data), c);
      DrainConserves(Stamp(c, c.data), c);
    } else if c.data != [] {
      BytesOne(Discarded(c.data));
    }
  }

  lemma Regroup<T>(a: seq<T>, b: seq<T>, c: seq<T>, d: seq<T>, e: seq<T>)
    requires b + c == d + e
    ensures (a + b) + c == (a + d) + e
  {
    assert (a + b) + c == a + (b + c);
    assert (a + d) + e == a + (d + e);
  }

  /** Soundness and conservation for any transfers of one direction: emitted
      messages describe their own bytes, and the ledger followed by the live
      bytes is the direction's byte stream, each byte once and in order. */
  lemma {:induction false} LaneSound(cs: seq<UsbChunk>, direction: string)
    requires forall c :: c in cs ==> c.direction == direction
    ensures SoundPending(Lane(cs).pending)
    ensures forall s :: s in Lane(cs).segments ==> SoundSegment(s, direction)
    ensures Bytes(Lane(cs).segments) + LiveBytes(Lane(cs).pending) == Stream(cs)
  {
    if cs != [] {
      var c := cs[|cs| - 1];
      var before := Lane(cs[..|cs| - 1]);
      LaneSound(cs[..|cs| - 1], direction);
      FeedSound(before.pending, c);
      var step := Feed(before.pending, c);
      BytesAppend(before.segments, step.segments);
      Regroup(Bytes(before.segments), Bytes(step.segments), LiveBytes(step.pending),
              LiveBytes(before.pending), c.data);
    }
  }

  // ---------------------------------------------------------------------
  // When live bytes are a message that was cut off
  // ---------------------------------------------------------------------

  lemma HeaderSurvives(b: seq<Byte>, m: seq<Byte>)
    requires WellFormed(m) && b < m && |b| >= 8
    ensures U32At(b, 4) == |m|
  {
  }

  /** Completes live bytes whose declared length is already known. */
  lemma CompleteDeclared(b: seq<Byte>) returns (m: seq<Byte>)
    requires LiveBuffer(b) && |b| >= 8 && U32At(b, 4) >= HEADER_SIZE
    ensures WellFormed(m) && b < m
  {
    m := b + Zeros(U32At(b, 4) - |b|);
    assert U32At(m, 4) == U32At(b, 4);
    assert MAGIC <= m && m[..|b|] == b;
  }

  /** Completes live bytes in front of the last length byte: with that byte one,
      the declared length is at least 2^24. */
  lemma CompleteLength(b: seq<Byte>) returns (m: seq<Byte>)
    requires LiveBuffer(b) && |b| < 8
    ensures WellFormed(m) && b < m
  {
    var header := b + Zeros(7 - |b|) + [1];
    assert header[..|b|] == b && MAGIC <= header && U32At(header, 4) >= 0x100_0000;
    m := CompleteDeclared(header);
    assert m[..|b|] == header[..|b|];
  }

  /** Live bytes are a proper prefix of some message, unless they already declare
      a length below that of a header. */
  lemma ProperPrefixIff(b: seq<Byte>)
    requires LiveBuffer(b)
    ensures ProperPrefix(b) <==> |b| < 8 || U32At(b, 4) >= HEADER_SIZE
  {
    if |b| < 8 {
      var m := CompleteLength(b);
    } else {
      forall m: seq<Byte> | WellFormed(m) && b < m ensures U32At(b, 4) == |m| {
        HeaderSurvives(b, m);
      }
      if U32At(b, 4) >= HEADER_SIZE {
        var m := CompleteDeclared(b);
      }
    }
  }

  lemma NothingIsProperPrefix()
    ensures ProperPrefix([])
  {
    var m: seq<Byte> := MAGIC + [12, 0, 0, 0] + Zeros(4);
    assert WellFormed(m) && [] < m;
  }

  /** The live bytes after any transfers of one direction are a proper message
      prefix if and only if they do not yet declare a length below twelve; they
      can do so only while there are eight to eleven of them. */
  lemma LiveBytesProperPrefixIff(cs: seq<UsbChunk>, direction: string)
    requires forall c :: c in cs ==> c.direction == direction
    ensures var live := LiveBytes(Lane(cs).pending);
            && (ProperPrefix(live) <==> |live| < 8 || U32At(live, 4) >= HEADER_SIZE)
            && (!ProperPrefix(live) ==> 8 <= |live| < HEADER_SIZE)
  {
    LaneSound(cs, direction);
    var p := Lane(cs).pending;
    if p.Some? {
      ProperPrefixIff(p.value.buffer);
    } else {
      NothingIsProperPrefix();
    }
  }

  const SHORT_HEADER: seq<Byte> := [1, 0, 0, 0, 0, 0, 0, 0]

  /** Such live bytes exist: one transfer of a magic and a declared length of zero. */
  lemma LiveBytesMayDeclareTooLittle(c: UsbChunk)
    requires c.data == SHORT_HEADER
    ensures LiveBytes(Lane([c]).pending) == Stream([c]) == SHORT_HEADER
    ensures !ProperPrefix(SHORT_HEADER)
  {
    OneTransfer(c);
    ProperPrefixIff(SHORT_HEADER);
  }

  lemma OneTransfer(c: UsbChunk)
    requires MAGIC <= c.data && |c.data| < HEADER_SIZE
    ensures Stream([c]) == c.data && Lane([c]).pending == Some(Stamp(c, c.data))
  {
    assert [c][..0] == [] && Lane([]) == Drained(None, []) && Stream([]) == [];
  }

  // ---------------------------------------------------------------------
  // The magic re-check at the head of the inner loop is dead code
  // ---------------------------------------------------------------------

  /** `Drain` without the check that the live bytes start with the magic. */
  function LeanDrain(p: Pending, c: UsbChunk): Drained
    decreases |p.buffer|
  {
    if |p.buffer| < HEADER_SIZE then
      Drained(Some(p), [])
    else if DeclaredLength(p.buffer) < HEADER_SIZE then
      Drained(None, [Discarded(p.buffer)])
    else if |p.buffer| < DeclaredLength(p.buffer) then
      Drained(Some(p), [])
    else
      var rest := p.buffer[DeclaredLength(p.buffer)..];
      var first := Emitted(Decode(p, c.direction));
      if rest == [] then Drained(None, [first])
      else if !(MAGIC <= rest) then Drained(None, [first, Discarded(rest)])
      else Prepend(first, LeanDrain(Stamp(c, rest), c))
  }

  lemma {:induction false} LeanDrainSame(p: Pending, c: UsbChunk)
    requires MAGIC <= p.buffer
    ensures LeanDrain(p, c) == Drain(p, c)
    decreases |p.buffer|
  {
    if |p.buffer| >= HEADER_SIZE && HEADER_SIZE <= DeclaredLength(p.buffer) <= |p.buffer| {
      var rest := p.buffer[DeclaredLength(p.buffer)..];
      if MAGIC <= rest {
        LeanDrainSame(Stamp(c, rest), c);
      }
    }
  }

  function LeanLane(cs: seq<UsbChunk>): Drained {
    if cs == [] then Drained(None, [])
    else
      var before := LeanLane(cs[..|cs| - 1]);
      var c := cs[|cs| - 1];
      var step :=
        if before.pending.Some? then
          LeanDrain(before.pending.value.(buffer := before.pending.value.buffer + c.data), c)
        else if MAGIC <= c.data then LeanDrain(Stamp(c, c.data), c)
        else Drained(None, if c.data == [] then [] else [Discarded(c.data)]);
      Drained(step.pending, before.segments + step.segments)
  }

  /** Removing the re-check changes no run. */
  lemma {:induction false} MagicRecheckUnreachable(cs: seq<UsbChunk>, direction: string)
    requires forall c :: c in cs ==> c.direction == direction
    ensures LeanLane(cs) == Lane(cs)
  {
    if cs != [] {
      var c := cs[|cs| - 1];
      var init := cs[..|cs| - 1];
      MagicRecheckUnreachable(init, direction);
      LaneSound(init, direction);
      var p := Lane(init).pending;
      if p.Some? {
        LeanDrainSame(p.value.(buffer := p.value.buffer + c.data), c);
      } else if MAGIC <= c.data {
        LeanDrainSame(Stamp(c, c.data), c);
      }
    }
  }
}
