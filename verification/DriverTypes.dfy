/** The vendor driver's interface as the interposer sees it. */
module DriverTypes {
  import opened Prelude

  const STATUS_SUCCESS := 0x00
  const STATUS_UPDATE_AGAIN := 0x59
  const STATUS_BAD_CAPTURE := 0x89
  const STATUS_CAPTURE_FAILED := 0xa4
  const STATUS_ENROLL_MORE := 0x8f
  const STATUS_EXPERIMENT_FAILURE := 0x100003

  /** Size of an enrollment ID and of the enrollment output. */
  const VALUE_SIZE := 20

  datatype Pointer = Null | At(address: nat)

  /** Process memory, one entry per buffer. */
  type Memory = map<nat, seq<Byte>>

  datatype UpdateArgs = UpdateArgs(
    handle: U32,
    enrollmentId: Pointer,
    auxiliarySize: U32,
    auxiliary: Pointer,
    completion: Pointer,
    dataOut: Pointer,
    valueOut: Pointer)

  /** One native `UpdateEnrollment`: what it was given, what it left behind. */
  datatype Observation = Observation(args: UpdateArgs, before: Memory, status: U32, after: Memory)

  /** The first `n` bytes behind a pointer. */
  function Peek(memory: Memory, p: Pointer, n: nat): seq<Byte> {
    if p.Null? || p.address !in memory then []
    else if |memory[p.address]| <= n then memory[p.address]
    else memory[p.address][..n]
  }

  function PeekByte(memory: Memory, p: Pointer): Byte {
    var b := Peek(memory, p, 1);
    if b == [] then 0 else b[0]
  }

  /** The buffers a native update may write to. */
  function Reachable(args: UpdateArgs): set<nat> {
    set p | p in [args.enrollmentId, args.auxiliary, args.completion, args.dataOut, args.valueOut] && p.At? :: p.address
  }

  /** The driver writes any bytes into the buffers it is given, never past
      their ends. */
  function Write(memory: Memory, args: UpdateArgs, written: Memory): Memory {
    map a | a in memory ::
      if a in Reachable(args) && a in written && |written[a]| == |memory[a]| then written[a] else memory[a]
  }

  function IsZero(bytes: seq<Byte>): bool {
    forall i :: 0 <= i < |bytes| ==> bytes[i] == 0
  }
}
