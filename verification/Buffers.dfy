/** Fixed-size buffers that C code clears and fills in place. */
module Buffers {
  import opened Prelude

  /** A `uint32_t` behind a pointer. */
  class Cell {
    var value: U32

    constructor (value: U32)
      ensures this.value == value
    {
      this.value := value;
    }
  }

  /** `written` over the beginning of a buffer; what does not fit is not written. */
  function Overwritten(buffer: seq<Byte>, written: seq<Byte>): seq<Byte> {
    if |written| <= |buffer| then written + buffer[|written|..] else written[..|buffer|]
  }

  /** The first `n` bytes cleared. */
  function Cleared(buffer: seq<Byte>, n: nat): seq<Byte> {
    Overwritten(buffer, Zeros(if n <= |buffer| then n else |buffer|))
  }

  lemma OverwrittenAt(buffer: seq<Byte>, written: seq<Byte>)
    ensures |Overwritten(buffer, written)| == |buffer|
    ensures forall i :: 0 <= i < |buffer| ==>
              Overwritten(buffer, written)[i] == if i < |written| then written[i] else buffer[i]
  {
  }

  lemma ClearedWhole(buffer: seq<Byte>)
    ensures Cleared(buffer, |buffer|) == Zeros(|buffer|)
  {
    assert buffer[|buffer|..] == [];
  }

  /** `secure_clear`, `secure_wipe` */
  method SecureClear(buffer: array<Byte>, n: nat)
    requires n <= buffer.Length
    modifies buffer
    ensures buffer[..] == Cleared(old(buffer[..]), n)
  {
    var i := 0;
    while i < n
      invariant 0 <= i <= n
      invariant forall k :: 0 <= k < i ==> buffer[k] == 0
      invariant forall k :: i <= k < buffer.Length ==> buffer[k] == old(buffer[k])
    {
      buffer[i] := 0;
      i := i + 1;
    }
    OverwrittenAt(old(buffer[..]), Zeros(n));
  }

  /** What a callback writes into the buffer it was given. */
  method WriteInto(buffer: array<Byte>, written: seq<Byte>)
    modifies buffer
    ensures buffer[..] == Overwritten(old(buffer[..]), written)
  {
    var i := 0;
    while i < buffer.Length && i < |written|
      invariant 0 <= i <= buffer.Length && i <= |written|
      invariant forall k :: 0 <= k < i ==> buffer[k] == written[k]
      invariant forall k :: i <= k < buffer.Length ==> buffer[k] == old(buffer[k])
    {
      buffer[i] := written[i];
      i := i + 1;
    }
    OverwrittenAt(old(buffer[..]), written);
  }
}
