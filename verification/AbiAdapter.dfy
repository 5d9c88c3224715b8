/** The adapter in front of the native ABI: it refuses malformed calls and
    clears whatever a native function claims to have written past a capacity. */
module AbiAdapter {
  import opened Prelude
  import opened Buffers

  const ID_SIZE := 20
  const BUFFERED_FEATURES := 3
  const TEMPLATE_FEATURES := 4
  const FEATURE_CAPACITY := 0x258
  const TEMPLATE_CAPACITY := 0x708
  const INVALID_PARAMETER := 0x47
  const MAX_COMMIT_OUTPUT := 0x18000
  const MAX_INPUT1 := 0x1064

  /** A native call as the native function sees it: bytes behind every input
      pointer, and the capacity of the output. */
  datatype Request =
    | CaptureResult(handle: U32, selector: Byte, captureId: seq<Byte>, capacity: U32)
    | CreateTemplate(handle: U32, sizes: seq<U32>, features: seq<seq<Byte>>, capacity: U32)
    | CommitEnrollment(handle: U32, token: seq<Byte>, input0: seq<Byte>, input1: seq<Byte>,
                       capacity: U32, hasOutput: bool, hasResult: bool)

  /** A native answer: any status, any size, any bytes, any result word. */
  datatype Reply = Reply(status: U32, size: U32, written: seq<Byte>, result: Option<U32>)

  /** Native functions answer as they like, given all calls so far. */
  type Native = (seq<Request>, Request) -> Reply

  /** What the adapter reports and leaves in the output buffer. */
  datatype Report = Report(status: U32, size: U32, output: seq<Byte>)

  /** The reply after the capacity check. */
  function Guard(capacity: U32, limit: U32, reply: Reply, output: seq<Byte>): Report {
    var after := Overwritten(output, if |reply.written| <= capacity then reply.written else reply.written[..capacity]);
    if reply.size > capacity || reply.size > limit then Report(INVALID_PARAMETER, 0, Cleared(after, capacity))
    else Report(reply.status, reply.size, after)
  }

  /** A reported size never exceeds the capacity, and an overrun is an error that
      leaves nothing behind. */
  lemma GuardBounds(capacity: U32, limit: U32, reply: Reply, output: seq<Byte>)
    requires capacity <= limit && capacity == |output|
    ensures var r := Guard(capacity, limit, reply, output);
            && r.size <= capacity && |r.output| == |output|
            && (reply.size > capacity <==> r != Report(reply.status, reply.size, Overwritten(output, reply.written)))
            && (reply.size > capacity ==> r == Report(INVALID_PARAMETER, 0, Zeros(|output|)))
            && (r.status == 0 && r.size == 0 <==> reply.status == 0 && reply.size == 0)
  {
    var after := Overwritten(output, if |reply.written| <= capacity then reply.written else reply.written[..capacity]);
    assert after == Overwritten(output, reply.written);
    ClearedWhole(after);
  }

  datatype AbiError = AbiNone | AbiInvalidArgument | AbiMockModeRequired

  /** A caller's configuration; callbacks may be missing. */
  datatype AbiConfig = AbiConfig(
    mockMode: bool,
    native: Native,
    hasCaptureResult: bool,
    hasCreateTemplate: bool,
    hasCommitEnrollment: bool)

  /** The first `n` bytes behind a pointer. */
  function Prefix(a: array<Byte>, n: nat): seq<Byte>
    reads a
    requires n <= a.Length
  {
    a[..n]
  }

  predicate SizeAllowed(size: U32) {
    0 < size <= FEATURE_CAPACITY
  }

  class Adapter {
    var native: Native
    var hasCaptureResult: bool
    var hasCreateTemplate: bool
    var hasCommitEnrollment: bool
    var initialized: bool
    /** Every native call made through this adapter. */
    var requests: seq<Request>

    /** Memory that no initialisation has touched. */
    constructor (native: Native)
      ensures Valid() && !initialized && this.native == native && requests == []
    {
      this.native := native;
      hasCaptureResult, hasCreateTemplate, hasCommitEnrollment, initialized := false, false, false, false;
      requests := [];
    }

    /** All callbacks are set, or none is. */
    predicate Valid()
      reads this
    {
      hasCaptureResult == initialized && hasCreateTemplate == initialized && hasCommitEnrollment == initialized
    }

    method Clear()
      modifies this
      ensures native == old(native)
      ensures Valid() && !initialized
      ensures requests == old(requests)
    {
      hasCaptureResult, hasCreateTemplate, hasCommitEnrollment, initialized := false, false, false, false;
    }

    /** Write the native answer to the caller's cell and buffer, unless it
        overruns them. */
    method Deliver(reply: Reply, capacity: U32, limit: U32, size: Cell, output: array<Byte>) returns (status: U32)
      requires capacity <= output.Length
      modifies size, output
      ensures Report(status, size.value, output[..]) == Guard(capacity, limit, reply, old(output[..]))
    {
      WriteInto(output, if |reply.written| <= capacity then reply.written else reply.written[..capacity]);
      size.value := reply.size;
      if size.value > capacity || size.value > limit {
        SecureClear(output, capacity);
        size.value := 0;
        return INVALID_PARAMETER;
      }
      status := reply.status;
    }

    method CaptureGetResult(handle: U32, selector: Byte, captureId: array?<Byte>, size: Cell?, output: array?<Byte>)
        returns (status: U32)
      requires captureId != null ==> captureId.Length >= ID_SIZE
      requires size != null && output != null && size.value <= FEATURE_CAPACITY ==> size.value <= output.Length
      modifies this`requests, size, output
      ensures var accepted := old(initialized && hasCaptureResult && captureId != null && size != null && output != null
                                  && SizeAllowed(size.value));
              if accepted then
                var request := CaptureResult(handle, selector, old(Prefix(captureId, ID_SIZE)), old(size.value));
                && requests == old(requests) + [request]
                && Report(status, size.value, output[..]) ==
                   Guard(old(size.value), FEATURE_CAPACITY, native(old(requests), request), old(output[..]))
              else
                && status == INVALID_PARAMETER && requests == old(requests)
                && (size != null ==> size.value == old(size.value))
                && (output != null ==> output[..] == old(output[..]))
    {
      if !initialized || !hasCaptureResult || captureId == null || size == null || output == null {
        return INVALID_PARAMETER;
      }
      var capacity := size.value;
      if capacity == 0 || capacity > FEATURE_CAPACITY {
        return INVALID_PARAMETER;
      }
      var request := CaptureResult(handle, selector, Prefix(captureId, ID_SIZE), capacity);
      var reply := native(requests, request);
      requests := requests + [request];
      status := Deliver(reply, capacity, FEATURE_CAPACITY, size, output);
    }

    /** `create_template`: four features, each with its size and pointer. */
    method CreateTemplate(handle: U32, sizes: Option<seq<U32>>, features: Option<seq<array?<Byte>>>,
                          size: Cell?, output: array?<Byte>)
        returns (status: U32)
      requires sizes.Some? ==> |sizes.value| == TEMPLATE_FEATURES
      requires features.Some? ==> |features.value| == TEMPLATE_FEATURES
      requires sizes.Some? && features.Some? ==> Readable(sizes.value, features.value)
      requires size != null && output != null && size.value <= TEMPLATE_CAPACITY ==> size.value <= output.Length
      modifies this`requests, size, output
      ensures var accepted := old(initialized && hasCreateTemplate && sizes.Some? && features.Some?
                                  && size != null && output != null
                                  && FeaturesValid(sizes.value, features.value)
                                  && 0 < size.value <= TEMPLATE_CAPACITY);
              if accepted then
                var request := Request.CreateTemplate(handle, sizes.value,
                                                      old(FeatureBytes(sizes.value, features.value)), old(size.value));
                && requests == old(requests) + [request]
                && Report(status, size.value, output[..]) ==
                   Guard(old(size.value), TEMPLATE_CAPACITY, native(old(requests), request), old(output[..]))
              else
                && status == INVALID_PARAMETER && requests == old(requests)
                && (size != null ==> size.value == old(size.value))
                && (output != null ==> output[..] == old(output[..]))
    {
      if !initialized || !hasCreateTemplate || sizes.None? || features.None? || size == null || output == null {
        return INVALID_PARAMETER;
      }
      var index := 0;
      while index < TEMPLATE_FEATURES
        invariant 0 <= index <= TEMPLATE_FEATURES
        invariant forall i :: 0 <= i < index ==> SizeAllowed(sizes.value[i]) && features.value[i] != null
      {
        if sizes.value[index] == 0 || sizes.value[index] > FEATURE_CAPACITY || features.value[index] == null {
          return INVALID_PARAMETER;
        }
        index := index + 1;
      }
      var capacity := size.value;
      if capacity == 0 || capacity > TEMPLATE_CAPACITY {
        return INVALID_PARAMETER;
      }
      var request := Request.CreateTemplate(handle, sizes.value, FeatureBytes(sizes.value, features.value), capacity);
      var reply := native(requests, request);
      requests := requests + [request];
      status := Deliver(reply, capacity, TEMPLATE_CAPACITY, size, output);
    }

    /** `commit_enrollment`: a token, two optional inputs, an optional output and
        an optional result word. */
    method CommitEnrollment(handle: U32, token: array?<Byte>, input0: Option<seq<Byte>>, input0Size: U32,
                            input1: Option<seq<Byte>>, input1Size: U32,
                            size: Cell?, output: array?<Byte>, result: Cell?)
        returns (status: U32)
      requires token != null ==> token.Length >= ID_SIZE
      requires input0.Some? ==> input0Size <= |input0.value|
      requires input1.Some? ==> input1Size <= |input1.value|
      requires size != null && output != null && size.value <= MAX_COMMIT_OUTPUT ==> size.value <= output.Length
      requires size == null || size != result
      modifies this`requests, size, output, result
      ensures var accepted := old(initialized && hasCommitEnrollment && token != null && size != null
                                  && CommitValid(input0, input0Size, input1, input1Size, size.value,
                                                 output != null, result != null));
              if accepted then
                var request := Request.CommitEnrollment(handle, old(Prefix(token, ID_SIZE)),
                                                        Input(input0, input0Size), Input(input1, input1Size),
                                                        old(size.value), output != null, result != null);
                var reply := native(old(requests), request);
                && requests == old(requests) + [request]
                && Report(status, size.value, if output == null then [] else output[..]) ==
                   Guard(old(size.value), MAX_COMMIT_OUTPUT, reply, old(if output == null then [] else output[..]))
                && (result != null ==>
                      result.value == if reply.result.Some? then reply.result.value else old(result.value))
              else
                && status == INVALID_PARAMETER && requests == old(requests)
                && (size != null ==> size.value == old(size.value))
                && (output != null ==> output[..] == old(output[..]))
                && (result != null ==> result.value == old(result.value))
    {
      if !initialized || !hasCommitEnrollment || token == null || size == null
         || (input0Size != 0 && input0.None?) || (input1Size != 0 && input1.None?) || input1Size > MAX_INPUT1 {
        return INVALID_PARAMETER;
      }
      var capacity := size.value;
      if (capacity != 0 && (output == null || capacity > MAX_COMMIT_OUTPUT)) || (capacity == 0 && result == null) {
        return INVALID_PARAMETER;
      }
      var request := Request.CommitEnrollment(handle, Prefix(token, ID_SIZE), Input(input0, input0Size),
                                              Input(input1, input1Size), capacity, output != null, result != null);
      var reply := native(requests, request);
      requests := requests + [request];
      if result != null && reply.result.Some? {
        result.value := reply.result.value;
      }
      if output != null {
        status := Deliver(reply, capacity, MAX_COMMIT_OUTPUT, size, output);
        return;
      }
      size.value := reply.size;
      if size.value > capacity || size.value > MAX_COMMIT_OUTPUT {
        size.value := 0;
        return INVALID_PARAMETER;
      }
      status := reply.status;
    }
  }

  /** `linux_abi_mock_init`: a refusal names the first fault and leaves a cleared
      adapter, whatever it held before. */
  method Init(adapter: Adapter?, config: Option<AbiConfig>) returns (ok: bool, error: AbiError)
    modifies adapter
    ensures error == AbiInvalidArgument <==>
            adapter == null || config.None? || !config.value.hasCaptureResult || !config.value.hasCreateTemplate
            || !config.value.hasCommitEnrollment
    ensures error == AbiMockModeRequired <==> error != AbiInvalidArgument && !config.value.mockMode
    ensures ok <==> error == AbiNone
    ensures adapter != null ==>
              && adapter.Valid() && adapter.initialized == ok && adapter.requests == old(adapter.requests)
              && (ok ==> adapter.native == config.value.native)
  {
    error := AbiNone;
    if adapter == null || config.None? || !config.value.hasCaptureResult || !config.value.hasCreateTemplate
       || !config.value.hasCommitEnrollment {
      error := AbiInvalidArgument;
    } else if !config.value.mockMode {
      error := AbiMockModeRequired;
    }
    if error != AbiNone {
      if adapter != null {
        adapter.Clear();
      }
      return false, error;
    }
    adapter.Clear();
    adapter.native := config.value.native;
    adapter.hasCaptureResult, adapter.hasCreateTemplate, adapter.hasCommitEnrollment := true, true, true;
    adapter.initialized := true;
    ok := true;
  }

  function Input(pointer: Option<seq<Byte>>, size: U32): seq<Byte>
    requires pointer.Some? ==> size <= |pointer.value|
  {
    if pointer.None? then [] else pointer.value[..size]
  }

  predicate CommitValid(input0: Option<seq<Byte>>, input0Size: U32, input1: Option<seq<Byte>>, input1Size: U32,
                        capacity: U32, hasOutput: bool, hasResult: bool)
  {
    && (input0Size != 0 ==> input0.Some?) && (input1Size != 0 ==> input1.Some?) && input1Size <= MAX_INPUT1
    && (if capacity != 0 then hasOutput && capacity <= MAX_COMMIT_OUTPUT else hasResult)
  }

  /** Every allowed size is backed by as many bytes. */
  predicate Readable(sizes: seq<U32>, features: seq<array?<Byte>>)
    requires |sizes| == |features| == TEMPLATE_FEATURES
  {
    forall i :: 0 <= i < TEMPLATE_FEATURES ==>
      features[i] != null && SizeAllowed(sizes[i]) ==> sizes[i] <= features[i].Length
  }

  predicate FeaturesValid(sizes: seq<U32>, features: seq<array?<Byte>>)
    requires |sizes| == |features| == TEMPLATE_FEATURES
  {
    forall i :: 0 <= i < TEMPLATE_FEATURES ==> SizeAllowed(sizes[i]) && features[i] != null
  }

  /** The bytes behind the four feature pointers. */
  function FeatureBytes(sizes: seq<U32>, features: seq<array?<Byte>>): seq<seq<Byte>>
    requires |sizes| == |features| == TEMPLATE_FEATURES
    requires FeaturesValid(sizes, features) && Readable(sizes, features)
    reads features
  {
    [Prefix(features[0], sizes[0]), Prefix(features[1], sizes[1]),
     Prefix(features[2], sizes[2]), Prefix(features[3], sizes[3])]
  }
}
