/** `collect_update_exchanges`: pairing update requests with responses. */
module UpdateExchanges {
  import opened Prelude
  import opened UsbFraming
  import opened OffsetRanges

  const CAPTURE_COMMAND := 0x66
  const UPDATE_COMMAND := 0x6c

  datatype UpdateExchange = UpdateExchange(
    request: UsbMessage,
    response: Option<UsbMessage>,
    precedingCommands: seq<nat>,
    captureResponse: Option<UsbMessage>)

  predicate IsRequest(m: UsbMessage) {
    m.direction == "OUT" && m.command == UPDATE_COMMAND
  }

  predicate IsResponse(m: UsbMessage) {
    m.direction == "IN" && m.command == UPDATE_COMMAND
  }

  predicate IsCapture(m: UsbMessage) {
    m.direction == "IN" && m.command == CAPTURE_COMMAND
  }

  /** `next ((candidate for candidate in messages[from :] if IsResponse (candidate)), None)` */
  function NextResponse(messages: seq<UsbMessage>, from: nat): Option<nat>
    decreases |messages| - from
  {
    if from >= |messages| then None
    else if IsResponse(messages[from]) then Some(from)
    else NextResponse(messages, from + 1)
  }

  /** The last capture response of `messages[from..to]`. */
  function LastCapture(messages: seq<UsbMessage>, from: nat, end: nat): Option<nat>
    requires from <= end <= |messages|
    decreases end
  {
    if from == end then None
    else if IsCapture(messages[end - 1]) then Some(end - 1)
    else LastCapture(messages, from, end - 1)
  }

  function OutCommands(interval: seq<UsbMessage>): seq<nat> {
    if interval == [] then []
    else (if interval[0].direction == "OUT" then [interval[0].command] else []) + OutCommands(interval[1..])
  }

  function At(messages: seq<UsbMessage>, i: Option<nat>): Option<UsbMessage> {
    if i.Some? && i.value < |messages| then Some(messages[i.value]) else None
  }

  lemma {:induction false} NextResponseExact(messages: seq<UsbMessage>, from: nat)
    ensures match NextResponse(messages, from)
            case Some(j) => from <= j < |messages| && IsResponse(messages[j]) &&
                            forall i :: from <= i < j ==> !IsResponse(messages[i])
            case None => forall i :: from <= i < |messages| ==> !IsResponse(messages[i])
    decreases |messages| - from
  {
    if from < |messages| && !IsResponse(messages[from]) {
      NextResponseExact(messages, from + 1);
    }
  }

  lemma {:induction false} LastCaptureExact(messages: seq<UsbMessage>, from: nat, end: nat)
    requires from <= end <= |messages|
    ensures match LastCapture(messages, from, end)
            case Some(j) => from <= j < end && IsCapture(messages[j]) &&
                            forall i :: j < i < end ==> !IsCapture(messages[i])
            case None => forall i :: from <= i < end ==> !IsCapture(messages[i])
    decreases end
  {
    if from < end && !IsCapture(messages[end - 1]) {
      LastCaptureExact(messages, from, end - 1);
    }
  }

  function RequestAt(messages: seq<UsbMessage>): int -> bool {
    (i: int) => 0 <= i < |messages| && IsRequest(messages[i])
  }

  /** Positions of the update requests. */
  function Requests(messages: seq<UsbMessage>): seq<int> {
    Select(|messages|, RequestAt(messages))
  }

  /** Where the interval in front of request `k` starts. */
  function IntervalStart(requests: seq<int>, k: nat): int
    requires k <= |requests|
  {
    if k == 0 then 0 else requests[k - 1] + 1
  }

  ghost predicate Positions(messages: seq<UsbMessage>, requests: seq<int>) {
    Increasing(requests) && forall k :: 0 <= k < |requests| ==> 0 <= requests[k] < |messages|
  }

  lemma RequestsArePositions(messages: seq<UsbMessage>)
    ensures Positions(messages, Requests(messages))
    ensures forall k :: 0 <= k < |Requests(messages)| ==> IsRequest(messages[Requests(messages)[k]])
    ensures forall i :: 0 <= i < |messages| && IsRequest(messages[i]) ==> i in Requests(messages)
  {
    SelectExact(|messages|, RequestAt(messages));
    forall k | 0 <= k < |Requests(messages)|
      ensures 0 <= Requests(messages)[k] < |messages| && IsRequest(messages[Requests(messages)[k]])
    {
      assert Requests(messages)[k] in Requests(messages);
    }
  }

  /** The position of the response to request `k`. */
  function ResponseOf(messages: seq<UsbMessage>, requests: seq<int>, k: nat): Option<nat>
    requires k < |requests| && requests[k] >= 0
  {
    NextResponse(messages, requests[k] + 1)
  }

  function ExchangeAt(messages: seq<UsbMessage>, start: int, i: int): UpdateExchange
    requires 0 <= start <= i < |messages|
  {
    UpdateExchange(messages[i],
                   At(messages, NextResponse(messages, i + 1)),
                   OutCommands(messages[start..i]),
                   At(messages, LastCapture(messages, start, i)))
  }

  /** One exchange per request, each with the interval since the one before. */
  ghost function ExchangesFor(messages: seq<UsbMessage>, requests: seq<int>): seq<UpdateExchange>
    requires Positions(messages, requests)
  {
    if requests == [] then []
    else
      var k := |requests| - 1;
      ExchangesFor(messages, requests[..k]) + [ExchangeAt(messages, IntervalStart(requests, k), requests[k])]
  }

  lemma {:induction false} ExchangesForAt(messages: seq<UsbMessage>, requests: seq<int>, k: nat)
    requires Positions(messages, requests) && k < |requests|
    ensures |ExchangesFor(messages, requests)| == |requests|
    ensures ExchangesFor(messages, requests)[k] == ExchangeAt(messages, IntervalStart(requests, k), requests[k])
  {
    if k < |requests| - 1 {
      ExchangesForAt(messages, requests[..|requests| - 1], k);
    } else if k > 0 {
      ExchangesForAt(messages, requests[..k], 0);
    }
  }

  lemma PositionsSnoc(messages: seq<UsbMessage>, requests: seq<int>, i: nat)
    requires Positions(messages, requests) && i < |messages|
    requires forall k :: 0 <= k < |requests| ==> requests[k] < i
    ensures Positions(messages, requests + [i])
  {
  }

  lemma ExchangesForSnoc(messages: seq<UsbMessage>, requests: seq<int>, more: seq<int>, i: nat)
    requires Positions(messages, requests) && Positions(messages, more) && more == requests + [i]
    ensures 0 <= IntervalStart(requests, |requests|) <= i < |messages|
    ensures ExchangesFor(messages, more) ==
            ExchangesFor(messages, requests) + [ExchangeAt(messages, IntervalStart(requests, |requests|), i)]
  {
    assert more[..|requests|] == requests && more[|requests|] == i;
    assert IntervalStart(more, |requests|) == IntervalStart(requests, |requests|);
  }

  /** The loop has dealt with the first `index` messages. */
  ghost predicate Progress(messages: seq<UsbMessage>, index: int, previous: int, exchanges: seq<UpdateExchange>) {
    && 0 <= index <= |messages|
    && var seen := Select(index, RequestAt(messages));
    && Positions(messages, seen) && (forall k :: 0 <= k < |seen| ==> seen[k] < index)
    && previous + 1 == IntervalStart(seen, |seen|)
    && exchanges == ExchangesFor(messages, seen)
  }

  lemma ProgressSkip(messages: seq<UsbMessage>, index: int, previous: int, exchanges: seq<UpdateExchange>)
    requires Progress(messages, index, previous, exchanges)
    requires index < |messages| && !IsRequest(messages[index])
    ensures Progress(messages, index + 1, previous, exchanges)
  {
    assert !RequestAt(messages)(index);
    assert Select(index + 1, RequestAt(messages)) == Select(index, RequestAt(messages));
  }

  lemma ProgressTake(messages: seq<UsbMessage>, index: int, previous: int, exchanges: seq<UpdateExchange>)
    requires Progress(messages, index, previous, exchanges)
    requires index < |messages| && IsRequest(messages[index])
    ensures 0 <= previous + 1 <= index
    ensures Progress(messages, index + 1, index, exchanges + [ExchangeAt(messages, previous + 1, index)])
  {
    var seen := Select(index, RequestAt(messages));
    assert RequestAt(messages)(index);
    assert Select(index + 1, RequestAt(messages)) == seen + [index];
    PositionsSnoc(messages, seen, index);
    ExchangesForSnoc(messages, seen, seen + [index], index);
  }

  method CollectUpdateExchanges(messages: seq<UsbMessage>) returns (exchanges: seq<UpdateExchange>)
    ensures Positions(messages, Requests(messages))
    ensures exchanges == ExchangesFor(messages, Requests(messages))
  {
    exchanges := [];
    var previous := -1;
    for index := 0 to |messages|
      invariant Progress(messages, index, previous, exchanges)
    {
      if !IsRequest(messages[index]) {
        ProgressSkip(messages, index, previous, exchanges);
        continue;
      }
      ProgressTake(messages, index, previous, exchanges);
      var response := At(messages, NextResponse(messages, index + 1));
      var captureResponse := At(messages, LastCapture(messages, previous + 1, index));
      var precedingCommands := OutCommands(messages[previous + 1..index]);
      exchanges := exchanges + [UpdateExchange(messages[index], response, precedingCommands, captureResponse)];
      previous := index;
    }
  }

  // ---------------------------------------------------------------------
  // What the pairing means
  // ---------------------------------------------------------------------

  /** The response is the first later incoming update and is missing only when
      there is none; the capture is the last incoming one of the interval. */
  lemma ExchangeMeaning(messages: seq<UsbMessage>, requests: seq<int>, k: nat)
    requires Positions(messages, requests) && k < |requests|
    ensures |ExchangesFor(messages, requests)| == |requests|
    ensures var e := ExchangesFor(messages, requests)[k];
            var start, i := IntervalStart(requests, k), requests[k];
            && e.request == messages[i]
            && (match ResponseOf(messages, requests, k)
                case Some(j) => i < j < |messages| && e.response == Some(messages[j]) && IsResponse(messages[j]) &&
                                forall l :: i < l < j ==> !IsResponse(messages[l])
                case None => e.response == None && forall l :: i < l < |messages| ==> !IsResponse(messages[l]))
            && (match e.captureResponse
                case Some(c) => exists j :: start <= j < i && messages[j] == c && IsCapture(c) &&
                                  forall l :: j < l < i ==> !IsCapture(messages[l])
                case None => forall l :: start <= l < i ==> !IsCapture(messages[l]))
  {
    ExchangesForAt(messages, requests, k);
    NextResponseExact(messages, requests[k] + 1);
    LastCaptureExact(messages, IntervalStart(requests, k), requests[k]);
  }

  /** Interval and request of the first `k` exchanges, laid end to end. */
  ghost function Tiles(messages: seq<UsbMessage>, requests: seq<int>, k: nat): seq<UsbMessage>
    requires k <= |requests| && Positions(messages, requests)
  {
    if k == 0 then []
    else
      Tiles(messages, requests, k - 1)
      + messages[IntervalStart(requests, k - 1)..requests[k - 1]] + [messages[requests[k - 1]]]
  }

  /** The intervals and their requests tile the list up to the last request. */
  lemma {:induction false} IntervalsTile(messages: seq<UsbMessage>, requests: seq<int>, k: nat)
    requires k <= |requests| && Positions(messages, requests)
    ensures IntervalStart(requests, k) <= |messages|
    ensures Tiles(messages, requests, k) == messages[..IntervalStart(requests, k)]
  {
    if k > 0 {
      IntervalsTile(messages, requests, k - 1);
    }
  }

  lemma {:induction false} OutCommandsAvoidUpdates(interval: seq<UsbMessage>)
    requires forall m :: m in interval ==> !IsRequest(m)
    ensures UPDATE_COMMAND !in OutCommands(interval)
  {
    if interval != [] {
      assert interval[0] in interval;
      OutCommandsAvoidUpdates(interval[1..]);
    }
  }

  lemma NoRequestBetween(messages: seq<UsbMessage>, requests: seq<int>, k: nat, j: int)
    requires Positions(messages, requests) && k < |requests|
    requires IntervalStart(requests, k) <= j < requests[k]
    ensures j !in requests
  {
  }

  /** The commands in front of a request never include another update. */
  lemma NoUpdateAmongPreceding(messages: seq<UsbMessage>, k: nat)
    requires k < |Requests(messages)| && Positions(messages, Requests(messages))
    ensures var requests := Requests(messages);
            UPDATE_COMMAND !in ExchangeAt(messages, IntervalStart(requests, k), requests[k]).precedingCommands
  {
    var requests := Requests(messages);
    RequestsArePositions(messages);
    var start, i := IntervalStart(requests, k), requests[k];
    forall m | m in messages[start..i] ensures !IsRequest(m) {
      var j :| start <= j < i && messages[j] == m;
      NoRequestBetween(messages, requests, k, j);
    }
    OutCommandsAvoidUpdates(messages[start..i]);
  }

  /** Missing responses form a suffix, and responses do not go backwards. */
  lemma ResponsesMonotone(messages: seq<UsbMessage>, requests: seq<int>, j: nat, k: nat)
    requires Positions(messages, requests) && j <= k < |requests|
    ensures ResponseOf(messages, requests, k).Some? ==>
            && ResponseOf(messages, requests, j).Some?
            && ResponseOf(messages, requests, j).value <= ResponseOf(messages, requests, k).value
  {
    assert requests[j] <= requests[k];
    NextResponseExact(messages, requests[j] + 1);
    NextResponseExact(messages, requests[k] + 1);
  }

  ghost predicate Separated(messages: seq<UsbMessage>, from: int, end: int)
    requires 0 <= from && end <= |messages|
  {
    exists m :: from < m < end && IsResponse(messages[m])
  }

  lemma DistinctIffSeparated(messages: seq<UsbMessage>, requests: seq<int>, k: nat)
    requires Positions(messages, requests) && k + 1 < |requests|
    requires ResponseOf(messages, requests, k + 1).Some?
    requires !IsResponse(messages[requests[k + 1]])
    ensures ResponseOf(messages, requests, k) != ResponseOf(messages, requests, k + 1) <==>
            Separated(messages, requests[k], requests[k + 1])
  {
    assert requests[k] < requests[k + 1];
    NextResponseExact(messages, requests[k] + 1);
    NextResponseExact(messages, requests[k + 1] + 1);
  }

  /** No two requests share a response. */
  ghost predicate DistinctResponses(messages: seq<UsbMessage>, requests: seq<int>)
    requires Positions(messages, requests)
  {
    forall j, k :: 0 <= j < k < |requests| && ResponseOf(messages, requests, k).Some? ==>
      ResponseOf(messages, requests, j) != ResponseOf(messages, requests, k)
  }

  /** An incoming update lies between any two consecutive answered requests. */
  ghost predicate AllSeparated(messages: seq<UsbMessage>, requests: seq<int>)
    requires Positions(messages, requests)
  {
    forall j, k :: 0 <= j < k < |requests| && k == j + 1 && ResponseOf(messages, requests, k).Some? ==>
      Separated(messages, requests[j], requests[k])
  }

  lemma DistinctIffAllSeparated(messages: seq<UsbMessage>, requests: seq<int>)
    requires Positions(messages, requests)
    requires forall k :: 0 <= k < |requests| ==> !IsResponse(messages[requests[k]])
    ensures DistinctResponses(messages, requests) <==> AllSeparated(messages, requests)
  {
    if DistinctResponses(messages, requests) {
      forall j, k | 0 <= j < k < |requests| && k == j + 1 && ResponseOf(messages, requests, k).Some?
        ensures Separated(messages, requests[j], requests[k])
      {
        DistinctIffSeparated(messages, requests, j);
      }
    }
    if AllSeparated(messages, requests) {
      forall j, k | 0 <= j < k < |requests| && ResponseOf(messages, requests, k).Some?
        ensures ResponseOf(messages, requests, j) != ResponseOf(messages, requests, k)
      {
        DistinctIffSeparated(messages, requests, k - 1);
        ResponsesMonotone(messages, requests, j, k - 1);
        ResponsesMonotone(messages, requests, k - 1, k);
      }
    }
  }

  /** All responses are distinct exactly when an incoming update separates each
      pair of consecutive requests that both have one. */
  lemma ResponsesDistinctIff(messages: seq<UsbMessage>)
    ensures Positions(messages, Requests(messages))
    ensures DistinctResponses(messages, Requests(messages)) <==> AllSeparated(messages, Requests(messages))
  {
    RequestsArePositions(messages);
    DistinctIffAllSeparated(messages, Requests(messages));
  }
}
