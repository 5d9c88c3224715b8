/** Trimming matching byte blocks to the offsets that vary between requests. */
module CaptureLinks {
  import opened Prelude
  import opened OffsetRanges

  const MIN_LINK_SIZE := 20

  /** `size` bytes at `capture` of the response equal those at `request`. */
  datatype Link = Link(capture: int, request: int, size: int)

  function Varies(variable: set<int>, request: int): int -> bool {
    (relative: int) => request + relative in variable
  }

  /** The links of one block: its runs of at least `minimum` varying bytes. */
  function LongRuns(block: Link, ranges: seq<Range>, minimum: int): seq<Link> {
    if ranges == [] then []
    else
      var r := ranges[0];
      (if r.end - r.start < minimum then []
       else [Link(block.capture + r.start, block.request + r.start, r.end - r.start)])
      + LongRuns(block, ranges[1..], minimum)
  }

  function BlockLinks(block: Link, variable: set<int>, minimum: int): seq<Link> {
    LongRuns(block, Ranges(Select(block.size, Varies(variable, block.request))), minimum)
  }

  function Trimmed(blocks: seq<Link>, variable: set<int>, minimum: int): seq<Link> {
    if blocks == [] then []
    else Trimmed(blocks[..|blocks| - 1], variable, minimum) + BlockLinks(blocks[|blocks| - 1], variable, minimum)
  }

  lemma {:induction false} LongRunsAppend(block: Link, a: seq<Range>, b: seq<Range>, minimum: int)
    ensures LongRuns(block, a + b, minimum) == LongRuns(block, a, minimum) + LongRuns(block, b, minimum)
  {
    if a == [] {
      assert a + b == b;
    } else {
      assert (a + b)[1..] == a[1..] + b;
      LongRunsAppend(block, a[1..], b, minimum);
    }
  }

  lemma LongRunsSnoc(block: Link, ranges: seq<Range>, m: nat, minimum: int)
    requires m < |ranges|
    ensures var r := ranges[m];
            LongRuns(block, ranges[..m + 1], minimum) == LongRuns(block, ranges[..m], minimum) +
            if r.end - r.start < minimum then []
            else [Link(block.capture + r.start, block.request + r.start, r.end - r.start)]
  {
    assert ranges[..m + 1] == ranges[..m] + [ranges[m]];
    LongRunsAppend(block, ranges[..m], [ranges[m]], minimum);
    assert [ranges[m]][1..] == [];
  }

  method KeepLongRuns(block: Link, ranges: seq<Range>, minimum: int, before: seq<Link>) returns (trimmed: seq<Link>)
    ensures trimmed == before + LongRuns(block, ranges, minimum)
  {
    trimmed := before;
    for m := 0 to |ranges|
      invariant trimmed == before + LongRuns(block, ranges[..m], minimum)
    {
      var start, end := ranges[m].start, ranges[m].end;
      LongRunsSnoc(block, ranges, m, minimum);
      if end - start < minimum {
        continue;
      }
      trimmed := trimmed + [Link(block.capture + start, block.request + start, end - start)];
    }
    assert ranges[..|ranges|] == ranges;
  }

  method TrimBlocks(blocks: seq<Link>, variable: set<int>, minimum: int := MIN_LINK_SIZE)
    returns (trimmed: seq<Link>)
    ensures trimmed == Trimmed(blocks, variable, minimum)
  {
    trimmed := [];
    for n := 0 to |blocks|
      invariant trimmed == Trimmed(blocks[..n], variable, minimum)
    {
      var relativeOffsets := Select(blocks[n].size, Varies(variable, blocks[n].request));
      var ranges := ContiguousRanges(relativeOffsets);
      RangesExact(relativeOffsets);
      CanonicalUnique(ranges, Ranges(relativeOffsets));
      trimmed := KeepLongRuns(blocks[n], ranges, minimum, trimmed);
      assert blocks[..n + 1][..n] == blocks[..n];
    }
    assert blocks[..|blocks|] == blocks;
  }

  /** All request offsets in `start..end` vary, and the run cannot be extended
      inside the block. */
  ghost predicate MaximalRun(block: Link, variable: set<int>, start: int, end: int) {
    && block.request <= start < end <= block.request + block.size
    && (forall o :: start <= o < end ==> o in variable)
    && (start == block.request || start - 1 !in variable)
    && (end == block.request + block.size || end !in variable)
  }

  lemma {:induction false} LongRunsMembers(block: Link, ranges: seq<Range>, minimum: int, l: Link)
    ensures l in LongRuns(block, ranges, minimum) <==>
            && Range(l.capture - block.capture, l.capture - block.capture + l.size) in ranges
            && l.request - block.request == l.capture - block.capture
            && l.size >= minimum
  {
    if ranges != [] {
      LongRunsMembers(block, ranges[1..], minimum, l);
      assert ranges == [ranges[0]] + ranges[1..];
    }
  }

  lemma MaximalShifted(block: Link, variable: set<int>, start: int, end: int)
    ensures Maximal(Select(block.size, Varies(variable, block.request)), start - block.request, end - block.request)
            <==> MaximalRun(block, variable, start, end)
  {
    var offsets := Select(block.size, Varies(variable, block.request));
    SelectExact(block.size, Varies(variable, block.request));
    if Maximal(offsets, start - block.request, end - block.request) {
      assert start - block.request in offsets && end - 1 - block.request in offsets;
      forall o | start <= o < end ensures o in variable {
        assert o - block.request in offsets;
      }
    }
    if MaximalRun(block, variable, start, end) {
      forall k | start - block.request <= k < end - block.request ensures k in offsets {
        assert block.request + k in variable;
      }
    }
  }

  lemma LongRunsAreMaximal(block: Link, minimum: int, ranges: seq<Range>, l: Link)
    requires Canonical(ranges) && Increasing(Expand(ranges))
    ensures l in LongRuns(block, ranges, minimum) <==>
            && Maximal(Expand(ranges), l.request - block.request, l.request + l.size - block.request)
            && l.capture - block.capture == l.request - block.request
            && l.size >= minimum
  {
    LongRunsMembers(block, ranges, minimum, l);
    RangesAreMaximalRuns(ranges, l.request - block.request, l.request + l.size - block.request);
  }

  lemma BlockRanges(block: Link, variable: set<int>, minimum: int) returns (ranges: seq<Range>)
    ensures Canonical(ranges) && Increasing(Expand(ranges))
    ensures Expand(ranges) == Select(block.size, Varies(variable, block.request))
    ensures BlockLinks(block, variable, minimum) == LongRuns(block, ranges, minimum)
  {
    var offsets := Select(block.size, Varies(variable, block.request));
    ranges := Ranges(offsets);
    SelectExact(block.size, Varies(variable, block.request));
    RangesExact(offsets);
  }

  lemma LinksAreMaximalSelections(block: Link, variable: set<int>, minimum: int, l: Link)
    ensures l in BlockLinks(block, variable, minimum) <==>
            && Maximal(Select(block.size, Varies(variable, block.request)),
                       l.request - block.request, l.request + l.size - block.request)
            && l.capture - block.capture == l.request - block.request
            && l.size >= minimum
  {
    var ranges := BlockRanges(block, variable, minimum);
    LongRunsAreMaximal(block, minimum, ranges, l);
  }

  /** A block reports exactly its maximal varying runs of at least the minimum
      size, and keeps the alignment of capture and request. */
  lemma LinksAreMaximalRuns(block: Link, variable: set<int>, minimum: int, l: Link)
    ensures l in BlockLinks(block, variable, minimum) <==>
            && MaximalRun(block, variable, l.request, l.request + l.size)
            && l.capture - block.capture == l.request - block.request
            && l.size >= minimum
  {
    LinksAreMaximalSelections(block, variable, minimum, l);
    MaximalShifted(block, variable, l.request, l.request + l.size);
  }

  predicate Ascending(links: seq<Link>) {
    forall i, j :: 0 <= i < j < |links| ==> links[i].request + links[i].size < links[j].request
  }

  lemma {:induction false} LongRunsAscend(block: Link, ranges: seq<Range>, minimum: int)
    requires Separated(ranges)
    requires NonEmpty(ranges)
    ensures Ascending(LongRuns(block, ranges, minimum))
  {
    if ranges != [] {
      LongRunsAscend(block, ranges[1..], minimum);
      var rest := LongRuns(block, ranges[1..], minimum);
      forall j | 0 <= j < |rest| ensures block.request + ranges[0].end < rest[j].request {
        LongRunsMembers(block, ranges[1..], minimum, rest[j]);
        assert rest[j] in rest;
      }
      assert ranges[0].end - ranges[0].start < minimum ==> LongRuns(block, ranges, minimum) == rest;
    }
  }

  /** ... each run once: the links of a block ascend and do not touch. */
  lemma LinksAscend(block: Link, variable: set<int>, minimum: int)
    ensures Ascending(BlockLinks(block, variable, minimum))
  {
    var ranges := BlockRanges(block, variable, minimum);
    IncreasingRangesSeparated(ranges);
    LongRunsAscend(block, ranges, minimum);
  }

  /** `capture` and `request` agree on the bytes the link names. */
  predicate ByteMatch(l: Link, capture: seq<Byte>, request: seq<Byte>) {
    && 0 <= l.size && 0 <= l.capture && l.capture + l.size <= |capture|
    && 0 <= l.request && l.request + l.size <= |request|
    && capture[l.capture..l.capture + l.size] == request[l.request..l.request + l.size]
  }

  /** Trimming turns true byte matches into true byte matches, and every
      reported request byte is one that varies. */
  lemma {:induction false} TrimmedLinksMatch(blocks: seq<Link>, variable: set<int>, minimum: int,
                                             capture: seq<Byte>, request: seq<Byte>)
    requires forall b :: b in blocks ==> ByteMatch(b, capture, request)
    ensures forall l :: l in Trimmed(blocks, variable, minimum) ==>
              && ByteMatch(l, capture, request) && l.size >= minimum
              && forall k :: l.request <= k < l.request + l.size ==> k in variable
  {
    if blocks != [] {
      var init, block := blocks[..|blocks| - 1], blocks[|blocks| - 1];
      TrimmedLinksMatch(init, variable, minimum, capture, request);
      forall l | l in BlockLinks(block, variable, minimum)
        ensures ByteMatch(l, capture, request) && l.size >= minimum
        ensures forall k :: l.request <= k < l.request + l.size ==> k in variable
      {
        LinksAreMaximalRuns(block, variable, minimum, l);
        SubMatch(block, l, capture, request);
      }
    }
  }

  lemma SubMatch(block: Link, l: Link, capture: seq<Byte>, request: seq<Byte>)
    requires ByteMatch(block, capture, request)
    requires block.request <= l.request && l.request + l.size <= block.request + block.size && 0 <= l.size
    requires l.capture - block.capture == l.request - block.request
    ensures ByteMatch(l, capture, request)
  {
    var s := l.request - block.request;
    SliceOfSlice(capture, block.capture, block.size, s, l.size);
    SliceOfSlice(request, block.request, block.size, s, l.size);
  }

  lemma SliceOfSlice<T>(s: seq<T>, at: nat, n: nat, from: nat, m: nat)
    requires at + n <= |s| && from + m <= n
    ensures s[at..at + n][from..from + m] == s[at + from..at + from + m]
  {
    var a, b := s[at..at + n][from..from + m], s[at + from..at + from + m];
    assert |a| == |b| && forall i :: 0 <= i < m ==> a[i] == b[i];
  }
}
