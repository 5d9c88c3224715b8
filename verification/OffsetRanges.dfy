/** `contiguous_ranges` and the trimming of capture-to-update links. */
module OffsetRanges {

  /** Half-open: `start` included, `end` not. */
  datatype Range = Range(start: int, end: int)

  function Span(r: Range): seq<int> {
    if r.end <= r.start then [] else seq(r.end - r.start, i => r.start + i)
  }

  function Expand(ranges: seq<Range>): seq<int> {
    if ranges == [] then [] else Span(ranges[0]) + Expand(ranges[1..])
  }

  predicate NonEmpty(ranges: seq<Range>) {
    forall i :: 0 <= i < |ranges| ==> ranges[i].start < ranges[i].end
  }

  /** No range can be glued to its successor. */
  ghost predicate Canonical(ranges: seq<Range>) {
    && NonEmpty(ranges)
    && forall i, j :: 0 <= i < j < |ranges| && j == i + 1 ==> ranges[j].start != ranges[i].end
  }

  lemma {:induction false} ExpandAppend(a: seq<Range>, b: seq<Range>)
    ensures Expand(a + b) == Expand(a) + Expand(b)
  {
    if a == [] {
      assert a + b == b;
    } else {
      assert (a + b)[1..] == a[1..] + b;
      ExpandAppend(a[1..], b);
    }
  }

  lemma ExpandSnoc(a: seq<Range>, r: Range)
    ensures Expand(a + [r]) == Expand(a) + Span(r)
  {
    ExpandAppend(a, [r]);
    assert Expand([r]) == Span(r) + Expand([]);
  }

  /** A range that starts at `start` may follow. */
  ghost predicate OpenAt(ranges: seq<Range>, start: int) {
    Canonical(ranges) && (ranges != [] ==> ranges[|ranges| - 1].end != start)
  }

  lemma CanonicalSnoc(ranges: seq<Range>, r: Range, next: int)
    requires OpenAt(ranges, r.start) && r.start < r.end && next != r.end
    ensures OpenAt(ranges + [r], next)
  {
  }

  /** `offsets[from..n]` counts up along `r`, so closing the range consumes it. */
  lemma CloseRange(ranges: seq<Range>, offsets: seq<int>, from: nat, n: nat, r: Range)
    requires from < n <= |offsets| && Expand(ranges) == offsets[..from]
    requires r.end - r.start == n - from
    requires forall k :: from <= k < n ==> offsets[k] == r.start + (k - from)
    ensures Expand(ranges + [r]) == offsets[..n]
  {
    ExpandSnoc(ranges, r);
    assert Span(r) == offsets[from..n];
  }

  method ContiguousRanges(offsets: seq<int>) returns (ranges: seq<Range>)
    ensures Expand(ranges) == offsets
    ensures Canonical(ranges)
  {
    ranges := [];
    if offsets == [] {
      return;
    }
    var start, previous := offsets[0], offsets[0];
    ghost var from := 0;
    for n := 1 to |offsets|
      invariant 0 <= from < n && previous == start + (n - 1 - from)
      invariant forall k :: from <= k < n ==> offsets[k] == start + (k - from)
      invariant Expand(ranges) == offsets[..from]
      invariant OpenAt(ranges, start)
    {
      var offset := offsets[n];
      if offset != previous + 1 {
        var closed := Range(start, previous + 1);
        CloseRange(ranges, offsets, from, n, closed);
        CanonicalSnoc(ranges, closed, offset);
        ranges := ranges + [closed];
        start := offset;
        from := n;
      }
      previous := offset;
    }
    var last := Range(start, previous + 1);
    CloseRange(ranges, offsets, from, |offsets|, last);
    CanonicalSnoc(ranges, last, previous);
    ranges := ranges + [last];
    assert offsets[..|offsets|] == offsets;
  }

  lemma AfterFirst(a: seq<Range>)
    requires NonEmpty(a) && a != []
    ensures var n := a[0].end - a[0].start;
            && n <= |Expand(a)| && Expand(a)[..n] == Span(a[0]) && Expand(a)[n..] == Expand(a[1..])
    ensures Expand(a) != [] && Expand(a)[0] == a[0].start
  {
    assert Expand(a) == Span(a[0]) + Expand(a[1..]);
  }

  /** The first canonical range covers every first range of the same expansion. */
  lemma FirstRangeMaximal(a: seq<Range>, b: seq<Range>)
    requires Canonical(a) && NonEmpty(b) && Expand(a) == Expand(b) && b != []
    ensures a != [] && a[0].start == b[0].start && b[0].end <= a[0].end
  {
    AfterFirst(b);
    AfterFirst(a);
    var s, n := Expand(b), a[0].end - a[0].start;
    if a[0].end < b[0].end {
      assert s[n] == Span(b[0])[n] == a[0].end;
      assert s[n] == Expand(a[1..])[0];
      if |a| > 1 {
        AfterFirst(a[1..]);
      }
    }
  }

  /** The expansion determines the canonical ranges. */
  lemma {:induction false} CanonicalUnique(a: seq<Range>, b: seq<Range>)
    requires Canonical(a) && Canonical(b) && Expand(a) == Expand(b)
    ensures a == b
    decreases |a| + |b|
  {
    if b != [] {
      FirstRangeMaximal(a, b);
    }
    if a != [] {
      FirstRangeMaximal(b, a);
      AfterFirst(a);
      AfterFirst(b);
      CanonicalUnique(a[1..], b[1..]);
      assert a == [a[0]] + a[1..] && b == [b[0]] + b[1..];
    }
  }

  lemma SpanSplit(start: int, middle: int, end: int)
    requires start <= middle <= end
    ensures Span(Range(start, end)) == Span(Range(start, middle)) + Span(Range(middle, end))
    ensures |Span(Range(start, middle))| == middle - start
  {
  }

  lemma CutFirst(a: seq<Range>, end: int)
    requires Canonical(a) && a != [] && a[0].start < end < a[0].end
    ensures var cut := [Range(end, a[0].end)] + a[1..];
            Canonical(cut) && Expand(cut) == Expand(a)[end - a[0].start..]
  {
    var low, high, rest := Span(Range(a[0].start, end)), Span(Range(end, a[0].end)), Expand(a[1..]);
    SpanSplit(a[0].start, end, a[0].end);
    assert a[0] == Range(a[0].start, a[0].end);
    assert Expand(a) == (low + high) + rest == low + (high + rest);
    assert ([Range(end, a[0].end)] + a[1..])[1..] == a[1..];
  }

  /** No list of non-empty ranges with the same expansion is shorter. */
  lemma {:induction false} CanonicalMinimal(a: seq<Range>, b: seq<Range>)
    requires Canonical(a) && NonEmpty(b) && Expand(a) == Expand(b)
    ensures |a| <= |b|
    decreases |b|
  {
    if b == [] {
      if a != [] {
        AfterFirst(a);
      }
    } else {
      FirstRangeMaximal(a, b);
      AfterFirst(a);
      AfterFirst(b);
      if b[0].end == a[0].end {
        CanonicalMinimal(a[1..], b[1..]);
      } else {
        CutFirst(a, b[0].end);
        CanonicalMinimal([Range(b[0].end, a[0].end)] + a[1..], b[1..]);
      }
    }
  }

  predicate Increasing(s: seq<int>) {
    forall i, j :: 0 <= i < j < |s| ==> s[i] < s[j]
  }

  /** Disjoint, ascending, and never touching. */
  ghost predicate Separated(ranges: seq<Range>) {
    forall i, j :: 0 <= i < j < |ranges| ==> ranges[i].end < ranges[j].start
  }

  /** For strictly increasing offsets the ranges are disjoint, ascending and
      separated by at least one missing offset. */
  lemma {:induction false} IncreasingRangesSeparated(ranges: seq<Range>)
    requires Canonical(ranges) && Increasing(Expand(ranges))
    ensures Separated(ranges)
  {
    if ranges != [] {
      var head, rest := Span(ranges[0]), Expand(ranges[1..]);
      var all := Expand(ranges);
      assert all == head + rest;
      forall i, j | 0 <= i < j < |rest| ensures rest[i] < rest[j] {
        assert all[|head| + i] < all[|head| + j];
      }
      IncreasingRangesSeparated(ranges[1..]);
      if |ranges| > 1 {
        assert rest[0] == Span(ranges[1])[0] == ranges[1].start;
        assert all[|head| - 1] < all[|head|];
        assert ranges[0].end < ranges[1].start;
        forall j | 1 <= j < |ranges| ensures ranges[0].end < ranges[j].start {
          if j > 1 {
            assert ranges[1..][0].end < ranges[1..][j - 1].start;
          }
        }
      }
      forall i, j | 0 <= i < j < |ranges| ensures ranges[i].end < ranges[j].start {
        if i > 0 {
          assert ranges[1..][i - 1].end < ranges[1..][j - 1].start;
        }
      }
    }
  }

  // ---------------------------------------------------------------------
  // Ranges of a set of offsets
  // ---------------------------------------------------------------------

  /** The comprehension `[k for k in range(n) if p(k)]`. */
  function Select(n: int, p: int -> bool): seq<int>
    decreases if n < 0 then 0 else n
  {
    if n <= 0 then [] else Select(n - 1, p) + if p(n - 1) then [n - 1] else []
  }

  lemma {:induction false} SelectExact(n: int, p: int -> bool)
    ensures Increasing(Select(n, p))
    ensures forall k :: k in Select(n, p) <==> 0 <= k < n && p(k)
    decreases if n < 0 then 0 else n
  {
    if n > 0 {
      SelectExact(n - 1, p);
      var rest := Select(n - 1, p);
      forall i | 0 <= i < |rest| ensures rest[i] < n - 1 {
        assert rest[i] in rest;
      }
    }
  }

  lemma GrowFirst(rest: seq<Range>, offset: int)
    requires Canonical(rest) && rest != [] && rest[0].start == offset + 1
    ensures var ranges := [Range(offset, rest[0].end)] + rest[1..];
            Canonical(ranges) && Expand(ranges) == [offset] + Expand(rest)
  {
    SpanSplit(offset, offset + 1, rest[0].end);
    assert Span(Range(offset, offset + 1)) == [offset];
    assert rest[0] == Range(offset + 1, rest[0].end);
    assert ([Range(offset, rest[0].end)] + rest[1..])[1..] == rest[1..];
  }

  /** The canonical ranges of a list, built from its end. */
  function Ranges(offsets: seq<int>): seq<Range> {
    if offsets == [] then []
    else
      var rest := Ranges(offsets[1..]);
      if rest != [] && rest[0].start == offsets[0] + 1 then [Range(offsets[0], rest[0].end)] + rest[1..]
      else [Range(offsets[0], offsets[0] + 1)] + rest
  }

  lemma {:induction false} RangesExact(offsets: seq<int>)
    ensures Expand(Ranges(offsets)) == offsets
    ensures Canonical(Ranges(offsets))
  {
    if offsets != [] {
      var rest := Ranges(offsets[1..]);
      RangesExact(offsets[1..]);
      assert [offsets[0]] + offsets[1..] == offsets;
      if rest != [] && rest[0].start == offsets[0] + 1 {
        GrowFirst(rest, offsets[0]);
      } else {
        assert Span(Range(offsets[0], offsets[0] + 1)) == [offsets[0]];
        assert ([Range(offsets[0], offsets[0] + 1)] + rest)[1..] == rest;
      }
    }
  }

  lemma {:induction false} ExpandMembers(ranges: seq<Range>, k: int)
    ensures k in Expand(ranges) <==> exists r :: r in ranges && r.start <= k < r.end
  {
    if ranges != [] {
      ExpandMembers(ranges[1..], k);
      assert ranges == [ranges[0]] + ranges[1..];
      if ranges[0].start <= k < ranges[0].end {
        assert Span(ranges[0])[k - ranges[0].start] == k;
      }
    }
  }

  /** `s` up to `e` is in, its two neighbours are not. */
  ghost predicate Maximal(offsets: seq<int>, s: int, e: int) {
    s < e && (forall k :: s <= k < e ==> k in offsets) && s - 1 !in offsets && e !in offsets
  }

  lemma RangesAreMaximal(ranges: seq<Range>, s: int, e: int)
    requires Canonical(ranges) && Range(s, e) in ranges
    requires Separated(ranges)
    ensures Maximal(Expand(ranges), s, e)
  {
    RangeEndsOutside(ranges, Range(s, e));
    SpanInside(ranges, Range(s, e));
  }

  lemma SpanInside(ranges: seq<Range>, r: Range)
    requires r in ranges
    ensures forall k :: r.start <= k < r.end ==> k in Expand(ranges)
  {
    forall k | r.start <= k < r.end ensures k in Expand(ranges) {
      ExpandMembers(ranges, k);
    }
  }

  /** The ranges of a strictly increasing list are its maximal runs. */
  lemma RangesAreMaximalRuns(ranges: seq<Range>, s: int, e: int)
    requires Canonical(ranges) && Increasing(Expand(ranges))
    ensures Range(s, e) in ranges <==> Maximal(Expand(ranges), s, e)
  {
    IncreasingRangesSeparated(ranges);
    if Range(s, e) in ranges {
      RangesAreMaximal(ranges, s, e);
    }
    if Maximal(Expand(ranges), s, e) {
      MaximalRunIsRange(ranges, s, e);
    }
  }

  lemma MaximalRunIsRange(ranges: seq<Range>, s: int, e: int)
    requires Canonical(ranges) && Maximal(Expand(ranges), s, e)
    requires Separated(ranges)
    ensures Range(s, e) in ranges
  {
    ExpandMembers(ranges, s);
    ExpandMembers(ranges, s - 1);
    ExpandMembers(ranges, e);
    var r :| r in ranges && r.start <= s < r.end;
    RangeEndsOutside(ranges, r);
    assert r.start == s && r.end == e;
  }

  lemma RangeEndsOutside(ranges: seq<Range>, r: Range)
    requires Canonical(ranges) && r in ranges
    requires Separated(ranges)
    ensures r.start in Expand(ranges) && r.start - 1 !in Expand(ranges) && r.end !in Expand(ranges)
  {
    ExpandMembers(ranges, r.start);
    ExpandMembers(ranges, r.start - 1);
    ExpandMembers(ranges, r.end);
    var i :| 0 <= i < |ranges| && ranges[i] == r;
    forall q | q in ranges ensures !(q.start <= r.start - 1 < q.end) && !(q.start <= r.end < q.end) {
      var j :| 0 <= j < |ranges| && ranges[j] == q;
      assert j < i || j == i || i < j;
    }
  }
}
