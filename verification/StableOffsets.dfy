/** Which request bytes stay the same across updates, and which vary. */
module StableOffsets {
  import opened Prelude
  import opened OffsetRanges

  function MinLength(payloads: seq<seq<Byte>>): nat
    requires payloads != []
  {
    if |payloads| == 1 then |payloads[0]|
    else
      var rest := MinLength(payloads[1..]);
      if |payloads[0]| < rest then |payloads[0]| else rest
  }

  function Unequal(left: seq<Byte>, right: seq<Byte>): int -> bool {
    (o: int) => 0 <= o < |left| && o < |right| && left[o] != right[o]
  }

  function Agreeing(payloads: seq<seq<Byte>>): int -> bool
    requires payloads != []
  {
    (o: int) => forall p :: p in payloads ==> 0 <= o < |p| && o < |payloads[0]| && p[o] == payloads[0][o]
  }

  /** `differing_offsets`: unequal common bytes, then the longer tail. */
  function DifferingOffsets(left: seq<Byte>, right: seq<Byte>): seq<int> {
    var common := if |left| < |right| then |left| else |right|;
    var longest := if |left| < |right| then |right| else |left|;
    Select(common, Unequal(left, right)) + Span(Range(common, longest))
  }

  function StableOffsets(payloads: seq<seq<Byte>>): seq<int> {
    if payloads == [] then [] else Select(MinLength(payloads), Agreeing(payloads))
  }

  /** The report's variable offsets: all offsets every request has, minus the
      stable ones. */
  function VariableOffsets(payloads: seq<seq<Byte>>): set<int>
    requires payloads != []
  {
    (set o | o in Span(Range(0, MinLength(payloads)))) - (set o | o in StableOffsets(payloads))
  }

  lemma {:induction false} MinLengthBounds(payloads: seq<seq<Byte>>)
    requires payloads != []
    ensures forall p :: p in payloads ==> MinLength(payloads) <= |p|
    ensures exists p :: p in payloads && MinLength(payloads) == |p|
  {
    if |payloads| == 1 {
      assert payloads[0] in payloads;
    } else {
      MinLengthBounds(payloads[1..]);
      assert payloads == [payloads[0]] + payloads[1..];
      assert payloads[0] in payloads;
      var p :| p in payloads[1..] && MinLength(payloads[1..]) == |p|;
      assert p in payloads;
    }
  }

  lemma DifferingExact(left: seq<Byte>, right: seq<Byte>, o: int)
    ensures o in DifferingOffsets(left, right) <==>
            && 0 <= o && (o < |left| || o < |right|)
            && (o < |left| && o < |right| ==> left[o] != right[o])
    ensures Increasing(DifferingOffsets(left, right))
  {
    var common := if |left| < |right| then |left| else |right|;
    var longest := if |left| < |right| then |right| else |left|;
    SelectExact(common, Unequal(left, right));
    var low, high := Select(common, Unequal(left, right)), Span(Range(common, longest));
    if common <= o < longest {
      assert high[o - common] == o;
    }
    forall i | 0 <= i < |low| ensures low[i] < common {
      assert low[i] in low;
    }
  }

  /** No differing offset means the payloads are equal, and conversely. */
  lemma NoDifferenceIffEqual(left: seq<Byte>, right: seq<Byte>)
    ensures DifferingOffsets(left, right) == [] <==> left == right
  {
    var d := DifferingOffsets(left, right);
    if d == [] {
      forall o | 0 <= o && (o < |left| || o < |right|) ensures o < |left| && o < |right| && left[o] == right[o] {
        DifferingExact(left, right, o);
      }
      if |left| != |right| {
        DifferingExact(left, right, if |left| < |right| then |left| else |right|);
      }
    }
    if d != [] {
      assert d[0] in d;
      DifferingExact(left, right, d[0]);
    }
  }

  /** An offset is stable exactly when every payload has it, with one value. */
  lemma StableExact(payloads: seq<seq<Byte>>, o: int)
    requires payloads != []
    ensures o in StableOffsets(payloads) <==>
            0 <= o && forall p :: p in payloads ==> o < |p| && o < |payloads[0]| && p[o] == payloads[0][o]
    ensures Increasing(StableOffsets(payloads))
  {
    SelectExact(MinLength(payloads), Agreeing(payloads));
    MinLengthBounds(payloads);
    assert payloads[0] in payloads;
  }

  /** The variable offsets are the union of the per-request differences from
      the first request, cut at the shortest request. */
  lemma VariableIsUnionOfDifferences(payloads: seq<seq<Byte>>)
    requires payloads != []
    ensures VariableOffsets(payloads) ==
            set p, o | p in payloads && o in DifferingOffsets(payloads[0], p) && o < MinLength(payloads) :: o
  {
    MinLengthBounds(payloads);
    assert payloads[0] in payloads;
    var union := set p, o | p in payloads && o in DifferingOffsets(payloads[0], p) && o < MinLength(payloads) :: o;
    forall o ensures o in VariableOffsets(payloads) <==> o in union {
      if 0 <= o < MinLength(payloads) {
        assert Span(Range(0, MinLength(payloads)))[o] == o;
      }
      StableExact(payloads, o);
      forall p | p in payloads
        ensures o in DifferingOffsets(payloads[0], p) && o < MinLength(payloads) ==>
                o in VariableOffsets(payloads)
        ensures 0 <= o < MinLength(payloads) && p[o] != payloads[0][o] ==> o in DifferingOffsets(payloads[0], p)
      {
        DifferingExact(payloads[0], p, o);
      }
    }
  }

  /** Stability of two groups taken together: stable in each, and the groups
      agree on the value. */
  lemma StableOfConcatenation(a: seq<seq<Byte>>, b: seq<seq<Byte>>, o: int)
    requires a != [] && b != []
    ensures o in StableOffsets(a + b) <==>
            && o in StableOffsets(a) && o in StableOffsets(b)
            && 0 <= o < |a[0]| && o < |b[0]| && a[0][o] == b[0][o]
  {
    StableExact(a + b, o);
    StableExact(a, o);
    StableExact(b, o);
    assert (a + b)[0] == a[0];
    assert a[0] in a && b[0] in b && b[0] in a + b && a[0] in a + b;
    forall p | p in a || p in b ensures p in a + b {}
  }
}
