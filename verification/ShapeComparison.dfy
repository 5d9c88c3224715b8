/** Canonical comparison results: the first differing message shape of two
    captures, and the sorted shape counts of one capture. */
module ShapeComparison {
  import opened Prelude
  import opened StableSort
  import opened UpdateExchanges

  // ---------------------------------------------------------------------
  // first_shape_difference
  // ---------------------------------------------------------------------

  /** Declared length and command flags; no shape for a missing response. */
  type ExchangeShape = Option<(nat, nat)>

  function ShapeOf(e: UpdateExchange, response: bool): ExchangeShape {
    if response then
      if e.response.Some? then Some((e.response.value.declaredLength, e.response.value.commandFlags)) else None
    else Some((e.request.declaredLength, e.request.commandFlags))
  }

  function Shapes(exchanges: seq<UpdateExchange>, response: bool): seq<ExchangeShape> {
    seq(|exchanges|, i requires 0 <= i < |exchanges| => ShapeOf(exchanges[i], response))
  }

  /** The one-based index of the first difference, as the scan finds it. */
  function FirstDifference<T(==)>(left: seq<T>, right: seq<T>): Option<nat> {
    if left == [] && right == [] then None
    else if left == [] || right == [] then Some(1)
    else if left[0] != right[0] then Some(1)
    else
      var later := FirstDifference(left[1..], right[1..]);
      if later.Some? then Some(later.value + 1) else None
  }

  function FirstShapeDifference(left: seq<UpdateExchange>, right: seq<UpdateExchange>, response: bool): Option<nat> {
    FirstDifference(Shapes(left, response), Shapes(right, response))
  }

  /** `a` and `b` agree in front of one-based position `d`. */
  predicate AgreeBefore<T(==)>(a: seq<T>, b: seq<T>, d: nat) {
    d > 0 && d - 1 <= |a| && d - 1 <= |b| && a[..d - 1] == b[..d - 1]
  }

  /** `none` means equal; otherwise everything in front of the reported position
      agrees and that position differs or exists on one side only. */
  lemma {:induction false} FirstDifferenceExact<T>(a: seq<T>, b: seq<T>)
    ensures match FirstDifference(a, b)
            case None => a == b
            case Some(d) =>
              && AgreeBefore(a, b, d)
              && (if d <= |a| && d <= |b| then a[d - 1] != b[d - 1] else d <= |a| || d <= |b|)
    ensures a == b ==> FirstDifference(a, b) == None
  {
    if a != [] && b != [] && a[0] == b[0] {
      FirstDifferenceExact(a[1..], b[1..]);
      assert a == [a[0]] + a[1..] && b == [b[0]] + b[1..];
    }
  }

  lemma {:induction false} FirstDifferenceSymmetric<T>(a: seq<T>, b: seq<T>)
    ensures FirstDifference(a, b) == FirstDifference(b, a)
  {
    if a != [] && b != [] && a[0] == b[0] {
      FirstDifferenceSymmetric(a[1..], b[1..]);
    }
  }

  /** `x` is no later than `y`; no difference at all counts as latest. */
  predicate NoLater(x: Option<nat>, y: Option<nat>) {
    y.None? || (x.Some? && x.value <= y.value)
  }

  /** The ultrametric law: a and c cannot start to differ before a-b and b-c do. */
  lemma {:induction false} FirstDifferenceUltrametric<T>(a: seq<T>, b: seq<T>, c: seq<T>)
    ensures || NoLater(FirstDifference(a, b), FirstDifference(a, c))
            || NoLater(FirstDifference(b, c), FirstDifference(a, c))
  {
    if a != [] && b != [] && c != [] && a[0] == b[0] == c[0] {
      FirstDifferenceUltrametric(a[1..], b[1..], c[1..]);
    }
  }

  /** The same laws for whole captures. */
  lemma ShapeDifferenceLaws(a: seq<UpdateExchange>, b: seq<UpdateExchange>, c: seq<UpdateExchange>, response: bool)
    ensures FirstShapeDifference(a, b, response) == FirstShapeDifference(b, a, response)
    ensures FirstShapeDifference(a, b, response) == None <==> Shapes(a, response) == Shapes(b, response)
    ensures || NoLater(FirstShapeDifference(a, b, response), FirstShapeDifference(a, c, response))
            || NoLater(FirstShapeDifference(b, c, response), FirstShapeDifference(a, c, response))
  {
    FirstDifferenceSymmetric(Shapes(a, response), Shapes(b, response));
    FirstDifferenceExact(Shapes(a, response), Shapes(b, response));
    FirstDifferenceUltrametric(Shapes(a, response), Shapes(b, response), Shapes(c, response));
  }

  // ---------------------------------------------------------------------
  // count_message_shapes
  // ---------------------------------------------------------------------

  datatype MessageShape = MessageShape(direction: string, declaredLength: nat, command: nat, commandFlags: nat)

  datatype MessageCount = MessageCount(shape: MessageShape, count: nat)

  /** The parser produces no other directions. */
  predicate OutOrIn(s: MessageShape) {
    s.direction == "OUT" || s.direction == "IN"
  }

  /** The sort key, compared as a tuple: command, OUT before IN, length, flags. */
  predicate KeyLe(a: MessageShape, b: MessageShape) {
    if a.command != b.command then a.command < b.command
    else if (a.direction == "IN") != (b.direction == "IN") then b.direction == "IN"
    else if a.declaredLength != b.declaredLength then a.declaredLength < b.declaredLength
    else a.commandFlags <= b.commandFlags
  }

  /** The counter's keys, in the order of their first occurrence. */
  function Distinct<T(==)>(s: seq<T>): seq<T> {
    if s == [] then []
    else
      var keys := Distinct(s[..|s| - 1]);
      if s[|s| - 1] in keys then keys else keys + [s[|s| - 1]]
  }

  function CountsFor(keys: seq<MessageShape>, starts: seq<MessageShape>): seq<MessageCount> {
    seq(|keys|, i requires 0 <= i < |keys| => MessageCount(keys[i], multiset(starts)[keys[i]]))
  }

  function CountMessageShapes(starts: seq<MessageShape>): seq<MessageCount> {
    CountsFor(Sort(Distinct(starts), KeyLe), starts)
  }

  predicate NoDuplicates<T(==)>(s: seq<T>) {
    forall i, j :: 0 <= i < j < |s| ==> s[i] != s[j]
  }

  lemma {:induction false} DistinctExact<T>(s: seq<T>)
    ensures NoDuplicates(Distinct(s))
    ensures forall x :: x in Distinct(s) <==> x in s
  {
    if s != [] {
      DistinctExact(s[..|s| - 1]);
      assert s == s[..|s| - 1] + [s[|s| - 1]];
    }
  }

  lemma KeyOrderIsPreorder()
    ensures TotalPreorder(KeyLe)
  {
  }

  /** On OUT and IN messages the key determines the shape. */
  lemma KeyDeterminesShape(a: MessageShape, b: MessageShape)
    requires OutOrIn(a) && OutOrIn(b) && KeyLe(a, b) && KeyLe(b, a)
    ensures a == b
  {
  }

  predicate StrictlySorted(s: seq<MessageShape>) {
    forall i, j :: 0 <= i < j < |s| ==> KeyLe(s[i], s[j]) && !KeyLe(s[j], s[i])
  }

  lemma {:induction false} MultisetNoDuplicates<T>(s: seq<T>)
    ensures NoDuplicates(s) <==> forall x :: x in s ==> multiset(s)[x] == 1
  {
    if s != [] {
      var init, last := s[..|s| - 1], s[|s| - 1];
      assert s == init + [last];
      MultisetNoDuplicates(init);
      if NoDuplicates(s) {
        assert forall i :: 0 <= i < |init| ==> s[i] != s[|s| - 1];
        assert last !in init;
      } else {
        var i, j :| 0 <= i < j < |s| && s[i] == s[j];
        if j == |s| - 1 {
          assert last in init && last in s;
          assert multiset(s)[last] == multiset(init)[last] + 1;
        } else {
          assert !NoDuplicates(init);
          var x :| x in init && multiset(init)[x] != 1;
          assert x in s && multiset(init)[x] > 1;
        }
      }
    }
  }

  /** Every shape present is listed once, in strict key order, with its number
      of occurrences. */
  lemma CountsListEachShapeOnce(starts: seq<MessageShape>)
    requires forall s :: s in starts ==> OutOrIn(s)
    ensures var counts := CountMessageShapes(starts);
            && (forall i, j :: 0 <= i < j < |counts| ==>
                  KeyLe(counts[i].shape, counts[j].shape) && !KeyLe(counts[j].shape, counts[i].shape))
            && (forall s :: s in starts <==> MessageCount(s, multiset(starts)[s]) in counts)
            && (forall i :: 0 <= i < |counts| ==>
                  counts[i].shape in starts && counts[i].count == multiset(starts)[counts[i].shape] > 0)
  {
    var keys := Sort(Distinct(starts), KeyLe);
    SortedKeysStrict(starts);
    forall s | s in starts ensures MessageCount(s, multiset(starts)[s]) in CountMessageShapes(starts) {
      var i :| 0 <= i < |keys| && keys[i] == s;
      assert CountMessageShapes(starts)[i] == MessageCount(s, multiset(starts)[s]);
    }
    forall i | 0 <= i < |keys| ensures keys[i] in starts {
      assert keys[i] in keys;
    }
  }

  lemma SortedKeysStrict(starts: seq<MessageShape>)
    requires forall s :: s in starts ==> OutOrIn(s)
    ensures StrictlySorted(Sort(Distinct(starts), KeyLe))
    ensures forall s :: s in Sort(Distinct(starts), KeyLe) <==> s in starts
  {
    var keys := Sort(Distinct(starts), KeyLe);
    KeyOrderIsPreorder();
    DistinctExact(starts);
    SortSorted(Distinct(starts), KeyLe);
    SortMembers(Distinct(starts), KeyLe);
    MultisetNoDuplicates(Distinct(starts));
    MultisetNoDuplicates(keys);
    forall i, j | 0 <= i < j < |keys| ensures KeyLe(keys[i], keys[j]) && !KeyLe(keys[j], keys[i]) {
      assert keys[i] in keys && keys[j] in keys;
      if KeyLe(keys[j], keys[i]) {
        KeyDeterminesShape(keys[i], keys[j]);
      }
    }
  }

  lemma HeadNotInTail(a: seq<MessageShape>)
    requires StrictlySorted(a) && a != []
    ensures a[0] !in a[1..]
  {
  }

  lemma {:induction false} StrictlySortedUnique(a: seq<MessageShape>, b: seq<MessageShape>)
    requires StrictlySorted(a) && StrictlySorted(b)
    requires forall s :: s in a <==> s in b
    ensures a == b
    decreases |a|
  {
    if a != [] {
      assert a[0] in b;
    }
    if b != [] {
      assert b[0] in a;
      assert a[0] == b[0];
      HeadNotInTail(a);
      HeadNotInTail(b);
      forall s ensures s in a[1..] <==> s in b[1..] {
        assert s in a <==> s == a[0] || s in a[1..];
        assert s in b <==> s == b[0] || s in b[1..];
      }
      StrictlySortedUnique(a[1..], b[1..]);
      assert a == [a[0]] + a[1..] && b == [b[0]] + b[1..];
    }
  }

  /** The summary does not depend on the order of the messages. */
  lemma CountsOfPermutation(a: seq<MessageShape>, b: seq<MessageShape>)
    requires multiset(a) == multiset(b)
    requires forall s :: s in a ==> OutOrIn(s)
    ensures CountMessageShapes(a) == CountMessageShapes(b)
  {
    forall s ensures s in a <==> s in b {
      assert s in multiset(a) <==> s in multiset(b);
    }
    SortedKeysStrict(a);
    SortedKeysStrict(b);
    StrictlySortedUnique(Sort(Distinct(a), KeyLe), Sort(Distinct(b), KeyLe));
  }

  function Total(counts: seq<MessageCount>): nat {
    if counts == [] then 0 else counts[0].count + Total(counts[1..])
  }

  /** Occurrences of the listed keys. */
  function Occurrences(keys: seq<MessageShape>, m: multiset<MessageShape>): nat {
    if keys == [] then 0 else m[keys[0]] + Occurrences(keys[1..], m)
  }

  lemma {:induction false} TotalIsOccurrences(keys: seq<MessageShape>, starts: seq<MessageShape>)
    ensures Total(CountsFor(keys, starts)) == Occurrences(keys, multiset(starts))
  {
    if keys != [] {
      TotalIsOccurrences(keys[1..], starts);
      assert CountsFor(keys, starts)[1..] == CountsFor(keys[1..], starts);
    }
  }

  lemma {:induction false} OccurrencesOfKeys(keys: seq<MessageShape>, m: multiset<MessageShape>)
    requires NoDuplicates(keys)
    requires forall s :: s in m ==> s in keys
    ensures Occurrences(keys, m) == |m|
  {
    if keys != [] {
      var rest := m[keys[0] := 0];
      assert keys == [keys[0]] + keys[1..];
      forall s | s in rest ensures s in keys[1..] {
        assert s in m;
      }
      OccurrencesOfKeys(keys[1..], rest);
      OccurrencesAgree(keys[1..], m, rest);
      assert m == rest + multiset{}[keys[0] := m[keys[0]]];
    } else {
      assert m == multiset{};
    }
  }

  lemma {:induction false} OccurrencesAgree(keys: seq<MessageShape>, a: multiset<MessageShape>,
                                            b: multiset<MessageShape>)
    requires forall s :: s in keys ==> a[s] == b[s]
    ensures Occurrences(keys, a) == Occurrences(keys, b)
  {
    if keys != [] {
      assert keys[0] in keys;
      OccurrencesAgree(keys[1..], a, b);
    }
  }

  /** The counts add up to the number of messages, for any directions. */
  lemma CountsConserveTotal(starts: seq<MessageShape>)
    ensures Total(CountMessageShapes(starts)) == |starts|
  {
    var keys := Sort(Distinct(starts), KeyLe);
    KeyOrderIsPreorder();
    DistinctExact(starts);
    SortSorted(Distinct(starts), KeyLe);
    SortMembers(Distinct(starts), KeyLe);
    MultisetNoDuplicates(Distinct(starts));
    MultisetNoDuplicates(keys);
    TotalIsOccurrences(keys, starts);
    forall s | s in multiset(starts) ensures s in keys {
      assert s in starts;
    }
    OccurrencesOfKeys(keys, multiset(starts));
    assert |multiset(starts)| == |starts|;
  }
}
