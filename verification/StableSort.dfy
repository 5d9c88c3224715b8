/** The stable sort of Python's `sorted`, for an arbitrary total preorder. */
module StableSort {
  import opened Prelude

  ghost predicate TotalPreorder<T(!new)>(le: (T, T) -> bool) {
    && (forall a, b :: le(a, b) || le(b, a))
    && (forall a, b, c :: le(a, b) && le(b, c) ==> le(a, c))
  }

  predicate Sorted<T>(s: seq<T>, le: (T, T) -> bool) {
    forall i, j :: 0 <= i < j < |s| ==> le(s[i], s[j])
  }

  /** `x` goes in front of the first element that is not smaller. */
  function Insert<T>(x: T, s: seq<T>, le: (T, T) -> bool): seq<T> {
    if s == [] || le(x, s[0]) then [x] + s else [s[0]] + Insert(x, s[1..], le)
  }

  function Sort<T>(s: seq<T>, le: (T, T) -> bool): seq<T> {
    if s == [] then [] else Insert(s[0], Sort(s[1..], le), le)
  }

  /** The elements that compare equal to `x`. */
  function Tied<T>(x: T, le: (T, T) -> bool): T -> bool {
    y => le(x, y) && le(y, x)
  }

  lemma {:induction false} InsertMembers<T(!new)>(x: T, s: seq<T>, le: (T, T) -> bool)
    ensures multiset(Insert(x, s, le)) == multiset(s) + multiset{x}
    ensures forall y :: y in Insert(x, s, le) <==> y == x || y in s
  {
    if !(s == [] || le(x, s[0])) {
      InsertMembers(x, s[1..], le);
      assert s == [s[0]] + s[1..];
    }
  }

  lemma {:induction false} InsertSorted<T(!new)>(x: T, s: seq<T>, le: (T, T) -> bool)
    requires TotalPreorder(le) && Sorted(s, le)
    ensures Sorted(Insert(x, s, le), le)
  {
    if !(s == [] || le(x, s[0])) {
      var rest := Insert(x, s[1..], le);
      InsertSorted(x, s[1..], le);
      InsertMembers(x, s[1..], le);
      forall j | 0 <= j < |rest| ensures le(s[0], rest[j]) {
        assert rest[j] in rest;
      }
      assert Insert(x, s, le) == [s[0]] + rest;
    }
  }

  lemma {:induction false} SortSorted<T(!new)>(s: seq<T>, le: (T, T) -> bool)
    requires TotalPreorder(le)
    ensures Sorted(Sort(s, le), le)
    ensures multiset(Sort(s, le)) == multiset(s)
  {
    if s != [] {
      SortSorted(s[1..], le);
      InsertSorted(s[0], Sort(s[1..], le), le);
      InsertMembers(s[0], Sort(s[1..], le), le);
      assert s == [s[0]] + s[1..];
    }
  }

  lemma {:induction false} SortMembers<T(!new)>(s: seq<T>, le: (T, T) -> bool)
    requires TotalPreorder(le)
    ensures |Sort(s, le)| == |s|
    ensures forall x :: x in Sort(s, le) <==> x in s
  {
    SortSorted(s, le);
    assert |multiset(Sort(s, le))| == |multiset(s)|;
    forall x ensures x in Sort(s, le) <==> x in s {
      assert x in multiset(Sort(s, le)) <==> x in multiset(s);
    }
  }

  /** A list that is already in order comes back unchanged. */
  lemma {:induction false} SortOfSorted<T(!new)>(s: seq<T>, le: (T, T) -> bool)
    requires Sorted(s, le)
    ensures Sort(s, le) == s
  {
    if s != [] {
      SortOfSorted(s[1..], le);
      assert s == [s[0]] + s[1..];
    }
  }

  lemma {:induction false} FilterInsert<T(!new)>(x: T, s: seq<T>, le: (T, T) -> bool, keep: T -> bool)
    requires TotalPreorder(le) && Sorted(s, le)
    ensures Filter(Insert(x, s, le), keep) ==
            if keep(x) then Insert(x, Filter(s, keep), le) else Filter(s, keep)
  {
    if s == [] || le(x, s[0]) {
      assert ([x] + s)[1..] == s;
      if keep(x) && Filter(s, keep) != [] {
        FilterMembers(s, keep);
        assert Filter(s, keep)[0] in s;
        assert le(x, Filter(s, keep)[0]);
      }
    } else {
      var rest := Insert(x, s[1..], le);
      assert ([s[0]] + rest)[1..] == rest;
      FilterInsert(x, s[1..], le, keep);
    }
  }

  /** Sorting commutes with dropping elements. */
  lemma {:induction false} FilterSort<T(!new)>(s: seq<T>, le: (T, T) -> bool, keep: T -> bool)
    requires TotalPreorder(le)
    ensures Filter(Sort(s, le), keep) == Sort(Filter(s, keep), le)
  {
    if s != [] {
      FilterSort(s[1..], le, keep);
      SortSorted(s[1..], le);
      FilterInsert(s[0], Sort(s[1..], le), le, keep);
    }
  }

  /** Stability: elements that compare equal keep their relative order. */
  lemma SortStable<T(!new)>(s: seq<T>, le: (T, T) -> bool, x: T)
    requires TotalPreorder(le)
    ensures Filter(Sort(s, le), Tied(x, le)) == Filter(s, Tied(x, le))
  {
    var ties := Filter(s, Tied(x, le));
    FilterSort(s, le, Tied(x, le));
    FilterMembers(s, Tied(x, le));
    assert forall i :: 0 <= i < |ties| ==> ties[i] in ties;
    SortOfSorted(ties, le);
  }

  /** Order and stability leave only one possible result. */
  lemma {:induction false} SortedWithSameTies<T(!new)>(t: seq<T>, u: seq<T>, le: (T, T) -> bool)
    requires TotalPreorder(le) && Sorted(t, le) && Sorted(u, le)
    requires forall x :: Filter(t, Tied(x, le)) == Filter(u, Tied(x, le))
    ensures t == u
    decreases |t| + |u|
  {
    forall x ensures x in t <==> x in u {
      FilterMembers(t, Tied(x, le));
      FilterMembers(u, Tied(x, le));
      assert le(x, x);
      assert x in Filter(t, Tied(x, le)) <==> x in Filter(u, Tied(x, le));
    }
    if t != [] {
      assert t[0] in u;
    }
    if u != [] {
      assert u[0] in t;
    }
    if t != [] && u != [] {
      assert le(t[0], t[0]) && le(u[0], u[0]);
      assert le(t[0], u[0]) && le(u[0], t[0]);
      assert Filter(t, Tied(t[0], le))[0] == t[0];
      assert Filter(u, Tied(t[0], le))[0] == u[0];
      forall x ensures Filter(t[1..], Tied(x, le)) == Filter(u[1..], Tied(x, le)) {
        var p := Tied(x, le);
        assert Filter(t, p) == Filter(u, p) && p(t[0]) == p(u[0]);
        if p(t[0]) {
          assert Filter(t, p)[1..] == Filter(t[1..], p);
          assert Filter(u, p)[1..] == Filter(u[1..], p);
        }
      }
      SortedWithSameTies(t[1..], u[1..], le);
      assert t == [t[0]] + t[1..] && u == [u[0]] + u[1..];
    }
  }

  /** `Sort` is the only stable sort: any sorted rearrangement that keeps the
      order of ties is its result. */
  lemma StableSortUnique<T(!new)>(s: seq<T>, t: seq<T>, le: (T, T) -> bool)
    requires TotalPreorder(le)
    ensures t == Sort(s, le) <==>
            Sorted(t, le) && forall x :: Filter(t, Tied(x, le)) == Filter(s, Tied(x, le))
  {
    SortSorted(s, le);
    forall x ensures Filter(Sort(s, le), Tied(x, le)) == Filter(s, Tied(x, le)) {
      SortStable(s, le, x);
    }
    if Sorted(t, le) && forall x :: Filter(t, Tied(x, le)) == Filter(s, Tied(x, le)) {
      SortedWithSameTies(t, Sort(s, le), le);
    }
  }
}
