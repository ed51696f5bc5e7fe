/** Sorting by a strict comparator, and why the result depends on the data alone.

    `Sort` is the insertion order of a stable sort.  The report sorter and the
    ORDER BY of the audience query are both instances of it. */
module Sorting {

  /** An irreflexive and transitive comparator. */
  ghost predicate StrictOrder<T(!new)>(lt: (T, T) -> bool) {
    && (forall x :: !lt(x, x))
    && (forall x, y, z :: lt(x, y) && lt(y, z) ==> lt(x, z))
  }

  /** The comparator tells any two positions of `s` apart. */
  ghost predicate Distinguishes<T(!new)>(lt: (T, T) -> bool, s: seq<T>) {
    forall i, j :: 0 <= i < j < |s| ==> lt(s[i], s[j]) || lt(s[j], s[i])
  }

  ghost predicate Ordered<T(!new)>(lt: (T, T) -> bool, s: seq<T>) {
    forall i, j :: 0 <= i < j < |s| ==> lt(s[i], s[j])
  }

  /** Puts `x` behind every element it is not less than, as a stable sort does. */
  function Insert<T>(x: T, s: seq<T>, lt: (T, T) -> bool): (r: seq<T>)
    ensures |r| == |s| + 1
  {
    if s == [] then [x]
    else if lt(x, s[|s| - 1]) then Insert(x, s[..|s| - 1], lt) + [s[|s| - 1]]
    else s + [x]
  }

  function Sort<T>(s: seq<T>, lt: (T, T) -> bool): (r: seq<T>)
    ensures |r| == |s|
  {
    if s == [] then [] else Insert(s[|s| - 1], Sort(s[..|s| - 1], lt), lt)
  }

  lemma {:induction false} InsertPermutes<T>(x: T, s: seq<T>, lt: (T, T) -> bool)
    ensures multiset(Insert(x, s, lt)) == multiset(s) + multiset{x}
  {
    if s == [] {
    } else if lt(x, s[|s| - 1]) {
      InsertPermutes(x, s[..|s| - 1], lt);
      assert s == s[..|s| - 1] + [s[|s| - 1]];
    }
  }

  lemma {:induction false} SortPermutes<T>(s: seq<T>, lt: (T, T) -> bool)
    ensures multiset(Sort(s, lt)) == multiset(s)
  {
    if s == [] {
    } else {
      SortPermutes(s[..|s| - 1], lt);
      InsertPermutes(s[|s| - 1], Sort(s[..|s| - 1], lt), lt);
      assert s == s[..|s| - 1] + [s[|s| - 1]];
    }
  }

  lemma {:induction false} InsertOrders<T(!new)>(x: T, s: seq<T>, lt: (T, T) -> bool)
    requires StrictOrder(lt) && Ordered(lt, s)
    requires forall i :: 0 <= i < |s| ==> lt(x, s[i]) || lt(s[i], x)
    ensures Ordered(lt, Insert(x, s, lt))
  {
    if s == [] {
    } else if lt(x, s[|s| - 1]) {
      var front := s[..|s| - 1];
      InsertOrders(x, front, lt);
      InsertPermutes(x, front, lt);
      var r := Insert(x, front, lt);
      forall i | 0 <= i < |r| ensures lt(r[i], s[|s| - 1]) {
        assert r[i] in multiset(r);
        assert r[i] == x || r[i] in front;
      }
    }
  }

  lemma {:induction false} SortOrders<T(!new)>(s: seq<T>, lt: (T, T) -> bool)
    requires StrictOrder(lt) && Distinguishes(lt, s)
    ensures Ordered(lt, Sort(s, lt))
  {
    if s == [] {
    } else {
      var front := s[..|s| - 1];
      SortOrders(front, lt);
      SortPermutes(front, lt);
      var r := Sort(front, lt);
      forall i | 0 <= i < |r| ensures lt(s[|s| - 1], r[i]) || lt(r[i], s[|s| - 1]) {
        assert r[i] in multiset(r);
        assert r[i] in front;
      }
      InsertOrders(s[|s| - 1], r, lt);
    }
  }

  /** A strictly ordered arrangement of given elements is unique. */
  lemma {:induction false} OrderedUnique<T(!new)>(a: seq<T>, b: seq<T>, lt: (T, T) -> bool)
    requires StrictOrder(lt) && Ordered(lt, a) && Ordered(lt, b)
    requires multiset(a) == multiset(b)
    ensures a == b
  {
    assert |multiset(a)| == |a| && |multiset(b)| == |b|;
    if a == [] {
    } else {
      SameFirst(a, b, lt);
      assert a == [a[0]] + a[1..] && b == [b[0]] + b[1..];
      assert multiset(a[1..]) == multiset(a) - multiset{a[0]};
      assert multiset(b[1..]) == multiset(b) - multiset{b[0]};
      OrderedUnique(a[1..], b[1..], lt);
    }
  }

  lemma SameFirst<T(!new)>(a: seq<T>, b: seq<T>, lt: (T, T) -> bool)
    requires StrictOrder(lt) && Ordered(lt, a) && Ordered(lt, b)
    requires multiset(a) == multiset(b) && a != [] && b != []
    ensures a[0] == b[0]
  {
    assert a[0] in multiset(b) && b[0] in multiset(a);
    var x, y := a[0], b[0];
    assert lt(x, y) && lt(y, x) ==> lt(x, x);
  }

  /** In a strictly ordered sequence nothing occurs twice. */
  lemma {:induction false} OrderedOnce<T(!new)>(s: seq<T>, lt: (T, T) -> bool)
    requires StrictOrder(lt) && Ordered(lt, s)
    ensures forall x :: multiset(s)[x] == if x in s then 1 else 0
  {
    if s == [] {
    } else {
      var front, last := s[..|s| - 1], s[|s| - 1];
      OrderedOnce(front, lt);
      assert s == front + [last];
      forall i | 0 <= i < |front| ensures front[i] != last { assert lt(s[i], s[|s| - 1]); }
    }
  }

  /** A set of elements has at most one strictly ordered arrangement. */
  lemma OrderedByMembers<T(!new)>(a: seq<T>, b: seq<T>, lt: (T, T) -> bool)
    requires StrictOrder(lt) && Ordered(lt, a) && Ordered(lt, b)
    requires forall x :: x in a <==> x in b
    ensures a == b
  {
    OrderedOnce(a, lt);
    OrderedOnce(b, lt);
    assert multiset(a) == multiset(b);
    OrderedUnique(a, b, lt);
  }

  /** A filter keeps the order, so filtering and sorting commute. */
  function Filter<T>(s: seq<T>, keep: T -> bool): seq<T> {
    if s == [] then []
    else Filter(s[..|s| - 1], keep) + (if keep(s[|s| - 1]) then [s[|s| - 1]] else [])
  }

  lemma {:induction false} FilterMembers<T>(s: seq<T>, keep: T -> bool)
    ensures forall x :: multiset(Filter(s, keep))[x] == if keep(x) then multiset(s)[x] else 0
    ensures forall x :: x in Filter(s, keep) <==> x in s && keep(x)
  {
    if s == [] {
    } else {
      FilterMembers(s[..|s| - 1], keep);
      assert s == s[..|s| - 1] + [s[|s| - 1]];
    }
  }

  lemma {:induction false} FilterOrdered<T(!new)>(s: seq<T>, keep: T -> bool, lt: (T, T) -> bool)
    requires Ordered(lt, s)
    ensures Ordered(lt, Filter(s, keep))
  {
    if s == [] {
    } else {
      var front := s[..|s| - 1];
      FilterOrdered(front, keep, lt);
      FilterMembers(front, keep);
      var r := Filter(front, keep);
      forall i | 0 <= i < |r| ensures lt(r[i], s[|s| - 1]) {
        assert r[i] in r;
        assert r[i] in front;
      }
    }
  }

  lemma {:induction false} FilterDistinguishes<T(!new)>(s: seq<T>, keep: T -> bool, lt: (T, T) -> bool)
    requires Distinguishes(lt, s)
    ensures Distinguishes(lt, Filter(s, keep))
  {
    if s == [] {
    } else {
      var front := s[..|s| - 1];
      FilterDistinguishes(front, keep, lt);
      FilterMembers(front, keep);
      var r := Filter(front, keep);
      forall i | 0 <= i < |r| ensures lt(r[i], s[|s| - 1]) || lt(s[|s| - 1], r[i]) {
        assert r[i] in r;
        assert r[i] in front;
      }
    }
  }

  lemma SortFilterCommute<T(!new)>(s: seq<T>, keep: T -> bool, lt: (T, T) -> bool)
    requires StrictOrder(lt) && Distinguishes(lt, s)
    ensures Sort(Filter(s, keep), lt) == Filter(Sort(s, lt), keep)
  {
    var f := Filter(s, keep);
    hide Sort, Filter;
    FilterDistinguishes(s, keep, lt);
    SortOrders(f, lt);
    SortPermutes(f, lt);
    SortOrders(s, lt);
    SortPermutes(s, lt);
    FilterOrdered(Sort(s, lt), keep, lt);
    FilterMembers(s, keep);
    FilterMembers(Sort(s, lt), keep);
    OrderedUnique(Sort(f, lt), Filter(Sort(s, lt), keep), lt);
  }

  /** Filtering by "from position i on" leaves a tail. */
  lemma {:induction false} FilterTail<T>(s: seq<T>, i: nat, keep: T -> bool)
    requires i <= |s|
    requires forall j :: 0 <= j < |s| ==> (keep(s[j]) <==> i <= j)
    ensures Filter(s, keep) == s[i..]
  {
    if s == [] {
    } else {
      var front, last := s[..|s| - 1], s[|s| - 1];
      assert keep(last) <==> i < |s|;
      forall j | 0 <= j < |front| ensures keep(front[j]) <==> i <= j { assert front[j] == s[j]; }
      if i < |s| {
        FilterTail(front, i, keep);
        assert s[i..] == front[i..] + [last];
      } else {
        FilterTail(front, i - 1, keep);
      }
    }
  }

  lemma {:induction false} FilterTwice<T>(s: seq<T>, p: T -> bool, q: T -> bool, both: T -> bool)
    requires forall x :: both(x) <==> p(x) && q(x)
    ensures Filter(s, both) == Filter(Filter(s, p), q)
  {
    if s == [] {
    } else {
      FilterTwice(s[..|s| - 1], p, q, both);
      var f := Filter(s[..|s| - 1], p);
      if p(s[|s| - 1]) {
        assert (f + [s[|s| - 1]])[..|f|] == f;
      } else {
        assert f + [] == f;
      }
    }
  }
}
