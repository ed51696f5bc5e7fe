/** Counting and summing over sequences, element by element. */
module Counting {

  function CountIf<T>(s: seq<T>, p: T -> bool): (n: nat)
    ensures n <= |s|
  {
    if s == [] then 0 else CountIf(s[..|s| - 1], p) + if p(s[|s| - 1]) then 1 else 0
  }

  function SumOf<T>(s: seq<T>, f: T -> int): int {
    if s == [] then 0 else SumOf(s[..|s| - 1], f) + f(s[|s| - 1])
  }

  function Without<T>(s: seq<T>, i: nat): seq<T>
    requires i < |s|
  {
    s[..i] + s[i + 1..]
  }

  lemma CountAppend<T>(s: seq<T>, x: T, p: T -> bool)
    ensures CountIf(s + [x], p) == CountIf(s, p) + if p(x) then 1 else 0
  {
    assert (s + [x])[..|s|] == s;
  }

  lemma SumAppend<T>(s: seq<T>, x: T, f: T -> int)
    ensures SumOf(s + [x], f) == SumOf(s, f) + f(x)
  {
    assert (s + [x])[..|s|] == s;
  }

  lemma {:induction false} CountWithout<T>(s: seq<T>, i: nat, p: T -> bool)
    requires i < |s|
    ensures CountIf(Without(s, i), p) == CountIf(s, p) - if p(s[i]) then 1 else 0
  {
    if i == |s| - 1 {
      assert Without(s, i) == s[..i];
    } else {
      CountWithout(s[..|s| - 1], i, p);
      assert Without(s, i) == Without(s[..|s| - 1], i) + [s[|s| - 1]];
      CountAppend(Without(s[..|s| - 1], i), s[|s| - 1], p);
    }
  }

  lemma {:induction false} SumWithout<T>(s: seq<T>, i: nat, f: T -> int)
    requires i < |s|
    ensures SumOf(Without(s, i), f) == SumOf(s, f) - f(s[i])
  {
    if i == |s| - 1 {
      assert Without(s, i) == s[..i];
    } else {
      SumWithout(s[..|s| - 1], i, f);
      assert Without(s, i) == Without(s[..|s| - 1], i) + [s[|s| - 1]];
      SumAppend(Without(s[..|s| - 1], i), s[|s| - 1], f);
    }
  }

  lemma {:induction false} CountUpdated<T>(s: seq<T>, i: nat, x: T, p: T -> bool)
    requires i < |s|
    ensures CountIf(s[i := x], p) == CountIf(s, p) - (if p(s[i]) then 1 else 0) + if p(x) then 1 else 0
  {
    var n := |s| - 1;
    if i < n {
      CountUpdated(s[..n], i, x, p);
      assert s[i := x][..n] == s[..n][i := x];
    } else {
      assert s[i := x][..n] == s[..n];
    }
  }

  lemma {:induction false} CountNone<T>(s: seq<T>, p: T -> bool)
    requires forall i :: 0 <= i < |s| ==> !p(s[i])
    ensures CountIf(s, p) == 0
  {
    if s == [] {
    } else {
      CountNone(s[..|s| - 1], p);
    }
  }

  /** A positive count has a witness. */
  lemma {:induction false} CountWitness<T>(s: seq<T>, p: T -> bool) returns (i: nat)
    requires CountIf(s, p) > 0
    ensures i < |s| && p(s[i])
  {
    if p(s[|s| - 1]) { i := |s| - 1; } else { i := CountWitness(s[..|s| - 1], p); }
  }

  lemma CountPositive<T>(s: seq<T>, i: nat, p: T -> bool)
    requires i < |s| && p(s[i])
    ensures CountIf(s, p) > 0
  {
    CountWithout(s, i, p);
  }

  lemma {:induction false} CountAtMost<T>(s: seq<T>, p: T -> bool, q: T -> bool)
    requires forall i :: 0 <= i < |s| && p(s[i]) ==> q(s[i])
    ensures CountIf(s, p) <= CountIf(s, q)
  {
    if s == [] {
    } else {
      CountAtMost(s[..|s| - 1], p, q);
    }
  }

  lemma {:induction false} SumNonNegative<T>(s: seq<T>, f: T -> int)
    requires forall i :: 0 <= i < |s| ==> f(s[i]) >= 1
    ensures SumOf(s, f) >= |s|
  {
    if s == [] {
    } else {
      SumNonNegative(s[..|s| - 1], f);
    }
  }

  lemma SubsetSize<T>(a: set<T>, b: set<T>)
    ensures a <= b ==> |a| <= |b|
  {
    if a <= b { assert b == a + (b - a); }
  }
}
