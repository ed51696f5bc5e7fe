/** Sums of reals over sequences and over the values of a map. */
module RealSums {

  function SumReal<T>(s: seq<T>, f: T -> real): real {
    if s == [] then 0.0 else SumReal(s[..|s| - 1], f) + f(s[|s| - 1])
  }

  lemma SumRealAppend<T>(s: seq<T>, x: T, f: T -> real)
    ensures SumReal(s + [x], f) == SumReal(s, f) + f(x)
  {
    assert (s + [x])[..|s|] == s;
  }

  /** Sums are linear in the summand. */
  lemma {:induction false} SumRealLinear<T>(s: seq<T>, f: T -> real, g: T -> real, h: T -> real, c: real)
    requires forall i :: 0 <= i < |s| ==> h(s[i]) == f(s[i]) + c * g(s[i])
    ensures SumReal(s, h) == SumReal(s, f) + c * SumReal(s, g)
  {
    if s == [] {
    } else {
      var n := |s| - 1;
      SumRealLinear(s[..n], f, g, h, c);
      assert h(s[n]) == f(s[n]) + c * g(s[n]);
    }
  }

  lemma {:induction false} SumRealEqual<T>(s: seq<T>, f: T -> real, g: T -> real)
    requires forall i :: 0 <= i < |s| ==> f(s[i]) == g(s[i])
    ensures SumReal(s, f) == SumReal(s, g)
  {
    if s == [] {
    } else {
      var n := |s| - 1;
      SumRealEqual(s[..n], f, g);
      assert f(s[n]) == g(s[n]);
    }
  }

  lemma {:induction false} SumRealZero<T>(s: seq<T>, f: T -> real)
    requires forall i :: 0 <= i < |s| ==> f(s[i]) == 0.0
    ensures SumReal(s, f) == 0.0
  {
    if s == [] {
    } else {
      SumRealZero(s[..|s| - 1], f);
    }
  }

  /** A sum without negative summands is zero exactly when every summand is. */
  lemma {:induction false} SumRealZeroExactlyWhen<T>(s: seq<T>, f: T -> real)
    requires forall i :: 0 <= i < |s| ==> f(s[i]) >= 0.0
    ensures SumReal(s, f) >= 0.0
    ensures SumReal(s, f) == 0.0 <==> forall i :: 0 <= i < |s| ==> f(s[i]) == 0.0
  {
    if s == [] {
    } else {
      SumRealZeroExactlyWhen(s[..|s| - 1], f);
      assert forall i :: 0 <= i < |s| - 1 ==> s[..|s| - 1][i] == s[i];
    }
  }

  // ----- maps -----

  function At(m: map<string, real>, k: string): real {
    if k in m then m[k] else 0.0
  }

  function AddTo(m: map<string, real>, k: string, d: real): map<string, real> {
    m[k := At(m, k) + d]
  }

  function Removed(m: map<string, real>, k: string): (r: map<string, real>)
    ensures |r.Keys| == |m.Keys| - if k in m then 1 else 0
  {
    var r := map j | j in m && j != k :: m[j];
    assert r.Keys == m.Keys - {k};
    r
  }

  ghost function SomeKey(m: map<string, real>): (k: string)
    requires m.Keys != {}
    ensures k in m
  {
    var k :| k in m.Keys;
    k
  }

  ghost function MapSum(m: map<string, real>): real
    decreases |m.Keys|
  {
    if m.Keys == {} then 0.0 else m[SomeKey(m)] + MapSum(Removed(m, SomeKey(m)))
  }

  /** The sum does not depend on which key is taken out. */
  lemma {:induction false} MapSumWithout(m: map<string, real>, k: string)
    requires k in m
    ensures MapSum(m) == m[k] + MapSum(Removed(m, k))
    decreases |m.Keys|
  {
    var j := SomeKey(m);
    if j == k {
    } else {
      MapSumWithout(Removed(m, j), k);
      MapSumWithout(Removed(m, k), j);
      assert Removed(Removed(m, j), k) == Removed(Removed(m, k), j);
    }
  }

  lemma MapSumAdd(m: map<string, real>, k: string, d: real)
    ensures MapSum(AddTo(m, k, d)) == MapSum(m) + d
  {
    hide MapSum;
    var n := AddTo(m, k, d);
    MapSumWithout(n, k);
    assert Removed(n, k) == Removed(m, k);
    if k in m {
      MapSumWithout(m, k);
    } else {
      assert Removed(m, k) == m;
    }
  }

  function Kept(m: map<string, real>, keep: string -> bool): map<string, real> {
    map k | k in m && keep(k) :: m[k]
  }

  /** What is kept and what is dropped make up the whole. */
  lemma {:induction false} MapSumSplit(m: map<string, real>, keep: string -> bool)
    ensures MapSum(Kept(m, keep)) + MapSum(Kept(m, (k: string) => !keep(k))) == MapSum(m)
    decreases |m.Keys|
  {
    var drop := (k: string) => !keep(k);
    if m.Keys == {} {
      assert Kept(m, keep).Keys == {} && Kept(m, drop).Keys == {};
    } else {
      hide MapSum;
      var k := SomeKey(m);
      MapSumSplit(Removed(m, k), keep);
      MapSumWithout(m, k);
      KeptWithout(m, k, keep);
      KeptWithout(m, k, drop);
    }
  }

  lemma KeptWithout(m: map<string, real>, k: string, keep: string -> bool)
    requires k in m
    ensures MapSum(Kept(m, keep)) == MapSum(Kept(Removed(m, k), keep)) + if keep(k) then m[k] else 0.0
  {
    if keep(k) {
      assert Kept(Removed(m, k), keep) == Removed(Kept(m, keep), k);
      MapSumWithout(Kept(m, keep), k);
    } else {
      assert Kept(Removed(m, k), keep) == Kept(m, keep);
    }
  }

  lemma {:induction false} MapSumZero(m: map<string, real>)
    requires forall k :: k in m ==> m[k] == 0.0
    ensures MapSum(m) == 0.0
    decreases |m.Keys|
  {
    if m.Keys == {} {
    } else {
      MapSumZero(Removed(m, SomeKey(m)));
    }
  }

  /** A sequence that lists every key of a map with a value other than zero, and no key twice. */
  ghost predicate Lists<T>(s: seq<T>, key: T -> string, value: T -> real, m: map<string, real>) {
    && (forall i, j :: 0 <= i < j < |s| ==> key(s[i]) != key(s[j]))
    && (forall i :: 0 <= i < |s| ==> value(s[i]) == At(m, key(s[i])))
    && (forall k :: k in m && m[k] != 0.0 ==> exists i :: 0 <= i < |s| && key(s[i]) == k)
  }

  lemma ListsFront<T>(s: seq<T>, key: T -> string, value: T -> real, m: map<string, real>)
    requires s != [] && Lists(s, key, value, m)
    ensures Lists(s[..|s| - 1], key, value, Removed(m, key(s[|s| - 1])))
  {
    var n := |s| - 1;
    var rest := Removed(m, key(s[n]));
    forall k | k in rest && rest[k] != 0.0 ensures exists i :: 0 <= i < n && key(s[..n][i]) == k {
      var i :| 0 <= i < |s| && key(s[i]) == k;
      assert s[..n][i] == s[i];
    }
    forall i | 0 <= i < n ensures value(s[..n][i]) == At(rest, key(s[..n][i])) { assert s[..n][i] == s[i]; }
  }

  lemma {:induction false} ListedSum<T>(s: seq<T>, key: T -> string, value: T -> real, m: map<string, real>)
    requires Lists(s, key, value, m)
    ensures SumReal(s, value) == MapSum(m)
  {
    if s == [] {
      MapSumZero(m);
    } else {
      hide MapSum;
      var k := key(s[|s| - 1]);
      ListsFront(s, key, value, m);
      ListedSum(s[..|s| - 1], key, value, Removed(m, k));
      if k in m { MapSumWithout(m, k); } else { assert Removed(m, k) == m; }
    }
  }
}
