/** The quota sampler of the seeder: apps/dev-seed/main.go:717-833. */
module Quota {

  /** The sampler picks number `s` out of `n` when the running quota steps there. */
  predicate Hit(s: nat, q: nat, n: nat)
    requires n > 0
  {
    (s + 1) * q / n != s * q / n
  }

  // ----- one day -----

  function Hits(k: nat, q: nat, n: nat): nat
    requires n > 0
  {
    if k == 0 then 0 else Hits(k - 1, q, n) + if Hit(k - 1, q, n) then 1 else 0
  }

  /** A quotient and the bounds it stands for. */
  lemma QuotientBounds(a: int, n: nat, m: int)
    requires n > 0
    ensures a / n == m <==> m * n <= a < m * n + n
  {
    var r := a % n;
    assert a == (a / n) * n + r;
    if m * n <= a < m * n + n && m != a / n { QuotientApart(a / n, m, n, a); }
  }

  lemma Times(x: int, y: int, n: nat)
    ensures x <= y ==> x * n <= y * n
    ensures (x + 1) * n == x * n + n
  {}

  lemma QuotientApart(x: int, m: int, n: nat, a: int)
    requires n > 0 && x * n <= a < x * n + n && m * n <= a < m * n + n
    ensures x == m
  {
    Times(x, m, n);
    Times(m, x, n);
    Times(x + 1, m, n);
    Times(m + 1, x, n);
  }

  /** With at most one unit of quota per number, the quotient steps by at most one. */
  lemma StepByOne(s: nat, q: nat, n: nat)
    requires n > 0 && q <= n
    ensures (s + 1) * q / n == s * q / n + if Hit(s, q, n) then 1 else 0
  {
    var m := s * q / n;
    QuotientBounds(s * q, n, m);
    assert (s + 1) * q == s * q + q;
    QuotientBounds((s + 1) * q, n, m);
    QuotientBounds((s + 1) * q, n, m + 1);
  }

  /** After `k` numbers the sampler has picked exactly the running quota. */
  lemma {:induction false} HitsSoFar(k: nat, q: nat, n: nat)
    requires n > 0 && q <= n
    ensures Hits(k, q, n) == k * q / n
  {
    if k > 0 {
      HitsSoFar(k - 1, q, n);
      StepByOne(k - 1, q, n);
    } else {
      QuotientBounds(0 * q, n, 0);
    }
  }

  lemma ExactlyTheQuota(q: nat, n: nat)
    requires n > 0 && q <= n
    ensures Hits(n, q, n) == q
  {
    HitsSoFar(n, q, n);
    QuotientBounds(n * q, n, q);
  }

  lemma {:induction false} NoHitsBetween(s: nat, t: nat, q: nat, n: nat)
    requires n > 0 && s < t && forall u :: s < u < t ==> !Hit(u, q, n)
    ensures t * q / n == (s + 1) * q / n
  {
    if s + 1 == t {
    } else {
      NoHitsBetween(s, t - 1, q, n);
      assert !Hit(t - 1, q, n);
    }
  }

  function Ceiling(n: nat, q: nat): nat
    requires q > 0
  {
    (n + q - 1) / q
  }

  /** Two hits in a row lie the floor or the ceiling of n / q apart. */
  lemma GapsEven(s: nat, t: nat, q: nat, n: nat)
    requires 0 < q <= n && s < t && Hit(s, q, n) && Hit(t, q, n)
    requires forall u :: s < u < t ==> !Hit(u, q, n)
    ensures n / q <= t - s <= Ceiling(n, q) <= n / q + 1
  {
    var m := (s + 1) * q / n;
    NoHitsBetween(s, t, q, n);
    StepByOne(s, q, n);
    StepByOne(t, q, n);
    QuotientBounds(s * q, n, m - 1);
    QuotientBounds((s + 1) * q, n, m);
    QuotientBounds(t * q, n, m);
    QuotientBounds((t + 1) * q, n, m + 1);
    GapBounds(s, t, q, n, m);
  }

  lemma GapBounds(s: int, t: int, q: nat, n: nat, m: int)
    requires 0 < q && m * n <= s * q + q && s * q < m * n && t * q < m * n + n && m * n + n <= t * q + q
    ensures n / q <= t - s <= Ceiling(n, q) <= n / q + 1
  {
    var gap := t - s;
    assert gap * q == t * q - s * q;
    FloorBound(gap, q, n);
    CeilingBound(gap, q, n);
  }

  lemma FloorBound(gap: int, q: nat, n: nat)
    requires q > 0 && n - q < gap * q
    ensures n / q <= gap
  {
    var f := n / q;
    assert n == f * q + n % q;
    Times(gap, f, q);
    Times(gap + 1, f, q);
  }

  lemma CeilingBound(gap: int, q: nat, n: nat)
    requires q > 0 && gap * q < n + q
    ensures gap <= Ceiling(n, q) <= n / q + 1
  {
    var c, f := Ceiling(n, q), n / q;
    assert n + q - 1 == c * q + (n + q - 1) % q;
    assert n == f * q + n % q;
    Times(c, c + 1, q);
    Times(c + 1, gap, q);
    Times(f, f, q);
    Times(f + 1, f + 1, q);
    Times(f + 2, c, q);
  }

  // ----- all days in one pass -----

  type Picks = nat -> bool

  /** How many of the first `k` rows of a day are picked. */
  function On(days: seq<nat>, p: Picks, d: nat, k: nat): (n: nat)
    requires k <= |days|
    ensures n <= k
  {
    if k == 0 then 0 else On(days, p, d, k - 1) + if days[k - 1] == d && p(k - 1) then 1 else 0
  }

  function Total(days: seq<nat>, p: Picks, d: nat): nat {
    On(days, p, d, |days|)
  }

  lemma {:induction false} OnGrows(days: seq<nat>, p: Picks, d: nat, j: nat, k: nat)
    requires j <= k <= |days|
    ensures On(days, p, d, j) <= On(days, p, d, k)
    ensures j < k && days[j] == d && p(j) ==> On(days, p, d, j) < On(days, p, d, k)
  {
    if j == k {
    } else {
      OnGrows(days, p, d, j, k - 1);
    }
  }

  /** Row `i` is eligible and its number on its day is hit. */
  predicate Sampled(days: seq<nat>, p: Picks, quota: nat -> nat, i: nat) {
    && i < |days| && p(i) && quota(days[i]) > 0 && Total(days, p, days[i]) > 0
    && Hit(On(days, p, days[i], i), quota(days[i]), Total(days, p, days[i]))
  }

  function Sample(days: seq<nat>, p: Picks, quota: nat -> nat): Picks {
    (i: nat) => Sampled(days, p, quota, i)
  }

  /** However the days interleave, each gets exactly its quota. */
  lemma EachDayExact(days: seq<nat>, p: Picks, quota: nat -> nat, d: nat)
    requires quota(d) <= Total(days, p, d)
    ensures Total(days, Sample(days, p, quota), d) == quota(d)
  {
    var n := Total(days, p, d);
    if n == 0 {
      NothingEligible(days, p, quota, d, |days|);
    } else {
      SampledSoFar(days, p, quota, d, |days|);
      ExactlyTheQuota(quota(d), n);
    }
  }

  lemma {:induction false} SampledSoFar(days: seq<nat>, p: Picks, quota: nat -> nat, d: nat, k: nat)
    requires k <= |days| && 0 < Total(days, p, d)
    ensures On(days, Sample(days, p, quota), d, k) == Hits(On(days, p, d, k), quota(d), Total(days, p, d))
  {
    hide Hit;
    if k == 0 {
    } else {
      SampledSoFar(days, p, quota, d, k - 1);
      if quota(d) == 0 { NoQuotaNoHit(On(days, p, d, k - 1), Total(days, p, d)); }
    }
  }

  lemma NoQuotaNoHit(s: nat, n: nat)
    requires n > 0
    ensures !Hit(s, 0, n)
  {}

  lemma {:induction false} NothingEligible(days: seq<nat>, p: Picks, quota: nat -> nat, d: nat, k: nat)
    requires k <= |days| && Total(days, p, d) == 0
    ensures On(days, Sample(days, p, quota), d, k) == 0
  {
    if k == 0 {
    } else {
      NothingEligible(days, p, quota, d, k - 1);
      OnGrows(days, p, d, k - 1, |days|);
    }
  }

  // ----- the seeder -----

  /** seedHasImpression. */
  predicate HasImpression(i: nat) {
    i % 17 != 0 && i % 23 != 0
  }

  function ClickRatePermille(d: nat): nat {
    if d % 13 == 4 || d % 17 == 9 then 11
    else if d % 7 == 2 then 13
    else if d % 6 == 0 then 19
    else 16
  }

  function ConversionRatePermille(d: nat): nat {
    if d % 13 == 4 || d % 17 == 9 then 14
    else if d % 7 == 2 then 26
    else if d % 6 == 0 then 58
    else if d % 5 == 1 then 36
    else 44
  }

  function ClickQuota(impressions: nat, d: nat): (q: nat)
    ensures q <= impressions
  {
    (impressions * ClickRatePermille(d) + 500) / 1000
  }

  function ConversionQuota(clicks: nat, d: nat): (q: nat)
    ensures q * 100 <= clicks * 6
  {
    var quota, capValue := (clicks * ConversionRatePermille(d) + 500) / 1000, clicks * 6 / 100;
    if quota > capValue then capValue else quota
  }

  function Get(m: map<nat, nat>, d: nat): nat {
    if d in m then m[d] else 0
  }

  /** The counts hold every day that has any. */
  ghost predicate Counts(m: map<nat, nat>, days: seq<nat>, p: Picks, k: nat)
    requires k <= |days|
  {
    forall d :: Get(m, d) == On(days, p, d, k)
  }

  lemma NextCount(m: map<nat, nat>, days: seq<nat>, p: Picks, i: nat)
    requires i < |days| && Counts(m, days, p, i)
    ensures Counts(if p(i) then m[days[i] := Get(m, days[i]) + 1] else m, days, p, i + 1)
  {
    var next := if p(i) then m[days[i] := Get(m, days[i]) + 1] else m;
    forall d ensures Get(next, d) == On(days, p, d, i + 1) {
      assert Get(m, d) == On(days, p, d, i);
    }
  }

  /** The clicks the seeder makes. */
  function Clicks(days: seq<nat>): Picks {
    Sample(days, HasImpression, (d: nat) => ClickQuota(Total(days, HasImpression, d), d))
  }

  function Conversions(days: seq<nat>): Picks {
    Sample(days, Clicks(days), (d: nat) => ConversionQuota(Total(days, Clicks(days), d), d))
  }

  /** Each day gets its click quota and its conversion quota, and at most 6% of the clicks convert. */
  lemma SeedQuotas(days: seq<nat>, d: nat)
    ensures Total(days, Clicks(days), d) == ClickQuota(Total(days, HasImpression, d), d)
    ensures Total(days, Conversions(days), d) == ConversionQuota(Total(days, Clicks(days), d), d)
    ensures Total(days, Conversions(days), d) * 100 <= Total(days, Clicks(days), d) * 6
  {
    hide ClickQuota, ConversionQuota, HasImpression;
    EachDayExact(days, HasImpression, (d: nat) => ClickQuota(Total(days, HasImpression, d), d), d);
    EachDayExact(days, Clicks(days), (d: nat) => ConversionQuota(Total(days, Clicks(days), d), d), d);
  }

  /** The quotas are the rates of the day, to the nearest whole click or conversion, and conversions
      stop at six percent. */
  lemma QuotasFollowRates(n: nat, d: nat)
    ensures var clicked := if d % 13 == 4 || d % 17 == 9 then 11 else if d % 7 == 2 then 13
                           else if d % 6 == 0 then 19 else 16;
            -500 < 1000 * ClickQuota(n, d) - n * clicked <= 500
    ensures var converted := if d % 13 == 4 || d % 17 == 9 then 14 else if d % 7 == 2 then 26
                             else if d % 6 == 0 then 58 else if d % 5 == 1 then 36 else 44;
            var q := ConversionQuota(n, d);
            && 1000 * q - n * converted <= 500
            && (1000 * q - n * converted <= -500 ==> 100 * q <= 6 * n < 100 * (q + 1))
  {
    var clicks, conversions := n * ClickRatePermille(d), n * ConversionRatePermille(d);
    assert -500 < 1000 * ((clicks + 500) / 1000) - clicks <= 500;
    assert -500 < 1000 * ((conversions + 500) / 1000) - conversions <= 500;
  }

  /** Multiples of 17 and of 23 have no impression, and all other rows have one. */
  lemma ImpressionMeaning(i: nat)
    ensures !HasImpression(17 * i) && !HasImpression(23 * i)
    ensures HasImpression(i) || i == 17 * (i / 17) || i == 23 * (i / 23)
  {}

  /** seedImpressionCountsByDay. */
  method ImpressionCountsByDay(days: seq<nat>) returns (counts: map<nat, nat>)
    ensures Counts(counts, days, HasImpression, |days|)
  {
    counts := map[];
    for i := 0 to |days|
      invariant Counts(counts, days, HasImpression, i)
    {
      if HasImpression(i) { counts := counts[days[i] := Get(counts, days[i]) + 1]; }
    }
  }

  function Member(s: set<nat>): Picks {
    (i: nat) => i in s
  }

  /** seedClickCountsByDay. */
  method ClickCountsByDay(days: seq<nat>, clicked: set<nat>) returns (counts: map<nat, nat>)
    ensures Counts(counts, days, Member(clicked), |days|)
  {
    counts := map[];
    for i := 0 to |days|
      invariant Counts(counts, days, Member(clicked), i)
    {
      if i in clicked { counts := counts[days[i] := Get(counts, days[i]) + 1]; }
    }
  }

  /** seedClickQuotasByDay. */
  method ClickQuotasByDay(impressions: map<nat, nat>) returns (quotas: map<nat, nat>)
    ensures quotas.Keys == impressions.Keys && forall d :: d in quotas ==> quotas[d] == ClickQuota(impressions[d], d)
  {
    hide ClickQuota;
    quotas := map[];
    var left := impressions.Keys;
    while left != {}
      invariant left <= impressions.Keys && quotas.Keys == impressions.Keys - left
      invariant forall d :: d in quotas ==> quotas[d] == ClickQuota(impressions[d], d)
      decreases |left|
    {
      var d :| d in left;
      left := left - {d};
      quotas := quotas[d := ClickQuota(impressions[d], d)];
    }
  }

  /** seedConversionQuotasByDay. */
  method ConversionQuotasByDay(clicks: map<nat, nat>) returns (quotas: map<nat, nat>)
    ensures quotas.Keys == clicks.Keys && forall d :: d in quotas ==> quotas[d] == ConversionQuota(clicks[d], d)
  {
    hide ConversionQuota;
    quotas := map[];
    var left := clicks.Keys;
    while left != {}
      invariant left <= clicks.Keys && quotas.Keys == clicks.Keys - left
      invariant forall d :: d in quotas ==> quotas[d] == ConversionQuota(clicks[d], d)
      decreases |left|
    {
      var d :| d in left;
      left := left - {d};
      quotas := quotas[d := ConversionQuota(clicks[d], d)];
    }
  }

  /** seedClickedIndexes. */
  method ClickedIndexes(days: seq<nat>) returns (clicked: set<nat>)
    ensures forall i: nat :: i in clicked <==> Clicks(days)(i)
  {
    hide Hit, ClickQuota, On;
    var impressionsByDay := ImpressionCountsByDay(days);
    var quotasByDay := ClickQuotasByDay(impressionsByDay);
    var seenByDay: map<nat, nat> := map[];
    clicked := {};
    for i := 0 to |days|
      invariant Counts(seenByDay, days, HasImpression, i)
      invariant forall j: nat :: j in clicked <==> j < i && Clicks(days)(j)
    {
      NextCount(seenByDay, days, HasImpression, i);
      if !HasImpression(i) { continue; }
      var d := days[i];
      OnGrows(days, HasImpression, d, i, |days|);
      var seen := Get(seenByDay, d);
      seenByDay := seenByDay[d := seen + 1];
      var impressions, quota := Get(impressionsByDay, d), Get(quotasByDay, d);
      if quota > 0 && Hit(seen, quota, impressions) { clicked := clicked + {i}; }
    }
  }

  /** postbackRows: the indexes that get a postback. */
  method PostbackIndexes(days: seq<nat>) returns (converted: set<nat>)
    ensures forall i: nat :: i in converted <==> Conversions(days)(i)
  {
    hide Hit, ConversionQuota, Clicks, Conversions, On;
    var clicked := ClickedIndexes(days);
    var clicksByDay := ClickCountsByDay(days, clicked);
    forall d ensures Total(days, Member(clicked), d) == Total(days, Clicks(days), d) {
      SamePicks(days, Member(clicked), Clicks(days), d, |days|);
    }
    var quotasByDay := ConversionQuotasByDay(clicksByDay);
    var seenByDay: map<nat, nat> := map[];
    converted := {};
    for i := 0 to |days|
      invariant Counts(seenByDay, days, Clicks(days), i)
      invariant forall j: nat :: j in converted <==> j < i && Conversions(days)(j)
    {
      Converts(days, i);
      NextCount(seenByDay, days, Clicks(days), i);
      if i !in clicked { continue; }
      var d := days[i];
      OnGrows(days, Clicks(days), d, i, |days|);
      var seen := Get(seenByDay, d);
      seenByDay := seenByDay[d := seen + 1];
      var clicks, quota := Get(clicksByDay, d), Get(quotasByDay, d);
      if quota == 0 || !Hit(seen, quota, clicks) { continue; }
      converted := converted + {i};
    }
    forall i: nat ensures Conversions(days)(i) ==> i < |days| { Converts(days, i); }
  }

  /** Which clicked rows convert. */
  lemma Converts(days: seq<nat>, i: nat)
    ensures Conversions(days)(i) <==>
            && i < |days|
            && var p, d := Clicks(days), days[i];
               var clicks := Total(days, p, d);
               p(i) && clicks > 0 && ConversionQuota(clicks, d) > 0 &&
               Hit(On(days, p, d, i), ConversionQuota(clicks, d), clicks)
  {
    hide Clicks, Hit, ConversionQuota, On;
  }

  lemma {:induction false} SamePicks(days: seq<nat>, p: Picks, q: Picks, d: nat, k: nat)
    requires k <= |days| && forall i :: p(i) <==> q(i)
    ensures On(days, p, d, k) == On(days, q, d, k)
  {
    if k == 0 {
    } else {
      SamePicks(days, p, q, d, k - 1);
    }
  }
}
