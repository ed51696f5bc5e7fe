/** Spend allocation of the reports: packages/go/reports/service.go:367-551.  Amounts are reals. */
module Spend {
  import opened RealSums
  import opened Sorting

  datatype MetricRow = MetricRow(
    key: string,
    revenue: real,
    conversions: int,
    sent: int,
    shown: int,
    clicks: int,
    closed: int)

  datatype CostRow = CostRow(key: string, spend: real)

  datatype CostAllocation = CostAllocation(publisher: string, source: string, spend: real)

  /** A looked-up id per key; keys without one map to "". */
  type Owners = map<string, string>

  function OwnerOf(owners: Owners, key: string): string {
    if key in owners then owners[key] else ""
  }

  /** allocationWeight: impressions, else clicks, else conversions. */
  function AllocationWeight(r: MetricRow): (w: real)
    ensures w >= 0.0
    ensures w > 0.0 <==> r.shown > 0 || r.clicks > 0 || r.conversions > 0
  {
    if r.shown > 0 then r.shown as real
    else if r.clicks > 0 then r.clicks as real
    else if r.conversions > 0 then r.conversions as real
    else 0.0
  }

  // ----- one stage of the split -----

  /** The weight of a row as far as `k` owns it. */
  function OwnedWeight(owners: Owners, k: string): MetricRow -> real {
    (r: MetricRow) => if OwnerOf(owners, r.key) == k then AllocationWeight(r) else 0.0
  }

  function Weight(rows: seq<MetricRow>, owners: Owners, k: string): real {
    SumReal(rows, OwnedWeight(owners, k))
  }

  predicate Placed(spend: map<string, real>, rows: seq<MetricRow>, owners: Owners, r: MetricRow) {
    var k := OwnerOf(owners, r.key);
    k != "" && At(spend, k) != 0.0 && Weight(rows, owners, k) != 0.0
  }

  /** spend * weight / total. */
  function Portion(spend: real, weight: real, total: real): real
    requires total != 0.0
  {
    spend * weight / total
  }

  lemma PortionOrdered(c: real, x: real, y: real, w: real)
    requires c >= 0.0 && x >= 0.0 && w > 0.0
    ensures Portion(c, x, w) >= 0.0
    ensures x <= y ==> Portion(c, x, w) <= Portion(c, y, w)
  {
    assert c * x >= 0.0;
    if x <= y {
      assert c * x <= c * y;
      assert c * y / w - c * x / w == (c * y - c * x) / w;
    }
  }

  lemma PortionAdds(c: real, x: real, y: real, w: real)
    requires w != 0.0
    ensures Portion(c, x + y, w) == Portion(c, x, w) + Portion(c, y, w)
  {
    assert c * (x + y) == c * x + c * y;
  }

  lemma PortionEnds(c: real, x: real, w: real)
    requires w != 0.0
    ensures Portion(c, 0.0, w) == 0.0 && Portion(c, w, w) == c && Portion(0.0, x, w) == 0.0
  {}

  /** What a row gets of the spend of its owner. */
  function Share(spend: map<string, real>, rows: seq<MetricRow>, owners: Owners): MetricRow -> real {
    (r: MetricRow) =>
      if !Placed(spend, rows, owners, r) then 0.0
      else Portion(At(spend, OwnerOf(owners, r.key)), AllocationWeight(r), Weight(rows, owners, OwnerOf(owners, r.key)))
  }

  /** Owners whose rows can take their spend. */
  function Weighty(rows: seq<MetricRow>, owners: Owners): string -> bool {
    (k: string) => k != "" && Weight(rows, owners, k) != 0.0
  }

  lemma {:induction false} WeightNonNegative(rows: seq<MetricRow>, owners: Owners, k: string)
    ensures Weight(rows, owners, k) >= 0.0
    ensures forall r :: r in rows && OwnerOf(owners, r.key) == k ==> AllocationWeight(r) <= Weight(rows, owners, k)
  {
    if rows == [] {
    } else {
      var n := |rows| - 1;
      WeightNonNegative(rows[..n], owners, k);
      assert rows == rows[..n] + [rows[n]];
    }
  }

  /** Rows of one owner share by what they have: by impressions where both have some, whatever their
      clicks, else by clicks, and by conversions where neither has clicks. */
  lemma SharesProportional(
    spend: map<string, real>, rows: seq<MetricRow>, owners: Owners, r: MetricRow, q: MetricRow)
    requires OwnerOf(owners, r.key) == OwnerOf(owners, q.key)
    ensures var a, b := Share(spend, rows, owners)(r), Share(spend, rows, owners)(q);
            && (r.shown > 0 && q.shown > 0 ==> a * q.shown as real == b * r.shown as real)
            && (r.shown <= 0 && q.shown <= 0 && r.clicks > 0 && q.clicks > 0 ==>
                  a * q.clicks as real == b * r.clicks as real)
            && (r.shown <= 0 && q.shown <= 0 && r.clicks <= 0 && q.clicks <= 0 &&
                r.conversions > 0 && q.conversions > 0 ==>
                  a * q.conversions as real == b * r.conversions as real)
  {
    hide Weight;
    var k := OwnerOf(owners, r.key);
    if Placed(spend, rows, owners, r) {
      InRatio(At(spend, k), AllocationWeight(r), AllocationWeight(q), Weight(rows, owners, k));
    }
  }

  lemma InRatio(c: real, x: real, y: real, w: real)
    requires w != 0.0
    ensures Portion(c, x, w) * y == Portion(c, y, w) * x
  {
    assert c * x / w * y == c * x * y / w;
    assert c * y / w * x == c * x * y / w;
  }

  /** A row's share is never negative, and grows with its weight among the rows of its owner. */
  lemma SharesMonotone(spend: map<string, real>, rows: seq<MetricRow>, owners: Owners, r: MetricRow, q: MetricRow)
    requires At(spend, OwnerOf(owners, r.key)) >= 0.0
    ensures Share(spend, rows, owners)(r) >= 0.0
    ensures OwnerOf(owners, r.key) == OwnerOf(owners, q.key) && AllocationWeight(r) <= AllocationWeight(q) ==>
              Share(spend, rows, owners)(r) <= Share(spend, rows, owners)(q)
  {
    hide Portion, Weight, AllocationWeight;
    var k := OwnerOf(owners, r.key);
    WeightNonNegative(rows, owners, k);
    if Placed(spend, rows, owners, r) {
      PortionOrdered(At(spend, k), AllocationWeight(r), AllocationWeight(q), Weight(rows, owners, k));
    }
  }

  /** The part of a row's share that comes from owner `k`. */
  function PortionOf(owners: Owners, k: string, c: real, total: real): MetricRow -> real
    requires total != 0.0
  {
    (r: MetricRow) => if OwnerOf(owners, r.key) == k then Portion(c, AllocationWeight(r), total) else 0.0
  }

  lemma {:induction false} PortionsOfOne(rows: seq<MetricRow>, owners: Owners, k: string, c: real, total: real)
    requires total != 0.0
    ensures SumReal(rows, PortionOf(owners, k, c, total)) == Portion(c, Weight(rows, owners, k), total)
  {
    hide Portion, AllocationWeight;
    PortionEnds(c, 0.0, total);
    if rows == [] {
    } else {
      var n := |rows| - 1;
      PortionsOfOne(rows[..n], owners, k, c, total);
      PortionAdds(c, Weight(rows[..n], owners, k), AllocationWeight(rows[n]), total);
    }
  }

  /** Conservation: the shares of all rows add up to the spend of exactly those owners whose rows
      have any weight. */
  lemma {:induction false} SharesConserve(spend: map<string, real>, rows: seq<MetricRow>, owners: Owners)
    ensures SumReal(rows, Share(spend, rows, owners)) == MapSum(Kept(spend, Weighty(rows, owners)))
    decreases |spend.Keys|
  {
    hide AllocationWeight, Weight, MapSum;
    var share := Share(spend, rows, owners);
    var keep := Weighty(rows, owners);
    if spend.Keys == {} {
      SumRealZero(rows, share);
      assert Kept(spend, keep) == map[];
      EmptySum();
    } else {
      var k := SomeKey(spend);
      var rest := Removed(spend, k);
      SharesConserve(rest, rows, owners);
      KeptWithout(spend, k, keep);
      OneOwnerMore(spend, rows, owners, k);
    }
  }

  lemma EmptySum()
    ensures MapSum(map[]) == 0.0
  {}

  lemma OneOwnerMore(spend: map<string, real>, rows: seq<MetricRow>, owners: Owners, k: string)
    requires k in spend
    ensures SumReal(rows, Share(spend, rows, owners)) ==
            SumReal(rows, Share(Removed(spend, k), rows, owners)) + if Weighty(rows, owners)(k) then spend[k] else 0.0
  {
    hide AllocationWeight, Weight, SumReal, Portion;
    var rest := Removed(spend, k);
    var w := Weight(rows, owners, k);
    if Weighty(rows, owners)(k) {
      var own := PortionOf(owners, k, spend[k], w);
      forall i | 0 <= i < |rows|
        ensures Share(spend, rows, owners)(rows[i]) == Share(rest, rows, owners)(rows[i]) + 1.0 * own(rows[i])
      {
        PortionEnds(spend[k], AllocationWeight(rows[i]), w);
      }
      SumRealLinear(rows, Share(rest, rows, owners), own, Share(spend, rows, owners), 1.0);
      PortionsOfOne(rows, owners, k, spend[k], w);
      PortionEnds(spend[k], 0.0, w);
    } else {
      SumRealEqual(rows, Share(spend, rows, owners), Share(rest, rows, owners));
    }
  }

  /** A row of owner `k` that the filter drops carries weight. */
  predicate DropsWeight(rows: seq<MetricRow>, owners: Owners, keep: MetricRow -> bool, k: string) {
    exists i :: 0 <= i < |rows| && !keep(rows[i]) && OwnedWeight(owners, k)(rows[i]) > 0.0
  }

  function DroppedWeight(owners: Owners, keep: MetricRow -> bool, k: string): MetricRow -> real {
    (r: MetricRow) => if keep(r) then 0.0 else OwnedWeight(owners, k)(r)
  }

  lemma {:induction false} FilteredWeight(rows: seq<MetricRow>, owners: Owners, keep: MetricRow -> bool, k: string)
    ensures Weight(Filter(rows, keep), owners, k) + SumReal(rows, DroppedWeight(owners, keep, k)) ==
            Weight(rows, owners, k)
  {
    hide AllocationWeight;
    if rows == [] {
    } else {
      var n := |rows| - 1;
      FilteredWeight(rows[..n], owners, keep, k);
      SumRealAppend(Filter(rows[..n], keep), rows[n], OwnedWeight(owners, k));
      assert Filter(rows[..n], keep) + [] == Filter(rows[..n], keep);
    }
  }

  lemma PortionStrict(c: real, x: real, v: real, w: real)
    requires c > 0.0 && x > 0.0 && 0.0 < v < w
    ensures Portion(c, x, v) > Portion(c, x, w)
  {
    var q := c * x;
    assert q > 0.0;
    assert q / v - q / w == q * (w - v) / (v * w);
    QuotientPositive(q * (w - v), v * w);
  }

  lemma QuotientPositive(x: real, y: real)
    requires x > 0.0 && y > 0.0
    ensures x / y > 0.0
  {}

  /** A row that the filter leaves gets the same share as without the filter exactly when no
      dropped row of its owner carries weight; otherwise it gets more. */
  lemma FilteringExactlyWhen(
    spend: map<string, real>, rows: seq<MetricRow>, owners: Owners, keep: MetricRow -> bool, r: MetricRow)
    requires r in Filter(rows, keep) && AllocationWeight(r) > 0.0
    requires OwnerOf(owners, r.key) != "" && At(spend, OwnerOf(owners, r.key)) > 0.0
    ensures var k := OwnerOf(owners, r.key);
            var filtered, whole := Share(spend, Filter(rows, keep), owners)(r), Share(spend, rows, owners)(r);
            && (filtered == whole <==> Weight(Filter(rows, keep), owners, k) == Weight(rows, owners, k))
            && (filtered == whole <==> !DropsWeight(rows, owners, keep, k))
            && (filtered > whole <==> DropsWeight(rows, owners, keep, k))
  {
    hide Portion, Weight, Filter, AllocationWeight;
    var k := OwnerOf(owners, r.key);
    FilteredWeight(rows, owners, keep, k);
    WeightNonNegative(Filter(rows, keep), owners, k);
    SumRealZeroExactlyWhen(rows, DroppedWeight(owners, keep, k));
    var v, w := Weight(Filter(rows, keep), owners, k), Weight(rows, owners, k);
    assert v < w <==> DropsWeight(rows, owners, keep, k);
    if v < w { PortionStrict(At(spend, k), AllocationWeight(r), v, w); }
  }

  /** Filtering rows before the split gives every row that is left at least what it gets without the
      filter, and more exactly when there is spend for it to share and a dropped row of its owner
      carries weight. */
  lemma FilteringInflates(
    spend: map<string, real>, rows: seq<MetricRow>, owners: Owners, keep: MetricRow -> bool, r: MetricRow)
    requires At(spend, OwnerOf(owners, r.key)) >= 0.0 && r in Filter(rows, keep)
    ensures var k := OwnerOf(owners, r.key);
            var filtered, whole := Share(spend, Filter(rows, keep), owners)(r), Share(spend, rows, owners)(r);
            && filtered >= whole
            && (filtered > whole <==>
                  k != "" && At(spend, k) > 0.0 && AllocationWeight(r) > 0.0 && DropsWeight(rows, owners, keep, k))
  {
    hide Portion, Weight, Filter, AllocationWeight, DropsWeight;
    var k := OwnerOf(owners, r.key);
    if k != "" && At(spend, k) > 0.0 && AllocationWeight(r) > 0.0 {
      FilteringExactlyWhen(spend, rows, owners, keep, r);
    } else {
      NoShare(spend, Filter(rows, keep), owners, r);
      NoShare(spend, rows, owners, r);
    }
  }

  lemma NoShare(spend: map<string, real>, rows: seq<MetricRow>, owners: Owners, r: MetricRow)
    requires OwnerOf(owners, r.key) == "" || At(spend, OwnerOf(owners, r.key)) == 0.0 || AllocationWeight(r) == 0.0
    ensures Share(spend, rows, owners)(r) == 0.0
  {
    hide Weight, AllocationWeight, Portion;
    var k := OwnerOf(owners, r.key);
    if Placed(spend, rows, owners, r) { PortionEnds(At(spend, k), 0.0, Weight(rows, owners, k)); }
  }

  // ----- both stages -----

  /** The spend booked on sources, and the spend booked on publishers only. */
  function DirectSpend(allocations: seq<CostAllocation>): map<string, real> {
    if allocations == [] then map[]
    else
      var n := |allocations| - 1;
      var m := DirectSpend(allocations[..n]);
      if allocations[n].source == "" then m else AddTo(m, allocations[n].source, allocations[n].spend)
  }

  function PublisherSpend(allocations: seq<CostAllocation>): map<string, real> {
    if allocations == [] then map[]
    else
      var n := |allocations| - 1;
      var m := PublisherSpend(allocations[..n]);
      if allocations[n].source != "" || allocations[n].publisher == "" then m
      else AddTo(m, allocations[n].publisher, allocations[n].spend)
  }

  /** `base` with the shares of the first `n` rows on top. */
  function AddShares(base: map<string, real>, spend: map<string, real>, rows: seq<MetricRow>, owners: Owners, n: nat):
    map<string, real>
    requires n <= |rows|
  {
    if n == 0 then base
    else
      var m := AddShares(base, spend, rows, owners, n - 1);
      var r := rows[n - 1];
      if Placed(spend, rows, owners, r) then AddTo(m, r.key, Share(spend, rows, owners)(r)) else m
  }

  function SourceSpend(allocations: seq<CostAllocation>, metrics: seq<MetricRow>, owners: Owners): map<string, real> {
    AddShares(DirectSpend(allocations), PublisherSpend(allocations), metrics, owners, |metrics|)
  }

  /** The cost rows of the first `n` metric rows. */
  function SharedRows(spend: map<string, real>, rows: seq<MetricRow>, owners: Owners, n: nat): seq<CostRow>
    requires n <= |rows|
  {
    if n == 0 then []
    else
      var r := rows[n - 1];
      SharedRows(spend, rows, owners, n - 1) +
      if Placed(spend, rows, owners, r) then [CostRow(r.key, Share(spend, rows, owners)(r))] else []
  }

  /** The loop over the metric rows that sums the weights per owner. */
  method WeightsByOwner(spend: map<string, real>, rows: seq<MetricRow>, owners: Owners)
    returns (weights: map<string, real>)
    ensures forall k :: At(spend, k) != 0.0 ==> At(weights, k) == Weight(rows, owners, k)
  {
    weights := map[];
    for i := 0 to |rows|
      invariant forall k :: At(spend, k) != 0.0 ==> At(weights, k) == Weight(rows[..i], owners, k)
    {
      forall k
        ensures Weight(rows[..i + 1], owners, k) == Weight(rows[..i], owners, k) + OwnedWeight(owners, k)(rows[i])
      {
        assert rows[..i + 1][..i] == rows[..i];
      }
      var k := OwnerOf(owners, rows[i].key);
      if At(spend, k) == 0.0 { continue; }
      weights := AddTo(weights, k, AllocationWeight(rows[i]));
    }
    assert rows[..|rows|] == rows;
  }

  /** allocatedSourceSpend. */
  method AllocatedSourceSpend(allocations: seq<CostAllocation>, metrics: seq<MetricRow>, owners: Owners)
    returns (sourceSpend: map<string, real>)
    ensures sourceSpend == SourceSpend(allocations, metrics, owners)
  {
    hide Weight, AllocationWeight, Portion;
    sourceSpend := map[];
    var publisherSpend: map<string, real> := map[];
    for i := 0 to |allocations|
      invariant sourceSpend == DirectSpend(allocations[..i])
      invariant publisherSpend == PublisherSpend(allocations[..i])
    {
      assert allocations[..i + 1][..i] == allocations[..i];
      var a := allocations[i];
      if a.source != "" {
        sourceSpend := AddTo(sourceSpend, a.source, a.spend);
        continue;
      }
      if a.publisher != "" { publisherSpend := AddTo(publisherSpend, a.publisher, a.spend); }
    }
    assert allocations[..|allocations|] == allocations;
    NamedPublishers(allocations);
    if |publisherSpend| == 0 {
      assert publisherSpend == map[];
      NothingToShare(sourceSpend, metrics, owners, |metrics|);
      return;
    }
    var weights := WeightsByOwner(publisherSpend, metrics, owners);
    for i := 0 to |metrics|
      invariant sourceSpend == AddShares(DirectSpend(allocations), publisherSpend, metrics, owners, i)
    {
      var p := OwnerOf(owners, metrics[i].key);
      var spend, total := At(publisherSpend, p), At(weights, p);
      if spend == 0.0 || total == 0.0 { continue; }
      sourceSpend := AddTo(sourceSpend, metrics[i].key, Portion(spend, AllocationWeight(metrics[i]), total));
    }
  }

  lemma {:induction false} NamedPublishers(allocations: seq<CostAllocation>)
    ensures "" !in PublisherSpend(allocations)
  {
    if allocations == [] {
    } else {
      NamedPublishers(allocations[..|allocations| - 1]);
    }
  }

  lemma {:induction false} NothingToShare(base: map<string, real>, rows: seq<MetricRow>, owners: Owners, n: nat)
    requires n <= |rows|
    ensures AddShares(base, map[], rows, owners, n) == base
  {
    if n == 0 {
    } else {
      NothingToShare(base, rows, owners, n - 1);
    }
  }

  /** allocateSpendToMetricRows. */
  method AllocateSpendToMetricRows(spend: map<string, real>, rows: seq<MetricRow>, owners: Owners)
    returns (result: seq<CostRow>)
    ensures result == SharedRows(spend, rows, owners, |rows|)
  {
    hide Weight, AllocationWeight, Portion;
    var weights := WeightsByOwner(spend, rows, owners);
    result := [];
    for i := 0 to |rows|
      invariant result == SharedRows(spend, rows, owners, i)
    {
      var s := OwnerOf(owners, rows[i].key);
      var total := At(weights, s);
      if s == "" || At(spend, s) == 0.0 || total == 0.0 { continue; }
      result := result + [CostRow(rows[i].key, Portion(At(spend, s), AllocationWeight(rows[i]), total))];
    }
  }

  function SpendOf(a: CostAllocation): real { a.spend }

  /** Spend that names neither a source nor a publisher. */
  function Unattributed(a: CostAllocation): real {
    if a.source == "" && a.publisher == "" then a.spend else 0.0
  }

  function RowSpend(c: CostRow): real { c.spend }

  lemma {:induction false} BookedSpend(allocations: seq<CostAllocation>)
    ensures MapSum(DirectSpend(allocations)) + MapSum(PublisherSpend(allocations)) ==
            SumReal(allocations, SpendOf) - SumReal(allocations, Unattributed)
  {
    hide MapSum;
    EmptySum();
    if allocations == [] {
    } else {
      var n := |allocations| - 1;
      var a := allocations[n];
      BookedSpend(allocations[..n]);
      MapSumAdd(DirectSpend(allocations[..n]), a.source, a.spend);
      MapSumAdd(PublisherSpend(allocations[..n]), a.publisher, a.spend);
    }
  }

  lemma {:induction false} SharesAdded(
    base: map<string, real>, spend: map<string, real>, rows: seq<MetricRow>, owners: Owners, n: nat)
    requires n <= |rows|
    ensures MapSum(AddShares(base, spend, rows, owners, n)) ==
            MapSum(base) + SumReal(rows[..n], Share(spend, rows, owners))
  {
    hide MapSum, Weight, AllocationWeight, Portion;
    if n == 0 {
    } else {
      SharesAdded(base, spend, rows, owners, n - 1);
      assert rows[..n][..n - 1] == rows[..n - 1];
      MapSumAdd(AddShares(base, spend, rows, owners, n - 1), rows[n - 1].key, Share(spend, rows, owners)(rows[n - 1]));
    }
  }

  lemma {:induction false} RowsShared(spend: map<string, real>, rows: seq<MetricRow>, owners: Owners, n: nat)
    requires n <= |rows|
    ensures SumReal(SharedRows(spend, rows, owners, n), RowSpend) == SumReal(rows[..n], Share(spend, rows, owners))
  {
    hide Weight, AllocationWeight, Portion;
    if n == 0 {
    } else {
      RowsShared(spend, rows, owners, n - 1);
      assert rows[..n][..n - 1] == rows[..n - 1];
      var before := SharedRows(spend, rows, owners, n - 1);
      SumRealAppend(before, CostRow(rows[n - 1].key, Share(spend, rows, owners)(rows[n - 1])), RowSpend);
      assert before + [] == before;
    }
  }

  /** Dropped by a stage: the spend of owners whose rows have no weight. */
  ghost function Lost(spend: map<string, real>, rows: seq<MetricRow>, owners: Owners): real {
    MapSum(Kept(spend, (k: string) => !Weighty(rows, owners)(k)))
  }

  /** Both stages together: the rows carry the whole input spend, except what names neither a
      source nor a publisher and what belongs to publishers and then to sources without weight. */
  lemma TwoStageConservation(
    allocations: seq<CostAllocation>, metrics: seq<MetricRow>, publishers: Owners, rows: seq<MetricRow>,
    sources: Owners)
    ensures var sourceSpend := SourceSpend(allocations, metrics, publishers);
            SumReal(SharedRows(sourceSpend, rows, sources, |rows|), RowSpend) ==
            SumReal(allocations, SpendOf) - SumReal(allocations, Unattributed)
            - Lost(PublisherSpend(allocations), metrics, publishers) - Lost(sourceSpend, rows, sources)
  {
    hide MapSum, Weight, AllocationWeight, Portion, SumReal, SharedRows, AddShares, DirectSpend, PublisherSpend;
    var sourceSpend := SourceSpend(allocations, metrics, publishers);
    BookedSpend(allocations);
    SourceSpendConserved(allocations, metrics, publishers);
    assert rows[..|rows|] == rows;
    RowsShared(sourceSpend, rows, sources, |rows|);
    SharesConserve(sourceSpend, rows, sources);
    MapSumSplit(sourceSpend, Weighty(rows, sources));
  }

  /** The first stage alone, which is the whole allocation of the report by source. */
  lemma SourceSpendConserved(allocations: seq<CostAllocation>, metrics: seq<MetricRow>, publishers: Owners)
    ensures MapSum(SourceSpend(allocations, metrics, publishers)) ==
            SumReal(allocations, SpendOf) - SumReal(allocations, Unattributed)
            - Lost(PublisherSpend(allocations), metrics, publishers)
  {
    hide MapSum, Weight, AllocationWeight, Portion, SumReal, AddShares, DirectSpend, PublisherSpend;
    var spend := PublisherSpend(allocations);
    BookedSpend(allocations);
    assert metrics[..|metrics|] == metrics;
    SharesAdded(DirectSpend(allocations), spend, metrics, publishers, |metrics|);
    SharesConserve(spend, metrics, publishers);
    MapSumSplit(spend, Weighty(metrics, publishers));
  }
}
