/** The whole report and the dashboard: packages/go/reports/service.go:206-365, 367-430. */
module Performance {
  import opened Wrappers
  import opened RealSums
  import opened Sorting
  import opened Spend
  import opened Reports

  // ----- what the report shows, key by key -----

  /** The filter of filterMetricRows and filterCostRows. */
  function Keep(d: Data, input: Input): string -> bool {
    (k: string) =>
      if input.publisher != "" && input.group == BySource then OwnerOf(d.publisherOf, k) == input.publisher
      else if input.campaign != "" && input.group == ByCreative then OwnerOf(d.campaignOf, k) == input.campaign
      else true
  }

  function KeepMetric(keep: string -> bool): MetricRow -> bool {
    (r: MetricRow) => keep(r.key)
  }

  function KeepCost(keep: string -> bool): CostRow -> bool {
    (c: CostRow) => keep(c.key)
  }

  /** The metrics of a group, after the filter. */
  function MetricsOf(d: Data, input: Input): string -> Option<MetricRow> {
    if input.group == ByPublisher then
      (k: string) => MetricOf(RollUp(d.metrics(BySource), d.publisherOf), k)
    else
      (k: string) => if Keep(d, input)(k) then MetricFor(d.metrics(input.group), k) else None
  }

  function MetricOf(m: map<string, MetricRow>, k: string): Option<MetricRow> {
    if k in m && !EmptyMetric(m[k]) then Some(m[k]) else None
  }

  /** sourceIDsForRows. */
  function RowSources(d: Data, g: Group): Owners {
    if g == ByCampaign then d.sourceOfCampaign else if g == ByCreative then d.sourceOfCreative else map[]
  }

  function SourceSpendOf(d: Data): map<string, real> {
    SourceSpend(d.allocations, d.metrics(BySource), d.publisherOf)
  }

  /** The spend of a group, after the filter: split over the rows that the filter left. */
  function CostsOf(d: Data, input: Input): string -> real {
    if input.group == ByDate || input.group == ByPublisher then (k: string) => CostFor(d.costs(input.group), k)
    else if input.group == BySource then
      (k: string) => if Keep(d, input)(k) then At(SourceSpendOf(d), k) else 0.0
    else
      var rows := Filter(d.metrics(input.group), KeepMetric(Keep(d, input)));
      (k: string) =>
        if Keep(d, input)(k)
        then CostFor(SharedRows(SourceSpendOf(d), rows, RowSources(d, input.group), |rows|), k) else 0.0
  }

  function ReportRows(d: Data, input: Input): Rows {
    Merged(MetricsOf(d, input), CostsOf(d, input))
  }

  // ----- the steps -----

  lemma {:induction false} FilteredMetric(rows: seq<MetricRow>, keep: string -> bool, k: string)
    ensures MetricFor(Filter(rows, KeepMetric(keep)), k) == if keep(k) then MetricFor(rows, k) else None
  {
    if rows == [] {
    } else {
      hide MetricFor, EmptyMetric;
      var front, last := rows[..|rows| - 1], rows[|rows| - 1];
      FilteredMetric(front, keep, k);
      var f := Filter(front, KeepMetric(keep));
      assert rows == front + [last] && f + [] == f;
    }
  }

  lemma {:induction false} FilteredCost(rows: seq<CostRow>, keep: string -> bool, k: string)
    ensures CostFor(Filter(rows, KeepCost(keep)), k) == if keep(k) then CostFor(rows, k) else 0.0
  {
    if rows == [] {
    } else {
      hide CostFor;
      var front, last := rows[..|rows| - 1], rows[|rows| - 1];
      FilteredCost(front, keep, k);
      var f := Filter(front, KeepCost(keep));
      assert rows == front + [last] && f + [] == f;
    }
  }

  /** metricRows: for publishers the sources are rolled up, and the map is listed in any order. */
  method MetricRows(d: Data, g: Group) returns (rows: seq<MetricRow>)
    ensures g != ByPublisher ==> rows == d.metrics(g)
    ensures g == ByPublisher ==>
              forall k :: MetricFor(rows, k) == MetricOf(RollUp(d.metrics(BySource), d.publisherOf), k)
  {
    hide EmptyMetric;
    if g != ByPublisher { return d.metrics(g); }
    var sources := d.metrics(BySource);
    var m: map<string, MetricRow> := map[];
    for i := 0 to |sources|
      invariant m == RollUp(sources[..i], d.publisherOf)
    {
      assert sources[..i + 1][..i] == sources[..i];
      var p := OwnerOf(d.publisherOf, sources[i].key);
      if p == "" { continue; }
      m := m[p := Plus(p, RowAt(m, p), sources[i])];
    }
    assert sources[..|sources|] == sources;
    rows := [];
    var left := m.Keys;
    while left != {}
      invariant left <= m.Keys
      invariant forall k :: MetricFor(rows, k) == if k in left then None else MetricOf(m, k)
      decreases |left|
    {
      var k :| k in left;
      left := left - {k};
      assert (rows + [m[k]])[..|rows|] == rows;
      rows := rows + [m[k]];
    }
  }

  /** costRowsFromSpend. */
  method CostRowsFromSpend(spend: map<string, real>) returns (rows: seq<CostRow>)
    ensures forall k :: CostFor(rows, k) == At(spend, k)
  {
    rows := [];
    var left := spend.Keys;
    while left != {}
      invariant left <= spend.Keys
      invariant forall k :: CostFor(rows, k) == if k in left then 0.0 else At(spend, k)
      decreases |left|
    {
      var k :| k in left;
      left := left - {k};
      assert (rows + [CostRow(k, spend[k])])[..|rows|] == rows;
      rows := rows + [CostRow(k, spend[k])];
    }
  }

  /** costRows, followed by filterCostRows. */
  method CostRows(d: Data, input: Input, metrics: seq<MetricRow>) returns (rows: seq<CostRow>)
    requires input.group != ByPublisher ==> metrics == Filter(d.metrics(input.group), KeepMetric(Keep(d, input)))
    ensures forall k :: CostFor(rows, k) == CostsOf(d, input)(k)
  {
    hide SourceSpend, SharedRows, Filter, OwnerOf, CostFor;
    if input.group == ByDate || input.group == ByPublisher { return d.costs(input.group); }
    var sourceSpend := AllocatedSourceSpend(d.allocations, d.metrics(BySource), d.publisherOf);
    var unfiltered;
    if input.group == BySource {
      unfiltered := CostRowsFromSpend(sourceSpend);
    } else {
      unfiltered := AllocateSpendToMetricRows(sourceSpend, metrics, RowSources(d, input.group));
    }
    rows := Filter(unfiltered, KeepCost(Keep(d, input)));
    forall k ensures CostFor(rows, k) == CostsOf(d, input)(k) { FilteredCost(unfiltered, Keep(d, input), k); }
  }

  /** Performance.  Which report it is depends on the data alone (`Reports.OneReport`). */
  method Report(d: Data, input: Input) returns (result: seq<PerformanceRow>)
    ensures IsReport(ReportRows(d, input), d.names, input.sortBy, input.limit, result)
  {
    hide Merged, Holds, Filter, Sort, SortOrder, OwnerOf, CostFor, MetricFor, MetricOf;
    var unfiltered := MetricRows(d, input.group);
    var metrics := unfiltered;
    if input.group != ByPublisher {
      metrics := Filter(unfiltered, KeepMetric(Keep(d, input)));
      forall k ensures MetricFor(metrics, k) == MetricsOf(d, input)(k) {
        FilteredMetric(unfiltered, Keep(d, input), k);
      }
    }
    var costs := CostRows(d, input, metrics);
    var m := MergeRows(metrics, costs);
    SameMerge(metrics, costs, MetricsOf(d, input), CostsOf(d, input), m);
    var listed := NamedRows(m, d.names);
    SortedIsReport(listed, m, d.names, input.sortBy, input.limit, ReportRows(d, input));
    var rows := new PerformanceRow[|listed|](i requires 0 <= i < |listed| => listed[i]);
    assert rows[..] == listed;
    SortPerformanceRows(rows, input.sortBy);
    result := Limited(rows[..], input.limit);
  }

  lemma SameMerge(
    metrics: seq<MetricRow>, costs: seq<CostRow>, metric: string -> Option<MetricRow>, cost: string -> real,
    m: map<string, PerformanceRow>)
    requires Holds(m, Merged(MetricsIn(metrics), CostsIn(costs)))
    requires forall k :: MetricFor(metrics, k) == metric(k)
    requires forall k :: CostFor(costs, k) == cost(k)
    ensures Holds(m, Merged(metric, cost))
    ensures forall k :: k in m ==> m[k].key == k && m[k].name == ""
  {
    hide Calculate, MetricFor, CostFor;
    forall k ensures Merged(metric, cost)(k) == if k in m then Some(m[k]) else None {
      assert Merged(MetricsIn(metrics), CostsIn(costs))(k) == if k in m then Some(m[k]) else None;
    }
    forall k | k in m ensures m[k].key == k && m[k].name == "" {
      assert Merged(metric, cost)(k) == Some(m[k]);
    }
  }

  /** What a report shows: of one publisher only its sources, of one campaign only its creatives, and of
      what is left everything that was measured. */
  lemma FilterMeaning(d: Data, input: Input, k: string)
    ensures var kept := && (input.group == BySource && input.publisher != "" ==>
                              OwnerOf(d.publisherOf, k) == input.publisher)
                        && (input.group == ByCreative && input.campaign != "" ==>
                              OwnerOf(d.campaignOf, k) == input.campaign);
            && (input.group in {BySource, ByCampaign, ByCreative} && ReportRows(d, input)(k).Some? ==> kept)
            && (input.group != ByPublisher && kept &&
                (exists i :: 0 <= i < |d.metrics(input.group)| && Measures(d.metrics(input.group)[i], k)) ==>
                  ReportRows(d, input)(k).Some?)
  {
    hide MetricFor, CostFor, SharedRows, SourceSpend, Filter, Row, Measures;
    MetricForMeaning(d.metrics(input.group), k);
    var metric, cost := MetricsOf(d, input), CostsOf(d, input);
    assert ReportRows(d, input)(k).Some? <==> metric(k).Some? || cost(k) != 0.0;
    assert input.group != ByPublisher ==>
             metric(k) == if Keep(d, input)(k) then MetricFor(d.metrics(input.group), k) else None;
    assert input.group in {BySource, ByCampaign, ByCreative} && !Keep(d, input)(k) ==> cost(k) == 0.0;
  }

  /** Where the spend comes from: dates and publishers have their own, sources what is allocated to
      them, and a campaign or a creative only has some if its own source has. */
  lemma SpendMeaning(d: Data, input: Input, k: string)
    ensures input.group in {ByDate, ByPublisher} ==> CostsOf(d, input)(k) == CostFor(d.costs(input.group), k)
    ensures input.group == BySource && input.publisher == "" ==> CostsOf(d, input)(k) == At(SourceSpendOf(d), k)
    ensures input.group == ByCampaign && CostsOf(d, input)(k) != 0.0 ==>
              At(SourceSpendOf(d), OwnerOf(d.sourceOfCampaign, k)) != 0.0
    ensures input.group == ByCreative && CostsOf(d, input)(k) != 0.0 ==>
              At(SourceSpendOf(d), OwnerOf(d.sourceOfCreative, k)) != 0.0
  {
    hide SourceSpend, Filter, CostFor;
    assert input.group == BySource && input.publisher == "" ==> Keep(d, input)(k);
    if input.group in {ByCampaign, ByCreative} {
      var rows := Filter(d.metrics(input.group), KeepMetric(Keep(d, input)));
      SharedFrom(SourceSpendOf(d), rows, RowSources(d, input.group), |rows|, k);
    }
  }

  lemma {:induction false} SharedFrom(
    spend: map<string, real>, rows: seq<MetricRow>, owners: Owners, n: nat, k: string)
    requires n <= |rows|
    ensures CostFor(SharedRows(spend, rows, owners, n), k) != 0.0 ==> At(spend, OwnerOf(owners, k)) != 0.0
  {
    hide Weight, Share;
    if n == 0 {
    } else {
      SharedFrom(spend, rows, owners, n - 1, k);
      var before := SharedRows(spend, rows, owners, n - 1);
      var c := CostRow(rows[n - 1].key, Share(spend, rows, owners)(rows[n - 1]));
      assert (before + [c])[..|before|] == before && before + [] == before;
    }
  }

  // ----- the spend column -----

  /** The metric store groups by key, so no two of its rows share one. */
  ghost predicate OneRowPerKey(rows: seq<MetricRow>) {
    forall i, j :: 0 <= i < j < |rows| ==> rows[i].key != rows[j].key
  }

  /** The spend of a key is the share of its row. */
  lemma {:induction false} SharedCost(spend: map<string, real>, rows: seq<MetricRow>, owners: Owners, n: nat, k: string)
    requires n <= |rows| && OneRowPerKey(rows)
    ensures forall i :: 0 <= i < n && rows[i].key == k ==>
              CostFor(SharedRows(spend, rows, owners, n), k) == Share(spend, rows, owners)(rows[i])
    ensures (forall i :: 0 <= i < n ==> rows[i].key != k) ==> CostFor(SharedRows(spend, rows, owners, n), k) == 0.0
  {
    hide Portion, Weight, AllocationWeight;
    if n == 0 {
    } else {
      SharedCost(spend, rows, owners, n - 1, k);
      var before := SharedRows(spend, rows, owners, n - 1);
      var c := CostRow(rows[n - 1].key, Share(spend, rows, owners)(rows[n - 1]));
      assert (before + [c])[..|before|] == before && before + [] == before;
    }
  }

  /** In a report by creative for one campaign a creative's spend is the one it has in the report of
      all campaigns exactly when no creative of another campaign takes a part of the same source's
      spend; otherwise it is more. */
  lemma FilteredSpendExactlyWhen(d: Data, input: Input, r: MetricRow)
    requires input.group == ByCreative && input.campaign != "" && OneRowPerKey(d.metrics(ByCreative))
    requires r in d.metrics(ByCreative) && OwnerOf(d.campaignOf, r.key) == input.campaign && AllocationWeight(r) > 0.0
    requires OwnerOf(d.sourceOfCreative, r.key) != ""
    requires At(SourceSpendOf(d), OwnerOf(d.sourceOfCreative, r.key)) > 0.0
    ensures var whole := input.(campaign := "");
            var shared := DropsWeight(d.metrics(ByCreative), d.sourceOfCreative, KeepMetric(Keep(d, input)),
                                      OwnerOf(d.sourceOfCreative, r.key));
            && (CostsOf(d, input)(r.key) == CostsOf(d, whole)(r.key) <==> !shared)
            && (CostsOf(d, input)(r.key) > CostsOf(d, whole)(r.key) <==> shared)
  {
    hide SourceSpend, SharedRows, CostFor, Share, DropsWeight, AllocationWeight, Weight, Filter;
    var rows, owners, spend := d.metrics(ByCreative), d.sourceOfCreative, SourceSpendOf(d);
    var keep := KeepMetric(Keep(d, input));
    var whole := input.(campaign := "");
    FilterTail(rows, 0, KeepMetric(Keep(d, whole)));
    FilterMembers(rows, keep);
    RowsStayApart(rows, keep);
    CostOfRow(spend, rows, owners, r);
    CostOfRow(spend, Filter(rows, keep), owners, r);
    FilteringExactlyWhen(spend, rows, owners, keep, r);
  }

  lemma CostOfRow(spend: map<string, real>, rows: seq<MetricRow>, owners: Owners, r: MetricRow)
    requires OneRowPerKey(rows) && r in rows
    ensures CostFor(SharedRows(spend, rows, owners, |rows|), r.key) == Share(spend, rows, owners)(r)
  {
    hide SharedRows, Share;
    SharedCost(spend, rows, owners, |rows|, r.key);
    var i :| 0 <= i < |rows| && rows[i] == r;
  }

  lemma {:induction false} RowsStayApart(rows: seq<MetricRow>, keep: MetricRow -> bool)
    requires OneRowPerKey(rows)
    ensures OneRowPerKey(Filter(rows, keep))
  {
    if rows == [] {
    } else {
      var n := |rows| - 1;
      assert OneRowPerKey(rows[..n]);
      RowsStayApart(rows[..n], keep);
      OneRowMoreApart(rows, Filter(rows[..n], keep), keep);
    }
  }

  lemma OneRowMoreApart(rows: seq<MetricRow>, kept: seq<MetricRow>, keep: MetricRow -> bool)
    requires rows != [] && OneRowPerKey(rows) && OneRowPerKey(kept) && kept == Filter(rows[..|rows| - 1], keep)
    ensures OneRowPerKey(kept + [rows[|rows| - 1]])
  {
    hide Filter;
    var n := |rows| - 1;
    FilterMembers(rows[..n], keep);
    forall i | 0 <= i < |kept| ensures kept[i].key != rows[n].key {
      assert kept[i] in kept;
      var j :| 0 <= j < n && rows[..n][j] == kept[i];
      assert rows[j] == kept[i];
    }
  }

  /** Two creatives of one source, in two campaigns, one impression each: in the report for one
      campaign its creative carries the whole spend of the source, which is twice its part. */
  lemma FilteredSpendDoubles(d: Data)
    requires d.metrics(ByCreative) == [MetricRow("a", 0.0, 0, 0, 1, 0, 0), MetricRow("b", 0.0, 0, 0, 1, 0, 0)]
    requires d.metrics(BySource) == [] && d.allocations == [CostAllocation("p", "s", 10.0)]
    requires d.sourceOfCreative == map["a" := "s", "b" := "s"] && d.campaignOf == map["a" := "c", "b" := "d"]
    ensures CostsOf(d, Input(ByCreative, "", 0, "", ""))("a") == 5.0
    ensures CostsOf(d, Input(ByCreative, "", 0, "", "c"))("a") == 10.0
  {
    hide CostFor, SharedRows, Filter, SourceSpend, Weight;
    var rows, owners := d.metrics(ByCreative), d.sourceOfCreative;
    var whole, one := Input(ByCreative, "", 0, "", ""), Input(ByCreative, "", 0, "", "c");
    BookedOnce(d.allocations[0], d.publisherOf);
    FilterTail(rows, 0, KeepMetric(Keep(d, whole)));
    FirstOfTwo(rows, KeepMetric(Keep(d, one)));
    CostOfRow(SourceSpendOf(d), rows, owners, rows[0]);
    CostOfRow(SourceSpendOf(d), [rows[0]], owners, rows[0]);
    TwoWeights(rows, owners, "s");
    assert Portion(10.0, 1.0, 2.0) == 5.0 && Portion(10.0, 1.0, 1.0) == 10.0;
    assert Placed(SourceSpendOf(d), rows, owners, rows[0]);
  }

  lemma BookedOnce(a: CostAllocation, owners: Owners)
    requires a.source != ""
    ensures SourceSpend([a], [], owners) == map[a.source := a.spend]
  {
    assert [a][..0] == [];
    assert DirectSpend([a][..0]) == map[];
  }

  lemma FirstOfTwo(rows: seq<MetricRow>, keep: MetricRow -> bool)
    requires |rows| == 2 && keep(rows[0]) && !keep(rows[1])
    ensures Filter(rows, keep) == [rows[0]]
  {
    assert rows[..1] == [rows[0]] && rows[..1][..0] == [];
    assert Filter(rows[..1], keep) == [rows[0]];
  }

  lemma TwoWeights(rows: seq<MetricRow>, owners: Owners, k: string)
    requires |rows| == 2 && OwnerOf(owners, rows[0].key) == OwnerOf(owners, rows[1].key) == k
    ensures Weight(rows, owners, k) == AllocationWeight(rows[0]) + AllocationWeight(rows[1])
    ensures Weight([rows[0]], owners, k) == AllocationWeight(rows[0])
  {
    SumRealAppend([], rows[0], OwnedWeight(owners, k));
    SumRealAppend([rows[0]], rows[1], OwnedWeight(owners, k));
    assert [] + [rows[0]] == [rows[0]] && [rows[0]] + [rows[1]] == rows;
  }

  function KeyOf(r: PerformanceRow): string { r.key }

  /** The spend column of the whole report adds up to the spend of the keys that are listed. */
  lemma ColumnAddsUp(metric: string -> Option<MetricRow>, cost: string -> real, names: Owners, sortBy: string,
                     all: seq<PerformanceRow>, spend: map<string, real>)
    requires FullReport(Merged(metric, cost), names, sortBy, all)
    requires forall k :: cost(k) == At(spend, k)
    ensures SumReal(all, SpendIn) == MapSum(Kept(spend, ListedKey))
  {
    hide SortOrder, Ratio, MapSum, SumReal;
    SortOrderStrict(sortBy);
    var m := Kept(spend, ListedKey);
    forall i, j | 0 <= i < j < |all| ensures all[i].key != all[j].key {
      assert all[i] in all && all[j] in all && SortOrder(sortBy)(all[i], all[j]);
    }
    forall i | 0 <= i < |all| ensures all[i].spend == At(m, all[i].key) {
      assert all[i] in all;
      assert all[i].(name := "") == Row(all[i].key, metric(all[i].key), cost(all[i].key));
    }
    forall k | k in m && m[k] != 0.0 ensures exists i :: 0 <= i < |all| && KeyOf(all[i]) == k {
      var r := Row(k, metric(k), cost(k)).(name := OwnerOf(names, k));
      assert r.(name := "") == Row(k, metric(k), cost(k));
      assert Listed(Merged(metric, cost), names, r);
      var i :| 0 <= i < |all| && all[i] == r;
      assert KeyOf(all[i]) == k;
    }
    assert Lists(all, KeyOf, SpendIn, m);
    ListedSum(all, KeyOf, SpendIn, m);
  }

  /** By source: the spend column of the unfiltered report is the whole allocated spend of the
      sources that are listed. */
  lemma SourceColumnConserved(d: Data, input: Input, all: seq<PerformanceRow>)
    requires input.group == BySource && input.publisher == ""
    requires FullReport(ReportRows(d, input), d.names, input.sortBy, all)
    ensures SumReal(all, SpendIn) == MapSum(Kept(SourceSpendOf(d), ListedKey))
  {
    hide SourceSpend, FullReport, MapSum, SumReal;
    forall k ensures CostsOf(d, input)(k) == At(SourceSpendOf(d), k) {
      assert Keep(d, input)(k);
      assert CostsOf(d, input)(k) == if Keep(d, input)(k) then At(SourceSpendOf(d), k) else 0.0;
    }
    ColumnAddsUp(MetricsOf(d, input), CostsOf(d, input), d.names, input.sortBy, all, SourceSpendOf(d));
  }

  /** What a row of the metrics adds to the spend column. */
  function ListedShare(spend: map<string, real>, rows: seq<MetricRow>, owners: Owners): MetricRow -> real {
    (r: MetricRow) => if ListedKey(r.key) then Share(spend, rows, owners)(r) else 0.0
  }

  /** By campaign or creative: the spend column of the unfiltered report is the sum of the shares. */
  lemma SharedColumnConserved(d: Data, input: Input, all: seq<PerformanceRow>)
    requires input.group in {ByCampaign, ByCreative} && input.campaign == ""
    requires OneRowPerKey(d.metrics(input.group))
    requires FullReport(ReportRows(d, input), d.names, input.sortBy, all)
    ensures var rows, owners := d.metrics(input.group), RowSources(d, input.group);
            SumReal(all, SpendIn) == SumReal(rows, ListedShare(SourceSpendOf(d), rows, owners))
  {
    hide SourceSpendOf, FullReport, MapSum, SumReal, SharedRows, Share, CostFor, Filter;
    var rows, owners := d.metrics(input.group), RowSources(d, input.group);
    var spend := SourceSpendOf(d);
    FilterTail(rows, 0, KeepMetric(Keep(d, input)));
    var column := SpendByKey(spend, rows, owners);
    SharesListed(spend, rows, owners);
    forall k ensures CostsOf(d, input)(k) == At(column, k) {}
    ColumnAddsUp(MetricsOf(d, input), CostsOf(d, input), d.names, input.sortBy, all, column);
    ListedSum(rows, MetricKey, ListedShare(spend, rows, owners), Kept(column, ListedKey));
  }

  function MetricKey(r: MetricRow): string { r.key }

  function SpendByKey(spend: map<string, real>, rows: seq<MetricRow>, owners: Owners): map<string, real> {
    map i | 0 <= i < |rows| :: rows[i].key := CostFor(SharedRows(spend, rows, owners, |rows|), rows[i].key)
  }

  lemma SharesListed(spend: map<string, real>, rows: seq<MetricRow>, owners: Owners)
    requires OneRowPerKey(rows)
    ensures forall k :: CostFor(SharedRows(spend, rows, owners, |rows|), k) == At(SpendByKey(spend, rows, owners), k)
    ensures Lists(rows, MetricKey, ListedShare(spend, rows, owners), Kept(SpendByKey(spend, rows, owners), ListedKey))
  {
    hide SharedRows, Share, CostFor;
    var column := SpendByKey(spend, rows, owners);
    forall k ensures CostFor(SharedRows(spend, rows, owners, |rows|), k) == At(column, k) {
      if k !in column { SharedCost(spend, rows, owners, |rows|, k); }
    }
    forall i | 0 <= i < |rows|
      ensures ListedShare(spend, rows, owners)(rows[i]) == At(Kept(column, ListedKey), rows[i].key)
    {
      CostOfRow(spend, rows, owners, rows[i]);
    }
    forall k | k in column ensures exists i :: 0 <= i < |rows| && MetricKey(rows[i]) == k {
      var i :| 0 <= i < |rows| && rows[i].key == k;
      assert MetricKey(rows[i]) == k;
    }
  }

  /** And where every key is listed, that is the whole input spend but for what the two stages drop. */
  lemma ReportConservation(d: Data, input: Input, all: seq<PerformanceRow>)
    requires input.group in {ByCampaign, ByCreative} && input.campaign == ""
    requires OneRowPerKey(d.metrics(input.group))
    requires forall i :: 0 <= i < |d.metrics(input.group)| ==> ListedKey(d.metrics(input.group)[i].key)
    requires FullReport(ReportRows(d, input), d.names, input.sortBy, all)
    ensures SumReal(all, SpendIn) ==
            SumReal(d.allocations, SpendOf) - SumReal(d.allocations, Unattributed)
            - Lost(PublisherSpend(d.allocations), d.metrics(BySource), d.publisherOf)
            - Lost(SourceSpendOf(d), d.metrics(input.group), RowSources(d, input.group))
  {
    hide FullReport, SumReal, SharedRows, Share, Lost;
    var rows, owners := d.metrics(input.group), RowSources(d, input.group);
    SharedColumnConserved(d, input, all);
    SumRealEqual(rows, ListedShare(SourceSpendOf(d), rows, owners), Share(SourceSpendOf(d), rows, owners));
    TwoStageConservation(d.allocations, d.metrics(BySource), d.publisherOf, rows, owners);
    assert rows[..|rows|] == rows;
    RowsShared(SourceSpendOf(d), rows, owners, |rows|);
  }

  // ----- the dashboard -----

  datatype Dashboard = Dashboard(
    spend: real,
    revenue: real,
    profit: real,
    roi: real,
    conversions: int,
    sent: int,
    shown: int,
    clicks: int,
    closed: int,
    ctr: real,
    cr: real,
    rows: seq<PerformanceRow>)

  function SpendIn(r: PerformanceRow): real { r.spend }
  function RevenueIn(r: PerformanceRow): real { r.revenue }
  function ProfitIn(r: PerformanceRow): real { r.profit }
  function ConversionsIn(r: PerformanceRow): real { r.conversions as real }
  function SentIn(r: PerformanceRow): real { r.sent as real }
  function ShownIn(r: PerformanceRow): real { r.shown as real }
  function ClicksIn(r: PerformanceRow): real { r.clicks as real }
  function ClosedIn(r: PerformanceRow): real { r.closed as real }

  /** The totals are those of the returned rows; profit and ratios belong to the totals. */
  ghost predicate Totals(t: Dashboard, rows: seq<PerformanceRow>) {
    && t.spend == SumReal(rows, SpendIn) && t.revenue == SumReal(rows, RevenueIn)
    && t.conversions as real == SumReal(rows, ConversionsIn) && t.sent as real == SumReal(rows, SentIn)
    && t.shown as real == SumReal(rows, ShownIn) && t.clicks as real == SumReal(rows, ClicksIn)
    && t.closed as real == SumReal(rows, ClosedIn)
  }

  const DASHBOARD_INPUT := Input(BySource, "profit", 50, "", "")

  method DashboardOf(d: Data) returns (t: Dashboard)
    ensures IsReport(ReportRows(d, DASHBOARD_INPUT), d.names, "profit", 50, t.rows)
    ensures Totals(t, t.rows)
    ensures t.profit == SumReal(t.rows, ProfitIn)
    ensures t.roi == Ratio(t.profit, t.spend) * 100.0
    ensures t.ctr == Ratio(t.clicks as real, t.shown as real) * 100.0
    ensures t.cr == Ratio(t.conversions as real, t.clicks as real) * 100.0
  {
    hide IsReport, ReportRows;
    var rows := Report(d, DASHBOARD_INPUT);
    t := Dashboard(0.0, 0.0, 0.0, 0.0, 0, 0, 0, 0, 0, 0.0, 0.0, rows);
    for i := 0 to |rows|
      invariant Totals(t, rows[..i]) && t.rows == rows
    {
      assert rows[..i + 1][..i] == rows[..i];
      var r := rows[i];
      t := t.(spend := t.spend + r.spend, revenue := t.revenue + r.revenue,
              conversions := t.conversions + r.conversions,
              sent := t.sent + r.sent, shown := t.shown + r.shown, clicks := t.clicks + r.clicks,
              closed := t.closed + r.closed);
    }
    assert rows[..|rows|] == rows;
    t := t.(profit := t.revenue - t.spend);
    t := t.(roi := Ratio(t.profit, t.spend) * 100.0,
            ctr := Ratio(t.clicks as real, t.shown as real) * 100.0,
            cr := Ratio(t.conversions as real, t.clicks as real) * 100.0);
    ProfitsAddUp(d, rows);
  }

  /** The profit of the totals is the total of the profits. */
  lemma ProfitsAddUp(d: Data, rows: seq<PerformanceRow>)
    requires IsReport(ReportRows(d, DASHBOARD_INPUT), d.names, "profit", 50, rows)
    ensures SumReal(rows, ProfitIn) == SumReal(rows, RevenueIn) - SumReal(rows, SpendIn)
  {
    hide SortOrder, Listed, MetricsOf, CostsOf;
    ReportMeaning(ReportRows(d, DASHBOARD_INPUT), d.names, "profit", 50, rows);
    forall i | 0 <= i < |rows| ensures ProfitIn(rows[i]) == RevenueIn(rows[i]) + (-1.0) * SpendIn(rows[i]) {
      ListedProfit(MetricsOf(d, DASHBOARD_INPUT), CostsOf(d, DASHBOARD_INPUT), d.names, rows[i]);
    }
    SumRealLinear(rows, RevenueIn, SpendIn, ProfitIn, -1.0);
  }

  lemma ListedProfit(metric: string -> Option<MetricRow>, cost: string -> real, names: Owners, r: PerformanceRow)
    requires Listed(Merged(metric, cost), names, r)
    ensures r.profit == r.revenue - r.spend
  {
    hide Ratio;
    var row := r.(name := "");
    assert row == Row(r.key, metric(r.key), cost(r.key));
    assert row.profit == row.revenue - row.spend;
  }

  /** The dashboard's total of a measure without negative values is that of the whole report exactly
      when every row behind the fiftieth has none of it. */
  lemma DashboardMisses(d: Data, rows: seq<PerformanceRow>, all: seq<PerformanceRow>, f: PerformanceRow -> real)
    requires FullReport(ReportRows(d, DASHBOARD_INPUT), d.names, "profit", all) && rows == Limited(all, 50)
    requires forall r :: Listed(ReportRows(d, DASHBOARD_INPUT), d.names, r) ==> f(r) >= 0.0
    ensures SumReal(rows, f) <= SumReal(all, f)
    ensures SumReal(rows, f) == SumReal(all, f) <==>
              forall r :: Listed(ReportRows(d, DASHBOARD_INPUT), d.names, r) && r !in rows ==> f(r) == 0.0
  {
    hide Listed, SortOrder, ReportRows;
    if |all| > 50 {
      var rest := all[50..];
      SumSplit(all, 50, f);
      assert all == rows + rest;
      forall i | 0 <= i < |rest| ensures rest[i] in all && rest[i] !in rows { NotTwice(all, "profit", i); }
      SumRealZeroExactlyWhen(rest, f);
      forall r | Listed(ReportRows(d, DASHBOARD_INPUT), d.names, r) && r !in rows ensures r in rest {
        assert r in all;
      }
    }
  }

  lemma NotTwice(all: seq<PerformanceRow>, sortBy: string, i: nat)
    requires Ordered(SortOrder(sortBy), all) && 50 + i < |all|
    ensures all[50 + i] !in all[..50]
  {
    hide SortOrder;
    SortOrderStrict(sortBy);
    forall j | 0 <= j < 50 ensures all[..50][j] != all[50 + i] { assert SortOrder(sortBy)(all[j], all[50 + i]); }
  }

  lemma {:induction false} SumSplit(s: seq<PerformanceRow>, n: nat, f: PerformanceRow -> real)
    requires n <= |s|
    ensures SumReal(s, f) == SumReal(s[..n], f) + SumReal(s[n..], f)
  {
    if n < |s| {
      var m := |s| - 1;
      SumSplit(s[..m], n, f);
      assert s[..m][..n] == s[..n] && s[..m][n..] == s[n..][..m - n];
    } else {
      assert s[..n] == s;
    }
  }
}
