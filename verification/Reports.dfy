/** The performance report and the dashboard: packages/go/reports/service.go:206-365, 367-430,
    682-757.  Amounts and ratios are reals. */
module Reports {
  import opened Wrappers
  import opened RealSums
  import opened Sorting
  import opened Spend
  import Text

  datatype PerformanceRow = PerformanceRow(
    key: string,
    name: string,
    spend: real,
    revenue: real,
    profit: real,
    roi: real,
    conversions: int,
    sent: int,
    shown: int,
    clicks: int,
    closed: int,
    ctr: real,
    cr: real)

  datatype Group = ByDate | ByPublisher | BySource | ByCampaign | ByCreative

  datatype Input = Input(group: Group, sortBy: string, limit: int, publisher: string, campaign: string)

  /** What the stores answer for the date range of one report. */
  datatype Data = Data(
    metrics: Group -> seq<MetricRow>,
    costs: Group -> seq<CostRow>,
    allocations: seq<CostAllocation>,
    publisherOf: Owners,
    sourceOfCampaign: Owners,
    sourceOfCreative: Owners,
    campaignOf: Owners,
    names: Owners)

  // ----- the publisher roll-up -----

  function ZeroRow(key: string): MetricRow {
    MetricRow(key, 0.0, 0, 0, 0, 0, 0)
  }

  function Plus(key: string, a: MetricRow, b: MetricRow): MetricRow {
    MetricRow(key, a.revenue + b.revenue, a.conversions + b.conversions, a.sent + b.sent, a.shown + b.shown,
              a.clicks + b.clicks, a.closed + b.closed)
  }

  function RowAt(m: map<string, MetricRow>, k: string): MetricRow {
    if k in m then m[k] else ZeroRow("")
  }

  function RollUp(rows: seq<MetricRow>, owners: Owners): (m: map<string, MetricRow>)
    ensures forall k :: k in m ==> m[k].key == k && k != ""
  {
    if rows == [] then map[]
    else
      var n := |rows| - 1;
      var m := RollUp(rows[..n], owners);
      var p := OwnerOf(owners, rows[n].key);
      if p == "" then m else m[p := Plus(p, RowAt(m, p), rows[n])]
  }

  /** A total that adds up when rows are added. */
  ghost predicate Additive(f: MetricRow -> real) {
    && (forall k :: f(ZeroRow(k)) == 0.0)
    && (forall k, a, b :: f(Plus(k, a, b)) == f(a) + f(b))
  }

  function Revenue(r: MetricRow): real { r.revenue }
  function Conversions(r: MetricRow): real { r.conversions as real }
  function Sent(r: MetricRow): real { r.sent as real }
  function ShownTimes(r: MetricRow): real { r.shown as real }
  function Clicks(r: MetricRow): real { r.clicks as real }
  function Closed(r: MetricRow): real { r.closed as real }

  function OwnedBy(owners: Owners, p: string, f: MetricRow -> real): MetricRow -> real {
    (r: MetricRow) => if OwnerOf(owners, r.key) == p then f(r) else 0.0
  }

  /** Each publisher's row is the total of its sources. */
  lemma {:induction false} RollUpTotals(rows: seq<MetricRow>, owners: Owners, p: string, f: MetricRow -> real)
    requires Additive(f) && p != ""
    ensures f(RowAt(RollUp(rows, owners), p)) == SumReal(rows, OwnedBy(owners, p, f))
    ensures p in RollUp(rows, owners) <==> exists r :: r in rows && OwnerOf(owners, r.key) == p
  {
    if rows == [] {
    } else {
      var n := |rows| - 1;
      RollUpTotals(rows[..n], owners, p, f);
      assert rows == rows[..n] + [rows[n]];
    }
  }

  /** Every total over the sources that have a publisher is kept. */
  lemma {:induction false} RollUpPreserves(rows: seq<MetricRow>, owners: Owners, f: MetricRow -> real)
    requires Additive(f)
    ensures MapSum(Measured(RollUp(rows, owners), f)) ==
            SumReal(rows, Owned(owners, f))
  {
    hide MapSum, Additive, Plus, Measured, RowAt;
    if rows == [] {
      EmptySum();
      NothingMeasured(f);
    } else {
      var n := |rows| - 1;
      RollUpPreserves(rows[..n], owners, f);
      var m := RollUp(rows[..n], owners);
      var p := OwnerOf(owners, rows[n].key);
      if p != "" {
        MapSumAdd(Measured(m, f), p, f(rows[n]));
        OneRowMore(m, p, rows[n], f);
      }
    }
  }

  /** A measure over the rows that have an owner. */
  function Owned(owners: Owners, f: MetricRow -> real): MetricRow -> real {
    (r: MetricRow) => if OwnerOf(owners, r.key) != "" then f(r) else 0.0
  }

  /** The roll-up keeps the totals of all six measures. */
  lemma RollUpMeasures(rows: seq<MetricRow>, owners: Owners)
    ensures forall f :: f in [Revenue, Conversions, Sent, ShownTimes, Clicks, Closed] ==>
              MapSum(Measured(RollUp(rows, owners), f)) == SumReal(rows, Owned(owners, f))
  {
    hide MapSum, SumReal, RollUp, Measured;
    forall f | f in [Revenue, Conversions, Sent, ShownTimes, Clicks, Closed]
      ensures MapSum(Measured(RollUp(rows, owners), f)) == SumReal(rows, Owned(owners, f))
    {
      RollUpPreserves(rows, owners, f);
    }
  }

  lemma OneRowMore(m: map<string, MetricRow>, p: string, r: MetricRow, f: MetricRow -> real)
    requires Additive(f)
    ensures Measured(m[p := Plus(p, RowAt(m, p), r)], f) == AddTo(Measured(m, f), p, f(r))
  {
    hide Plus, ZeroRow;
    assert f(Plus(p, RowAt(m, p), r)) == f(RowAt(m, p)) + f(r);
  }

  lemma NothingMeasured(f: MetricRow -> real)
    ensures Measured(map[], f) == map[]
  {}

  function Measured(m: map<string, MetricRow>, f: MetricRow -> real): map<string, real> {
    map k | k in m :: f(m[k])
  }

  // ----- merged rows -----

  predicate EmptyMetric(r: MetricRow) {
    r.revenue == 0.0 && r.conversions == 0 && r.sent == 0 && r.shown == 0 && r.clicks == 0 && r.closed == 0
  }

  /** The last row for a key that is not empty. */
  function MetricFor(rows: seq<MetricRow>, k: string): Option<MetricRow> {
    if rows == [] then None
    else
      var r := rows[|rows| - 1];
      if r.key == k && !EmptyMetric(r) then Some(r) else MetricFor(rows[..|rows| - 1], k)
  }

  /** The last spend for a key that is not zero, and zero if there is none. */
  function CostFor(rows: seq<CostRow>, k: string): real {
    if rows == [] then 0.0
    else
      var c := rows[|rows| - 1];
      if c.key == k && c.spend != 0.0 then c.spend else CostFor(rows[..|rows| - 1], k)
  }

  function Ratio(numerator: real, denominator: real): real {
    if denominator == 0.0 then 0.0 else numerator / denominator
  }

  /** The columns that are not derived. */
  predicate SameCounts(r: PerformanceRow, q: PerformanceRow) {
    && r.key == q.key && r.name == q.name && r.spend == q.spend && r.revenue == q.revenue
    && r.conversions == q.conversions && r.sent == q.sent && r.shown == q.shown && r.clicks == q.clicks
    && r.closed == q.closed
  }

  function Calculate(r: PerformanceRow): (c: PerformanceRow)
    ensures SameCounts(r, c) && c.profit == c.revenue - c.spend
  {
    r.(profit := r.revenue - r.spend,
       roi := Ratio(r.revenue - r.spend, r.spend) * 100.0,
       ctr := Ratio(r.clicks as real, r.shown as real) * 100.0,
       cr := Ratio(r.conversions as real, r.clicks as real) * 100.0)
  }

  const BLANK := PerformanceRow("", "", 0.0, 0.0, 0.0, 0.0, 0, 0, 0, 0, 0, 0.0, 0.0)

  function Counted(k: string, metric: Option<MetricRow>, spend: real): PerformanceRow {
    var r := if metric.None? then ZeroRow(k) else metric.value;
    PerformanceRow(k, "", spend, r.revenue, 0.0, 0.0, r.conversions, r.sent, r.shown, r.clicks, r.closed, 0.0, 0.0)
  }

  /** The row of a key, from its metrics and its spend. */
  function Row(k: string, metric: Option<MetricRow>, spend: real): PerformanceRow {
    Calculate(Counted(k, metric, spend))
  }

  type Rows = string -> Option<PerformanceRow>

  /** The merged rows, by what is known of each key. */
  function Merged(metric: string -> Option<MetricRow>, cost: string -> real): Rows {
    (k: string) => if metric(k).None? && cost(k) == 0.0 then None else Some(Row(k, metric(k), cost(k)))
  }

  function MetricsIn(rows: seq<MetricRow>): string -> Option<MetricRow> {
    (k: string) => MetricFor(rows, k)
  }

  function CostsIn(rows: seq<CostRow>): string -> real {
    (k: string) => CostFor(rows, k)
  }

  /** One of the six measures is not zero. */
  predicate Measures(r: MetricRow, k: string) {
    && r.key == k
    && (r.revenue != 0.0 || r.conversions != 0 || r.sent != 0 || r.shown != 0 || r.clicks != 0 || r.closed != 0)
  }

  lemma {:induction false} MetricForMeaning(rows: seq<MetricRow>, k: string)
    ensures MetricFor(rows, k).None? <==> forall i :: 0 <= i < |rows| ==> !Measures(rows[i], k)
    ensures MetricFor(rows, k).Some? ==>
              exists i :: 0 <= i < |rows| && rows[i] == MetricFor(rows, k).value && Measures(rows[i], k) &&
                          forall j :: i < j < |rows| ==> !Measures(rows[j], k)
  {
    if rows == [] {
    } else {
      var n := |rows| - 1;
      MetricForMeaning(rows[..n], k);
      if MetricFor(rows, k).Some? && !Measures(rows[n], k) {
        var i :| 0 <= i < n && rows[..n][i] == MetricFor(rows, k).value && Measures(rows[..n][i], k) &&
                 forall j :: i < j < n ==> !Measures(rows[..n][j], k);
        forall j | i < j < |rows| ensures !Measures(rows[j], k) {
          if j < n { assert rows[j] == rows[..n][j]; }
        }
        assert rows[i] == rows[..n][i];
      }
      if forall i :: 0 <= i < |rows| ==> !Measures(rows[i], k) {
        forall i | 0 <= i < n ensures !Measures(rows[..n][i], k) { assert rows[..n][i] == rows[i]; }
      }
      if MetricFor(rows, k).None? {
        forall i | 0 <= i < |rows| ensures !Measures(rows[i], k) {
          if i < n { assert rows[i] == rows[..n][i]; }
        }
      }
    }
  }

  lemma {:induction false} CostForMeaning(rows: seq<CostRow>, k: string)
    ensures CostFor(rows, k) == 0.0 <==> forall i :: 0 <= i < |rows| && rows[i].key == k ==> rows[i].spend == 0.0
  {
    if rows == [] {
    } else {
      var n := |rows| - 1;
      CostForMeaning(rows[..n], k);
      assert rows == rows[..n] + [rows[n]];
    }
  }

  /** The profit, and the three ratios in percent, which are zero where nothing divides them. */
  lemma CalculateMeaning(r: PerformanceRow)
    ensures var c := Calculate(r);
            && c.profit == r.revenue - r.spend
            && (if r.spend == 0.0 then c.roi == 0.0 else c.roi * r.spend == 100.0 * c.profit)
            && (if r.shown == 0 then c.ctr == 0.0 else c.ctr * r.shown as real == 100.0 * r.clicks as real)
            && (if r.clicks == 0 then c.cr == 0.0 else c.cr * r.clicks as real == 100.0 * r.conversions as real)
  {
    hide Ratio;
    InPercent(r.revenue - r.spend, r.spend);
    InPercent(r.clicks as real, r.shown as real);
    InPercent(r.conversions as real, r.clicks as real);
  }

  lemma InPercent(x: real, y: real)
    ensures if y == 0.0 then Ratio(x, y) * 100.0 == 0.0 else Ratio(x, y) * 100.0 * y == 100.0 * x
  {
    if y != 0.0 {
      assert x / y * y == x;
      assert x / y * 100.0 * y == 100.0 * (x / y * y);
    }
  }

  /** A key has a row exactly when something was measured or spent for it; the row shows what was
      measured last. */
  lemma RowMeaning(metrics: seq<MetricRow>, costs: seq<CostRow>, k: string)
    ensures var row := Merged(MetricsIn(metrics), CostsIn(costs))(k);
            && (row.Some? <==> || (exists i :: 0 <= i < |metrics| && Measures(metrics[i], k))
                               || (exists j :: 0 <= j < |costs| && costs[j].key == k && costs[j].spend != 0.0))
            && (row.Some? ==>
                  && row.value.key == k && row.value.spend == CostFor(costs, k)
                  && if exists i :: 0 <= i < |metrics| && Measures(metrics[i], k)
                     then Shows(row.value, MetricFor(metrics, k)) else Shows(row.value, Some(ZeroRow(k))))
  {
    hide MetricFor, CostFor, Calculate, Measures;
    MetricForMeaning(metrics, k);
    CostForMeaning(costs, k);
    var metric, cost := MetricsIn(metrics), CostsIn(costs);
    assert metric(k) == MetricFor(metrics, k) && cost(k) == CostFor(costs, k);
    var was := Counted(k, metric(k), cost(k));
    assert Row(k, metric(k), cost(k)) == Calculate(was) && SameCounts(was, Calculate(was));
  }

  predicate Shows(r: PerformanceRow, m: Option<MetricRow>) {
    && m.Some? && r.revenue == m.value.revenue && r.conversions == m.value.conversions && r.sent == m.value.sent
    && r.shown == m.value.shown && r.clicks == m.value.clicks && r.closed == m.value.closed
  }

  /** The map holds exactly the rows of `rows`. */
  ghost predicate Holds(m: map<string, PerformanceRow>, rows: Rows) {
    forall k :: rows(k) == if k in m then Some(m[k]) else None
  }

  /** The two loops of Performance that fill the row map. */
  method MergeRows(metrics: seq<MetricRow>, costs: seq<CostRow>) returns (m: map<string, PerformanceRow>)
    ensures Holds(m, Merged(MetricsIn(metrics), CostsIn(costs)))
  {
    hide Calculate, EmptyMetric;
    m := map[];
    for i := 0 to |metrics|
      invariant forall k :: k in m <==> MetricFor(metrics[..i], k).Some?
      invariant forall k :: k in m ==> m[k] == Row(k, MetricFor(metrics[..i], k), 0.0)
    {
      assert metrics[..i + 1][..i] == metrics[..i];
      var r := metrics[i];
      if EmptyMetric(r) { continue; }
      var row := if r.key in m then m[r.key] else BLANK;
      row := row.(key := r.key, revenue := r.revenue, conversions := r.conversions, sent := r.sent, shown := r.shown,
                  clicks := r.clicks, closed := r.closed);
      CalculateOverwrites(row, Counted(r.key, Some(r), 0.0));
      m := m[r.key := Calculate(row)];
    }
    assert metrics[..|metrics|] == metrics;
    for i := 0 to |costs|
      invariant forall k :: k in m <==> MetricFor(metrics, k).Some? || CostFor(costs[..i], k) != 0.0
      invariant forall k :: k in m ==> m[k] == Row(k, MetricFor(metrics, k), CostFor(costs[..i], k))
    {
      assert costs[..i + 1][..i] == costs[..i];
      var c := costs[i];
      if c.spend == 0.0 { continue; }
      var row := if c.key in m then m[c.key] else BLANK;
      row := row.(key := c.key, spend := c.spend);
      CalculateOverwrites(row, Counted(c.key, MetricFor(metrics, c.key), c.spend));
      m := m[c.key := Calculate(row)];
    }
    assert costs[..|costs|] == costs;
  }

  /** The derived columns depend on the counted ones alone. */
  lemma CalculateOverwrites(r: PerformanceRow, q: PerformanceRow)
    requires SameCounts(r, q)
    ensures Calculate(r) == Calculate(q)
  {}

  // ----- order and limit -----

  function SortValue(r: PerformanceRow, column: string): real {
    if column == "spend" then r.spend
    else if column == "revenue" then r.revenue
    else if column == "roi" then r.roi
    else if column == "conversions" then r.conversions as real
    else if column == "sent" then r.sent as real
    else if column == "shown" then r.shown as real
    else if column == "clicks" then r.clicks as real
    else r.profit
  }

  /** The comparator of sortPerformanceRows. */
  function SortOrder(sortBy: string): (PerformanceRow, PerformanceRow) -> bool {
    var column := Text.Trim(sortBy);
    if column == "date" then (r: PerformanceRow, q: PerformanceRow) => Text.Less(r.key, q.key)
    else (r: PerformanceRow, q: PerformanceRow) =>
           if SortValue(r, column) == SortValue(q, column) then Text.Less(r.key, q.key)
           else SortValue(r, column) > SortValue(q, column)
  }

  lemma SortOrderStrict(sortBy: string)
    ensures StrictOrder(SortOrder(sortBy))
    ensures forall r: PerformanceRow, q: PerformanceRow ::
              r.key != q.key ==> SortOrder(sortBy)(r, q) || SortOrder(sortBy)(q, r)
  {
    hide SortValue, Text.Trim, Text.Less;
    var lt := SortOrder(sortBy);
    forall r ensures !lt(r, r) { Text.LessTrichotomy(r.key, r.key); }
    forall r, q, p | lt(r, q) && lt(q, p) ensures lt(r, p) {
      if Text.Less(r.key, q.key) && Text.Less(q.key, p.key) { Text.LessTransitive(r.key, q.key, p.key); }
    }
    forall r: PerformanceRow, q: PerformanceRow | r.key != q.key ensures lt(r, q) || lt(q, r) {
      Text.LessTrichotomy(r.key, q.key);
    }
  }

  /** Which column sorts: greater values come first and ties go by key; dates go by key alone, and
      whatever is not a column sorts by profit. */
  lemma SortColumns(sortBy: string, column: string, r: PerformanceRow, q: PerformanceRow)
    requires column == Text.Trim(sortBy)
    ensures column == "spend" ==> (SortOrder(sortBy)(r, q) <==> Leads(r.spend, q.spend, r.key, q.key))
    ensures column == "revenue" ==> (SortOrder(sortBy)(r, q) <==> Leads(r.revenue, q.revenue, r.key, q.key))
    ensures column == "roi" ==> (SortOrder(sortBy)(r, q) <==> Leads(r.roi, q.roi, r.key, q.key))
    ensures column == "conversions" ==>
              (SortOrder(sortBy)(r, q) <==> Leads(r.conversions as real, q.conversions as real, r.key, q.key))
    ensures column == "sent" ==>
              (SortOrder(sortBy)(r, q) <==> Leads(r.sent as real, q.sent as real, r.key, q.key))
    ensures column == "shown" ==>
              (SortOrder(sortBy)(r, q) <==> Leads(r.shown as real, q.shown as real, r.key, q.key))
    ensures column == "clicks" ==>
              (SortOrder(sortBy)(r, q) <==> Leads(r.clicks as real, q.clicks as real, r.key, q.key))
    ensures column == "date" ==> (SortOrder(sortBy)(r, q) <==> Text.Less(r.key, q.key))
    ensures column !in {"spend", "revenue", "roi", "conversions", "sent", "shown", "clicks", "date"} ==>
              (SortOrder(sortBy)(r, q) <==> Leads(r.profit, q.profit, r.key, q.key))
  {
    hide Text.Trim, Text.Less;
  }

  predicate Leads(x: real, y: real, k: string, l: string) {
    x > y || (x == y && Text.Less(k, l))
  }

  /** Moves row `i` in front of the larger rows before it. */
  method InsertRow(rows: array<PerformanceRow>, i: nat, lt: (PerformanceRow, PerformanceRow) -> bool)
    requires i < rows.Length
    modifies rows
    ensures rows[..i + 1] == Insert(old(rows[i]), old(rows[..i]), lt)
    ensures rows[i + 1..] == old(rows[i + 1..])
  {
    hide *;
    ghost var was := rows[..];
    var x := rows[i];
    var j := i;
    GapMoves(was, i, i, x, x);
    while j > 0 && lt(x, rows[j - 1])
      invariant j <= i && rows[..] == Gap(was, j, i, rows[j])
      invariant forall k :: j <= k < i ==> lt(x, was[k])
    {
      GapMoves(was, j, i, rows[j], was[j - 1]);
      rows[j] := rows[j - 1];
      j := j - 1;
    }
    GapMoves(was, j, i, rows[j], x);
    InsertedAt(x, was[..i], j, lt);
    rows[j] := x;
  }

  /** `s` with element `i` taken out and `y` put in at `j`. */
  function Gap(s: seq<PerformanceRow>, j: nat, i: nat, y: PerformanceRow): (r: seq<PerformanceRow>)
    requires j <= i < |s|
    ensures |r| == |s| && r[j] == y
  {
    s[..j] + [y] + s[j..i] + s[i + 1..]
  }

  lemma GapMoves(s: seq<PerformanceRow>, j: nat, i: nat, y: PerformanceRow, z: PerformanceRow)
    requires j <= i < |s|
    ensures Gap(s, j, i, y)[j := z] == Gap(s, j, i, z) && Gap(s, i, i, s[i]) == s
    ensures j > 0 ==> Gap(s, j, i, y)[j - 1] == s[j - 1] && Gap(s, j, i, s[j - 1]) == Gap(s, j - 1, i, s[j - 1])
    ensures var r := Gap(s, j, i, z);
            r[..i + 1] == s[..i][..j] + [z] + s[..i][j..] && r[i + 1..] == s[i + 1..]
  {
    if j > 0 { assert s[..j] == s[..j - 1] + [s[j - 1]]; }
  }

  /** sortPerformanceRows, in place: a stable sort, here by insertion. */
  method SortPerformanceRows(rows: array<PerformanceRow>, sortBy: string)
    modifies rows
    ensures rows[..] == Sort(old(rows[..]), SortOrder(sortBy))
  {
    hide SortOrder, Insert;
    var lt := SortOrder(sortBy);
    ghost var was := rows[..];
    for i := 0 to rows.Length
      invariant rows[..i] == Sort(was[..i], lt) && rows[i..] == was[i..]
    {
      assert was[..i + 1][..i] == was[..i] && rows[i] == was[i];
      InsertRow(rows, i, lt);
    }
    assert was[..rows.Length] == was && rows[..rows.Length] == rows[..];
  }

  lemma {:induction false} InsertedAt(
    x: PerformanceRow, s: seq<PerformanceRow>, j: nat, lt: (PerformanceRow, PerformanceRow) -> bool)
    requires j <= |s| && (j > 0 ==> !lt(x, s[j - 1])) && forall k :: j <= k < |s| ==> lt(x, s[k])
    ensures Insert(x, s, lt) == s[..j] + [x] + s[j..]
  {
    if j < |s| {
      var n := |s| - 1;
      InsertedAt(x, s[..n], j, lt);
      assert s[..n][..j] == s[..j] && s[..n][j..] + [s[n]] == s[j..];
    } else {
      assert s[..j] == s && s[j..] == [];
    }
  }

  predicate ListedKey(k: string) {
    k != "" && k != "null"
  }

  /** A row of the report: a merged row of a proper key, under its name. */
  predicate Listed(rows: Rows, names: Owners, r: PerformanceRow) {
    && ListedKey(r.key) && r.name == OwnerOf(names, r.key)
    && rows(r.key) == Some(r.(name := ""))
  }

  /** All rows of the report, in order. */
  ghost predicate FullReport(rows: Rows, names: Owners, sortBy: string, all: seq<PerformanceRow>) {
    && Ordered(SortOrder(sortBy), all)
    && forall r :: r in all <==> Listed(rows, names, r)
  }

  function Limited(all: seq<PerformanceRow>, limit: int): seq<PerformanceRow> {
    if 0 < limit < |all| then all[..limit] else all
  }

  /** A report is the first rows of the ordered listing. */
  ghost predicate IsReport(rows: Rows, names: Owners, sortBy: string, limit: int, result: seq<PerformanceRow>) {
    exists all :: FullReport(rows, names, sortBy, all) && result == Limited(all, limit)
  }

  /** The report is a function of the data: there is only one. */
  lemma OneReport(rows: Rows, names: Owners, sortBy: string, limit: int, a: seq<PerformanceRow>, b: seq<PerformanceRow>)
    requires IsReport(rows, names, sortBy, limit, a) && IsReport(rows, names, sortBy, limit, b)
    ensures a == b
  {
    hide SortOrder, Listed;
    var allA :| FullReport(rows, names, sortBy, allA) && a == Limited(allA, limit);
    var allB :| FullReport(rows, names, sortBy, allB) && b == Limited(allB, limit);
    SortOrderStrict(sortBy);
    OrderedByMembers(allA, allB, SortOrder(sortBy));
  }

  /** A limit keeps the best rows; without one nothing is left out; keys occur once. */
  lemma ReportMeaning(rows: Rows, names: Owners, sortBy: string, limit: int, result: seq<PerformanceRow>)
    requires IsReport(rows, names, sortBy, limit, result)
    ensures forall i :: 0 <= i < |result| ==> Listed(rows, names, result[i]) && result[i].key !in {"", "null"}
    ensures forall i, j :: 0 <= i < j < |result| ==>
              SortOrder(sortBy)(result[i], result[j]) && result[i].key != result[j].key
    ensures forall i, q :: 0 <= i < |result| && Listed(rows, names, q) && q !in result ==>
              SortOrder(sortBy)(result[i], q)
    ensures limit > 0 ==> |result| <= limit
    ensures (limit <= 0 || |result| < limit) ==>
              && (forall q :: Listed(rows, names, q) ==> q in result)
              && (forall k :: k !in {"", "null"} && rows(k).Some? && rows(k).value.key == k &&
                              rows(k).value.name == "" ==>
                    rows(k).value.(name := OwnerOf(names, k)) in result)
  {
    hide SortOrder, Text.Trim;
    var all :| FullReport(rows, names, sortBy, all) && result == Limited(all, limit);
    SortOrderStrict(sortBy);
    forall i | 0 <= i < |result| ensures Listed(rows, names, result[i]) && result[i] == all[i] { assert all[i] in all; }
    forall i, j | 0 <= i < j < |result|
      ensures SortOrder(sortBy)(result[i], result[j]) && result[i].key != result[j].key
    {
      assert SortOrder(sortBy)(all[i], all[j]);
      assert all[i] != all[j];
    }
    forall i, q | 0 <= i < |result| && Listed(rows, names, q) && q !in result ensures SortOrder(sortBy)(result[i], q) {
      var j :| 0 <= j < |all| && all[j] == q;
      assert forall k :: 0 <= k < |result| ==> result[k] == all[k];
      assert i < |result| <= j;
      assert SortOrder(sortBy)(all[i], all[j]);
    }
  }

  /** The rows of the map, each once, under their names. */
  ghost predicate Enumerates(listed: seq<PerformanceRow>, m: map<string, PerformanceRow>, names: Owners) {
    && (forall i, j :: 0 <= i < j < |listed| ==> listed[i].key != listed[j].key)
    && (forall i :: 0 <= i < |listed| ==>
          var k := listed[i].key; k in m && ListedKey(k) && listed[i] == m[k].(name := OwnerOf(names, k)))
    && (forall k :: k in m && ListedKey(k) ==> m[k].(name := OwnerOf(names, k)) in listed)
  }

  /** The loop over the row map, whose iteration picks keys in any order. */
  method NamedRows(m: map<string, PerformanceRow>, names: Owners) returns (listed: seq<PerformanceRow>)
    requires forall k :: k in m ==> m[k].key == k
    ensures Enumerates(listed, m, names)
  {
    listed := [];
    var left := m.Keys;
    while left != {}
      invariant left <= m.Keys
      invariant forall i :: 0 <= i < |listed| ==> listed[i].key in m.Keys - left
      invariant forall i :: 0 <= i < |listed| ==>
        var k := listed[i].key; ListedKey(k) && listed[i] == m[k].(name := OwnerOf(names, k))
      invariant forall k :: k in m && k !in left && ListedKey(k) ==> m[k].(name := OwnerOf(names, k)) in listed
      invariant forall i, j :: 0 <= i < j < |listed| ==> listed[i].key != listed[j].key
      decreases |left|
    {
      var k :| k in left;
      left := left - {k};
      if k == "" || k == "null" { continue; }
      listed := listed + [m[k].(name := OwnerOf(names, k))];
    }
  }

  lemma EnumeratesListed(listed: seq<PerformanceRow>, m: map<string, PerformanceRow>, names: Owners, rows: Rows)
    requires Enumerates(listed, m, names) && Holds(m, rows) && forall k :: k in m ==> m[k].key == k && m[k].name == ""
    ensures forall r :: r in listed <==> Listed(rows, names, r)
  {
    forall r ensures r in listed <==> Listed(rows, names, r) {
      if Listed(rows, names, r) {
        assert rows(r.key) == if r.key in m then Some(m[r.key]) else None;
        assert m[r.key].(name := OwnerOf(names, r.key)) == r;
      }
      if r in listed {
        var i :| 0 <= i < |listed| && listed[i] == r;
        assert m[r.key] == r.(name := "");
      }
    }
  }

  /** Sorting the listed rows gives the report, in whatever order they were listed. */
  lemma SortedIsReport(
    listed: seq<PerformanceRow>, m: map<string, PerformanceRow>, names: Owners, sortBy: string, limit: int, rows: Rows)
    requires Enumerates(listed, m, names) && Holds(m, rows) && forall k :: k in m ==> m[k].key == k && m[k].name == ""
    ensures IsReport(rows, names, sortBy, limit, Limited(Sort(listed, SortOrder(sortBy)), limit))
  {
    hide SortOrder, Sort, Listed;
    EnumeratesListed(listed, m, names, rows);
    SortOrderStrict(sortBy);
    SortOrders(listed, SortOrder(sortBy));
    SortPermutes(listed, SortOrder(sortBy));
    var sorted := Sort(listed, SortOrder(sortBy));
    forall r ensures r in sorted <==> Listed(rows, names, r) {
      assert r in multiset(sorted) <==> r in multiset(listed);
    }
    assert FullReport(rows, names, sortBy, sorted);
  }
}
