/** The audience snapshot of a launch, read page by page behind a (shard, subscription id) cursor:
    AudienceBatch of packages/go/subscribers/clickhouse_repository.go:467-517 in the loop of
    packages/go/inventory/service.go:1182-1231. */
module Paging {
  import opened Wrappers
  import opened Sorting

  datatype AudienceRow = AudienceRow(
    launch: string,
    campaign: string,
    source: string,
    subscription: string,
    endpoint: string,
    p256dh: string,
    auth: string,
    shard: nat)

  datatype Cursor = Cursor(shard: nat, subscription: string)

  /** The order of subscription ids in the audience table. */
  type IdOrder = (string, string) -> bool

  ghost predicate TotalIdOrder(before: IdOrder) {
    StrictOrder(before) && forall a, b :: a != b ==> before(a, b) || before(b, a)
  }

  predicate KeyBefore(shard: nat, id: string, r: AudienceRow, before: IdOrder) {
    shard < r.shard || (shard == r.shard && before(id, r.subscription))
  }

  /** ORDER BY shard ASC, subscription_id ASC. */
  function RowOrder(before: IdOrder): (AudienceRow, AudienceRow) -> bool {
    (a: AudienceRow, b: AudienceRow) => KeyBefore(a.shard, a.subscription, b, before)
  }

  /** The WHERE clause: rows of the launch behind the cursor; no cursor while the id is empty. */
  function Selected(launch: string, after: Cursor, before: IdOrder): AudienceRow -> bool {
    (r: AudienceRow) =>
      r.launch == launch && (after.subscription == "" || KeyBefore(after.shard, after.subscription, r, before))
  }

  function AudienceBatch(table: seq<AudienceRow>, launch: string, after: Cursor, limit: nat, before: IdOrder):
    seq<AudienceRow>
  {
    var rows := Sort(Filter(table, Selected(launch, after, before)), RowOrder(before));
    if |rows| <= limit then rows else rows[..limit]
  }

  /** The audience snapshot of a launch, in key order. */
  function Snapshot(table: seq<AudienceRow>, launch: string, before: IdOrder): seq<AudienceRow> {
    Sort(Filter(table, (r: AudienceRow) => r.launch == launch), RowOrder(before))
  }

  /** No two rows of the launch agree on shard and subscription. */
  ghost predicate DistinctKeys(table: seq<AudienceRow>, launch: string) {
    forall i, j :: 0 <= i < j < |table| && table[i].launch == table[j].launch == launch ==>
      table[i].shard != table[j].shard || table[i].subscription != table[j].subscription
  }

  lemma RowOrderStrict(before: IdOrder)
    requires TotalIdOrder(before)
    ensures StrictOrder(RowOrder(before))
  {
    var lt := RowOrder(before);
    forall a, b, c | lt(a, b) && lt(b, c) ensures lt(a, c) {
      assert a.shard == b.shard == c.shard ==>
               before(a.subscription, b.subscription) && before(b.subscription, c.subscription);
    }
  }

  lemma {:induction false} LaunchRowsDistinguished(table: seq<AudienceRow>, launch: string, before: IdOrder)
    requires TotalIdOrder(before) && DistinctKeys(table, launch)
    ensures Distinguishes(RowOrder(before), Filter(table, (r: AudienceRow) => r.launch == launch))
  {
    hide TotalIdOrder, RowOrder;
    if table == [] {
    } else {
      var front, last := table[..|table| - 1], table[|table| - 1];
      var keep := (r: AudienceRow) => r.launch == launch;
      assert DistinctKeys(front, launch) by {
        assert forall i :: 0 <= i < |front| ==> table[i] == front[i];
      }
      LaunchRowsDistinguished(front, launch, before);
      var f := Filter(front, keep);
      forall i | 0 <= i < |f| && keep(last)
        ensures RowOrder(before)(f[i], last) || RowOrder(before)(last, f[i])
      {
        EarlierKey(table, launch, f, i);
        KeysTold(f[i], last, before);
      }
    }
  }

  /** An earlier row of the launch has another key than the last row. */
  lemma EarlierKey(table: seq<AudienceRow>, launch: string, f: seq<AudienceRow>, i: nat)
    requires table != [] && DistinctKeys(table, launch) && table[|table| - 1].launch == launch && i < |f|
    requires f == Filter(table[..|table| - 1], (r: AudienceRow) => r.launch == launch)
    ensures f[i].shard != table[|table| - 1].shard || f[i].subscription != table[|table| - 1].subscription
  {
    hide Filter;
    var front := table[..|table| - 1];
    FilterMembers(front, (r: AudienceRow) => r.launch == launch);
    assert f[i] in f;
    var j :| 0 <= j < |front| && front[j] == f[i];
    assert table[j] == f[i];
  }

  lemma KeysTold(r: AudienceRow, q: AudienceRow, before: IdOrder)
    requires TotalIdOrder(before) && (r.shard != q.shard || r.subscription != q.subscription)
    ensures RowOrder(before)(r, q) || RowOrder(before)(q, r)
  {}

  lemma SnapshotMeaning(table: seq<AudienceRow>, launch: string, before: IdOrder)
    requires TotalIdOrder(before) && DistinctKeys(table, launch)
    ensures var s := Snapshot(table, launch, before);
            && Ordered(RowOrder(before), s)
            && multiset(s) == multiset(Filter(table, (r: AudienceRow) => r.launch == launch))
            && forall r :: r in s <==> r in table && r.launch == launch
  {
    var keep := (r: AudienceRow) => r.launch == launch;
    RowOrderStrict(before);
    LaunchRowsDistinguished(table, launch, before);
    SortOrders(Filter(table, keep), RowOrder(before));
    SortPermutes(Filter(table, keep), RowOrder(before));
    FilterMembers(table, keep);
    forall r ensures r in Snapshot(table, launch, before) <==> r in table && r.launch == launch {
      assert r in Snapshot(table, launch, before) <==> r in multiset(Snapshot(table, launch, before));
      assert r in Filter(table, keep) <==> r in multiset(Filter(table, keep));
    }
  }

  /** The cursor left by the first `i` rows: none before any row was read. */
  function CursorAfter(snapshot: seq<AudienceRow>, i: nat): Cursor
    requires i <= |snapshot|
  {
    if i == 0 then Cursor(0, "") else Cursor(snapshot[i - 1].shard, snapshot[i - 1].subscription)
  }

  /** The part of the WHERE clause that the cursor contributes. */
  function Behind(after: Cursor, before: IdOrder): AudienceRow -> bool {
    (r: AudienceRow) => after.subscription == "" || KeyBefore(after.shard, after.subscription, r, before)
  }

  /** Exactly the rows from `i` on are behind the cursor left by row `i - 1`. */
  lemma BehindCursor(s: seq<AudienceRow>, before: IdOrder, i: nat)
    requires TotalIdOrder(before) && Ordered(RowOrder(before), s)
    requires i <= |s| && (i > 0 ==> s[i - 1].subscription != "")
    ensures forall j :: 0 <= j < |s| ==> (Behind(CursorAfter(s, i), before)(s[j]) <==> i <= j)
  {
    RowOrderStrict(before);
    forall j | 0 <= j < |s| && i > 0 ensures Behind(CursorAfter(s, i), before)(s[j]) <==> i <= j {
      var lt := RowOrder(before);
      assert Behind(CursorAfter(s, i), before)(s[j]) <==> lt(s[i - 1], s[j]);
      if j < i - 1 { assert lt(s[j], s[i - 1]); }
      if i - 1 < j { assert lt(s[i - 1], s[j]); }
    }
  }

  /** Behind row `i - 1` of the snapshot the query sees the snapshot from row `i` on. */
  lemma RowsBehind(table: seq<AudienceRow>, launch: string, before: IdOrder, i: nat)
    requires TotalIdOrder(before) && DistinctKeys(table, launch)
    requires i <= |Snapshot(table, launch, before)|
    requires i > 0 ==> Snapshot(table, launch, before)[i - 1].subscription != ""
    ensures var s := Snapshot(table, launch, before);
            Sort(Filter(table, Selected(launch, CursorAfter(s, i), before)), RowOrder(before)) == s[i..]
  {
    var s := Snapshot(table, launch, before);
    var keep := (r: AudienceRow) => r.launch == launch;
    var after := CursorAfter(s, i);
    RowOrderStrict(before);
    LaunchRowsDistinguished(table, launch, before);
    SnapshotMeaning(table, launch, before);
    FilterTwice(table, keep, Behind(after, before), Selected(launch, after, before));
    SortFilterCommute(Filter(table, keep), Behind(after, before), RowOrder(before));
    BehindCursor(s, before, i);
    FilterTail(s, i, Behind(after, before));
  }

  /** How many rows a page holds when `left` rows are left. */
  function PageSize(left: nat, limit: nat): nat {
    if left <= limit then left else limit
  }

  /** A page read behind row `i - 1` of the snapshot holds the next rows and nothing else. */
  lemma PageAt(table: seq<AudienceRow>, launch: string, before: IdOrder, i: nat, limit: nat)
    requires TotalIdOrder(before) && DistinctKeys(table, launch)
    requires i <= |Snapshot(table, launch, before)|
    requires i > 0 ==> Snapshot(table, launch, before)[i - 1].subscription != ""
    ensures var s := Snapshot(table, launch, before);
            AudienceBatch(table, launch, CursorAfter(s, i), limit, before) == s[i..i + PageSize(|s| - i, limit)]
  {
    hide Sort, Filter, TotalIdOrder, DistinctKeys, Snapshot, Selected, RowOrder;
    RowsBehind(table, launch, before, i);
    var rest := Snapshot(table, launch, before)[i..];
    assert rest[..PageSize(|rest|, limit)] == Snapshot(table, launch, before)[i..i + PageSize(|rest|, limit)];
  }

  /** Two rows with one key: the second is lost when a page ends between them. */
  lemma DuplicateKeySkipped(r: AudienceRow, q: AudienceRow, before: IdOrder)
    requires TotalIdOrder(before) && r.launch == q.launch
    requires r.shard == q.shard && r.subscription == q.subscription != ""
    ensures var table := [r, q];
            && AudienceBatch(table, r.launch, Cursor(0, ""), 1, before) == [r]
            && AudienceBatch(table, r.launch, Cursor(r.shard, r.subscription), 1, before) == []
  {
    hide TotalIdOrder;
    var none := Selected(r.launch, Cursor(r.shard, r.subscription), before);
    NotBehindItself(r, before);
    FilterPair(r, q, Selected(r.launch, Cursor(0, ""), before));
    FilterPair(r, q, none);
    assert [r, q][..1] == [r];
    assert Sort([r], RowOrder(before)) == [r] by { assert Sort([r][..0], RowOrder(before)) == []; }
    assert Insert(q, [r], RowOrder(before)) == [r, q];
  }

  lemma NotBehindItself(r: AudienceRow, before: IdOrder)
    requires TotalIdOrder(before)
    ensures !before(r.subscription, r.subscription)
  {}

  lemma FilterPair(r: AudienceRow, q: AudienceRow, keep: AudienceRow -> bool)
    ensures keep(r) && keep(q) ==> Filter([r, q], keep) == [r, q]
    ensures !keep(r) && !keep(q) ==> Filter([r, q], keep) == []
  {
    assert [r, q][..1] == [r];
    assert Filter([r], keep) == if keep(r) then [r] else [] by { assert [r][..0] == []; }
  }

  // ----- all pages together -----

  ghost predicate AllNamed(s: seq<AudienceRow>) {
    forall i :: 0 <= i < |s| ==> s[i].subscription != ""
  }

  /** No row of the launch has a blank subscription id. */
  ghost predicate NamedRows(table: seq<AudienceRow>, launch: string) {
    forall i :: 0 <= i < |table| && table[i].launch == launch ==> table[i].subscription != ""
  }

  function CursorOf(r: AudienceRow): Cursor {
    Cursor(r.shard, r.subscription)
  }

  lemma BatchMembers(table: seq<AudienceRow>, launch: string, after: Cursor, limit: nat, before: IdOrder)
    ensures forall r :: r in AudienceBatch(table, launch, after, limit, before) ==>
              r in table && Selected(launch, after, before)(r)
    ensures |AudienceBatch(table, launch, after, limit, before)| <= limit
  {
    hide Sort, Filter;
    var rows := Filter(table, Selected(launch, after, before));
    SortPermutes(rows, RowOrder(before));
    FilterMembers(table, Selected(launch, after, before));
    forall r | r in AudienceBatch(table, launch, after, limit, before)
      ensures r in table && Selected(launch, after, before)(r)
    {
      assert r in multiset(Sort(rows, RowOrder(before)));
      assert r in rows;
    }
  }

  /** Behind a named row there is less of the table than before it. */
  lemma LessBehind(table: seq<AudienceRow>, launch: string, after: Cursor, before: IdOrder, r: AudienceRow)
    requires TotalIdOrder(before) && r in table && Selected(launch, after, before)(r) && r.subscription != ""
    ensures |Filter(table, Selected(launch, CursorOf(r), before))| < |Filter(table, Selected(launch, after, before))|
  {
    var p, q := Selected(launch, after, before), Selected(launch, CursorOf(r), before);
    RowOrderStrict(before);
    forall y | q(y) ensures p(y) {
      var lt := RowOrder(before);
      assert lt(r, y);
      if after.subscription != "" {
        var a := r.(shard := after.shard, subscription := after.subscription);
        assert lt(a, r) && lt(a, y);
      }
    }
    assert !q(r) by { NotBehindItself(r, before); }
    var i :| 0 <= i < |table| && table[i] == r;
    FilterFewer(table, p, q, i);
  }

  lemma {:induction false} FilterFewer(
    s: seq<AudienceRow>, p: AudienceRow -> bool, q: AudienceRow -> bool, i: nat)
    requires i < |s| && p(s[i]) && !q(s[i]) && forall y :: q(y) ==> p(y)
    ensures |Filter(s, q)| < |Filter(s, p)|
  {
    var n := |s| - 1;
    if i == n {
      FilterNoMore(s[..n], p, q);
    } else {
      FilterFewer(s[..n], p, q, i);
    }
  }

  lemma {:induction false} FilterNoMore(s: seq<AudienceRow>, p: AudienceRow -> bool, q: AudienceRow -> bool)
    requires forall y :: q(y) ==> p(y)
    ensures |Filter(s, q)| <= |Filter(s, p)|
  {
    if s == [] {
    } else {
      FilterNoMore(s[..|s| - 1], p, q);
    }
  }

  /** The rows that the loop goes through from a cursor on: page after page, up to the first empty
      page or the first one with a blank id. */
  ghost function RowsFrom(table: seq<AudienceRow>, launch: string, before: IdOrder, limit: nat, after: Cursor):
    seq<AudienceRow>
    requires TotalIdOrder(before)
    decreases |Filter(table, Selected(launch, after, before))|
  {
    var page := AudienceBatch(table, launch, after, limit, before);
    if page == [] || !AllNamed(page) then []
    else
      var last := page[|page| - 1];
      BatchMembers(table, launch, after, limit, before);
      LessBehind(table, launch, after, before, last);
      page + RowsFrom(table, launch, before, limit, CursorOf(last))
  }

  ghost function PagedRows(table: seq<AudienceRow>, launch: string, before: IdOrder, limit: nat): seq<AudienceRow>
    requires TotalIdOrder(before)
  {
    RowsFrom(table, launch, before, limit, Cursor(0, ""))
  }

  /** With distinct keys the pages from row `i` of the snapshot on are a part of it, and all the
      rest when no id is blank. */
  lemma {:induction false} PagesOfSnapshot(
    table: seq<AudienceRow>, launch: string, before: IdOrder, limit: nat, i: nat)
    requires limit >= 1 && TotalIdOrder(before) && DistinctKeys(table, launch)
    requires i <= |Snapshot(table, launch, before)|
    requires i > 0 ==> Snapshot(table, launch, before)[i - 1].subscription != ""
    ensures var s := Snapshot(table, launch, before);
            var rows := RowsFrom(table, launch, before, limit, CursorAfter(s, i));
            rows <= s[i..] && (AllNamed(s) ==> rows == s[i..])
    decreases |Snapshot(table, launch, before)| - i
  {
    hide TotalIdOrder, DistinctKeys, Snapshot, AudienceBatch;
    var s := Snapshot(table, launch, before);
    PageAt(table, launch, before, i, limit);
    var page := AudienceBatch(table, launch, CursorAfter(s, i), limit, before);
    if page != [] && AllNamed(page) {
      var j := i + |page|;
      assert page[|page| - 1] == s[j - 1];
      assert s[i..] == page + s[j..];
      PagesOfSnapshot(table, launch, before, limit, j);
    }
  }

  /** One row per page: the rows come out strictly in key order. */
  lemma {:induction false} SinglesOrdered(table: seq<AudienceRow>, launch: string, before: IdOrder, after: Cursor)
    requires TotalIdOrder(before)
    ensures var rows := RowsFrom(table, launch, before, 1, after);
            && Ordered(RowOrder(before), rows)
            && forall r :: r in rows ==> Selected(launch, after, before)(r)
    decreases |Filter(table, Selected(launch, after, before))|
  {
    hide AudienceBatch, Filter;
    var page := AudienceBatch(table, launch, after, 1, before);
    BatchMembers(table, launch, after, 1, before);
    if page != [] && AllNamed(page) {
      var last := page[0];
      assert page == [last] && last in page;
      LessBehind(table, launch, after, before, last);
      SinglesOrdered(table, launch, before, CursorOf(last));
      FirstThenBehind(RowsFrom(table, launch, before, 1, CursorOf(last)), launch, last, after, before);
    }
  }

  lemma FirstThenBehind(rest: seq<AudienceRow>, launch: string, r: AudienceRow, after: Cursor, before: IdOrder)
    requires TotalIdOrder(before) && Ordered(RowOrder(before), rest) && r.subscription != ""
    requires Selected(launch, after, before)(r) && forall q :: q in rest ==> Selected(launch, CursorOf(r), before)(q)
    ensures Ordered(RowOrder(before), [r] + rest)
    ensures forall q :: q in [r] + rest ==> Selected(launch, after, before)(q)
  {
    var lt := RowOrder(before);
    RowOrderStrict(before);
    forall q | q in rest ensures lt(r, q) && Selected(launch, after, before)(q) {
      if after.subscription != "" {
        var a := r.(shard := after.shard, subscription := after.subscription);
        assert lt(a, r) && lt(a, q);
      }
    }
    var all := [r] + rest;
    forall i, j | 0 <= i < j < |all| ensures lt(all[i], all[j]) {
      assert all[j] == rest[j - 1];
      if i == 0 { assert rest[j - 1] in rest; } else { assert all[i] == rest[i - 1]; }
    }
  }

  /** Where rows of a launch share a key, they cannot all be among rows in strict key order. */
  lemma OrderedMeansDistinct(table: seq<AudienceRow>, launch: string, before: IdOrder, rows: seq<AudienceRow>)
    requires TotalIdOrder(before) && Ordered(RowOrder(before), rows)
    requires multiset(rows) == multiset(Filter(table, (r: AudienceRow) => r.launch == launch))
    ensures DistinctKeys(table, launch)
  {
    hide Filter;
    var keep := (r: AudienceRow) => r.launch == launch;
    var lt := RowOrder(before);
    RowOrderStrict(before);
    OrderedOnce(rows, lt);
    FilterMembers(table, keep);
    forall i, j | 0 <= i < j < |table| && table[i].launch == table[j].launch == launch
      ensures table[i].shard != table[j].shard || table[i].subscription != table[j].subscription
    {
      assert table == table[..j] + table[j..];
      assert table[i] == table[..j][i] && table[j] == table[j..][0];
      assert table[i] in multiset(table[..j]) && table[j] in multiset(table[j..]);
      var r, q := table[i], table[j];
      assert multiset(rows)[r] >= 1 && multiset(rows)[q] >= 1;
      var a :| 0 <= a < |rows| && rows[a] == r;
      var b :| 0 <= b < |rows| && rows[b] == q;
      assert r != q;
      assert a < b ==> lt(r, q);
      assert b < a ==> lt(q, r);
      NotBehindItself(r, before);
    }
  }

  /** Paging goes through every row of a launch once, for every page size, if and only if no two of
      its rows share a key. */
  lemma CompleteExactlyWhen(table: seq<AudienceRow>, launch: string, before: IdOrder)
    requires TotalIdOrder(before) && NamedRows(table, launch)
    ensures (forall limit :: limit >= 1 ==> Complete(table, launch, before, limit)) <==> DistinctKeys(table, launch)
  {
    hide TotalIdOrder, DistinctKeys, Snapshot, Filter;
    if DistinctKeys(table, launch) {
      forall limit | limit >= 1 ensures Complete(table, launch, before, limit) {
        PagedIsSnapshot(table, launch, before, limit);
        SnapshotMeaning(table, launch, before);
      }
    } else if forall limit :: limit >= 1 ==> Complete(table, launch, before, limit) {
      assert Complete(table, launch, before, 1);
      SinglesOrdered(table, launch, before, Cursor(0, ""));
      OrderedMeansDistinct(table, launch, before, PagedRows(table, launch, before, 1));
    }
  }

  ghost predicate Complete(table: seq<AudienceRow>, launch: string, before: IdOrder, limit: nat)
    requires TotalIdOrder(before)
  {
    multiset(PagedRows(table, launch, before, limit)) ==
    multiset(Filter(table, (r: AudienceRow) => r.launch == launch))
  }

  /** With distinct keys and named rows the pages make up the snapshot. */
  lemma PagedIsSnapshot(table: seq<AudienceRow>, launch: string, before: IdOrder, limit: nat)
    requires limit >= 1 && TotalIdOrder(before) && DistinctKeys(table, launch) && NamedRows(table, launch)
    ensures PagedRows(table, launch, before, limit) == Snapshot(table, launch, before)
  {
    hide TotalIdOrder, DistinctKeys, Snapshot;
    var s := Snapshot(table, launch, before);
    PagesOfSnapshot(table, launch, before, limit, 0);
    SnapshotMeaning(table, launch, before);
    forall i | 0 <= i < |s| ensures s[i].subscription != "" {
      assert s[i] in s;
      var j :| 0 <= j < |table| && table[j] == s[i];
    }
    assert s[0..] == s;
  }
}
