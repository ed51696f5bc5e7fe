/** Keyset enqueue of a launch: packages/go/inventory/service.go:1124-1231, with
    AudienceBatch of packages/go/subscribers/clickhouse_repository.go:467-517 and
    ProduceDeliveryTasks of packages/go/redpanda/delivery.go:84-95. */
module Enqueue {
  import opened Paging
  import opened Sorting
  import opened Wrappers
  import Targeting
  import Text

  datatype DeliveryTask = DeliveryTask(
    delivery: string,
    launch: string,
    campaign: string,
    source: string,
    subscription: string,
    endpoint: string,
    p256dh: string,
    auth: string,
    shard: nat,
    attempt: int)

  // ----- the loops -----

  /** Faults by position in the rows gone through: reading the page that starts there, drawing the
      delivery id of that row, and producing its task. */
  datatype Faults = Faults(read: nat -> bool, id: nat -> bool, produce: nat -> Reply)

  datatype EnqueueError = ReadFailed | BlankSubscription | NoDeliveryId | ProduceFailed

  function TaskOf(r: AudienceRow, delivery: string): DeliveryTask {
    DeliveryTask(delivery, r.launch, r.campaign, r.source, r.subscription, r.endpoint, r.p256dh, r.auth, r.shard, 0)
  }

  /** One task per row, in row order; `newId(i)` is the delivery id drawn for row `i`. */
  function TasksOf(rows: seq<AudienceRow>, newId: nat -> string): (tasks: seq<DeliveryTask>)
    ensures |tasks| == |rows|
    ensures forall i :: 0 <= i < |rows| ==> tasks[i] == TaskOf(rows[i], newId(i))
  {
    seq(|rows|, i requires 0 <= i < |rows| => TaskOf(rows[i], newId(i)))
  }

  /** Nothing goes wrong on the way through `n` rows. */
  ghost predicate Quiet(f: Faults, n: nat) {
    forall i :: 0 <= i <= n ==> !f.read(i) && !f.id(i) && f.produce(i) == Answered
  }

  /** Producing stopped in front of the record that was not written, or right behind the one that
      was written without acknowledgement. */
  ghost predicate StoppedAt(f: Faults, from: nat, produced: nat, end: nat) {
    || (produced < end && f.produce(produced) == NotSent)
    || (from < produced <= end && f.produce(produced - 1) == AnswerLost)
  }

  /** How the loop may end: the tasks produced are a prefix of the paged rows, at most one page
      longer than the count returned, and complete exactly when nothing went wrong. */
  ghost predicate EnqueueOutcome(
    s: seq<AudienceRow>, limit: nat, f: Faults, enqueued: nat, err: Option<EnqueueError>, produced: nat)
  {
    && enqueued <= produced <= |s| && produced <= enqueued + limit
    && (err == None ==> enqueued == produced == |s|)
    && (err.Some? && err.value != ProduceFailed ==> produced == enqueued)
    && (err == Some(ProduceFailed) ==> StoppedAt(f, enqueued, produced, enqueued + PageSize(|s| - enqueued, limit)))
  }

  lemma PagePrefix(
    s: seq<AudienceRow>, at: nat, rows: seq<AudienceRow>, tasks: seq<DeliveryTask>, newId: nat -> string, n: nat,
    sent: seq<DeliveryTask>)
    requires at + |rows| <= |s| && rows == s[at..at + |rows|] && n <= |rows| == |tasks|
    requires forall i :: 0 <= i < |rows| ==> tasks[i] == TaskOf(rows[i], newId(at + i))
    ensures (sent + TasksOf(s, newId)[..at]) + tasks[..n] == sent + TasksOf(s, newId)[..at + n]
  {
    forall i | 0 <= i < n ensures tasks[i] == TasksOf(s, newId)[at + i] { assert rows[i] == s[at + i]; }
    assert TasksOf(s, newId)[..at] + tasks[..n] == TasksOf(s, newId)[..at + n];
  }

  /** How one page ends: all of it produced, or an error with the tasks that were. */
  ghost predicate PageOutcome(at: nat, size: nat, f: Faults, n: nat, err: Option<EnqueueError>) {
    && (err == None ==> n == size)
    && (err.Some? ==> err == Some(ProduceFailed) && StoppedAt(f, at, at + n, at + size))
    && ((forall i :: at <= i < at + size ==> f.produce(i) == Answered) ==> err == None)
  }

  /** What is left to go through behind a cursor, once `i` rows are done. */
  ghost predicate Left(
    table: seq<AudienceRow>, launch: string, before: IdOrder, limit: nat, s: seq<AudienceRow>, i: nat, after: Cursor)
    requires TotalIdOrder(before)
  {
    i <= |s| && after == CursorAfter(s, i) && RowsFrom(table, launch, before, limit, after) == s[i..]
  }

  lemma AllLeft(table: seq<AudienceRow>, launch: string, before: IdOrder, limit: nat)
    requires TotalIdOrder(before)
    ensures Left(table, launch, before, limit, PagedRows(table, launch, before, limit), 0, Cursor(0, ""))
  {
    assert PagedRows(table, launch, before, limit)[0..] == PagedRows(table, launch, before, limit);
  }

  /** One round of the loop: a page that is neither empty nor blank is the next part of the rows. */
  lemma NextPage(
    table: seq<AudienceRow>, launch: string, before: IdOrder, limit: nat, s: seq<AudienceRow>, i: nat, after: Cursor)
    requires TotalIdOrder(before) && Left(table, launch, before, limit, s, i, after)
    ensures var page := AudienceBatch(table, launch, after, limit, before);
            && |page| <= limit
            && (page == [] ==> i == |s|)
            && (!AllNamed(page) ==> i == |s| && !NamedRows(table, launch))
            && (page != [] && AllNamed(page) ==>
                  && i + |page| <= |s| && page == s[i..i + |page|]
                  && Left(table, launch, before, limit, s, i + |page|, CursorOf(page[|page| - 1])))
  {
    hide AudienceBatch, TotalIdOrder;
    var page := AudienceBatch(table, launch, after, limit, before);
    BatchMembers(table, launch, after, limit, before);
    if !AllNamed(page) {
      var i :| 0 <= i < |page| && page[i].subscription == "";
      assert page[i] in page;
      var j :| 0 <= j < |table| && table[j] == page[i];
    } else if page != [] {
      var rest := RowsFrom(table, launch, before, limit, CursorOf(page[|page| - 1]));
      assert s[i..] == page + rest;
      assert s[i..][..|page|] == page && s[i..][|page|..] == rest;
      assert s[i + |page| - 1] == page[|page| - 1];
    }
  }

  /** The exits of the loop that produce nothing from the page at hand. */
  lemma Stops(s: seq<AudienceRow>, limit: nat, f: Faults, enqueued: nat)
    requires enqueued <= |s|
    ensures EnqueueOutcome(s, limit, f, enqueued, Some(ReadFailed), enqueued)
    ensures EnqueueOutcome(s, limit, f, enqueued, Some(BlankSubscription), enqueued)
    ensures EnqueueOutcome(s, limit, f, enqueued, Some(NoDeliveryId), enqueued)
    ensures enqueued == |s| ==> EnqueueOutcome(s, limit, f, enqueued, None, enqueued)
    ensures f.read(enqueued) ==> !Quiet(f, |s|)
  {}

  lemma NoIdNoQuiet(s: seq<AudienceRow>, f: Faults, at: nat, size: nat)
    requires at + size <= |s| && exists i :: at <= i < at + size && f.id(i)
    ensures !Quiet(f, |s|)
  {}

  lemma PageStops(
    s: seq<AudienceRow>, limit: nat, f: Faults, enqueued: nat, size: nat, n: nat, err: Option<EnqueueError>)
    requires size <= limit && enqueued + size <= |s| && n <= size && PageOutcome(enqueued, size, f, n, err)
    ensures err.Some? ==> EnqueueOutcome(s, limit, f, enqueued, err, enqueued + n) && !Quiet(f, |s|)
    ensures err == None ==> n == size
  {}

  class Launches {
    var table: seq<AudienceRow>
    var launches: map<string, Launch>
    var topic: seq<DeliveryTask>

    constructor ()
      ensures table == [] && launches == map[] && topic == []
    {
      table, launches, topic := [], map[], [];
    }

    /** createCampaignLaunch.  `id` is the launch id the store draws, `build` what becomes of the
        audience query, and `create` and `finish` what becomes of the two updates of the launch. */
    method CreateCampaignLaunch(
      campaign: Option<Campaign>, id: string, timezone: string, subs: seq<Subscriber>, shardOf: string -> nat,
      create: Reply, build: Reply, finish: Reply)
      returns (created: bool)
      requires id !in launches && forall r :: r in table ==> r.launch != id
      modifies this`table, this`launches
      ensures created <==>
                campaign.Some? && campaign.value.active && create == Answered && build == Answered && finish == Answered
      ensures id in launches <==> campaign.Some? && campaign.value.active && create != NotSent
      ensures id in launches && launches[id].status == LaunchCompleted <==>
                campaign.Some? && campaign.value.active && create == Answered && build == Answered && finish != NotSent
      ensures id in launches && launches[id].status == LaunchCompleted ==>
                var rows := AudienceRows(subs, campaign.value, id, timezone, shardOf);
                && table == old(table) + rows
                && launches[id] == Launch(campaign.value.id, LaunchCompleted, |rows|, EnqueuePending, 0)
      ensures campaign.None? || create != Answered ==> table == old(table)
      ensures table == old(table) ||
              table == old(table) + AudienceRows(subs, campaign.value, id, timezone, shardOf)
      ensures launches == if id in launches then old(launches)[id := launches[id]] else old(launches)
    {
      hide AudienceRows, CountLaunch, Filter;
      if campaign.None? || !campaign.value.active || create == NotSent { return false; }
      var c := campaign.value;
      launches := launches[id := Launch(c.id, LaunchPending, 0, EnqueuePending, 0)];
      if create == AnswerLost { return false; }
      var rows := AudienceRows(subs, c, id, timezone, shardOf);
      if build != NotSent { table := table + rows; }
      if build != Answered {
        if finish != NotSent { launches := launches[id := launches[id].(status := LaunchFailed)]; }
        return false;
      }
      var total := CountLaunch(table, id);
      CountAudience(old(table), subs, c, id, timezone, shardOf);
      if finish == NotSent { return false; }
      launches := launches[id := launches[id].(status := LaunchCompleted, audienceTotal := total)];
      created := finish == Answered;
    }

    /** ProduceDeliveryTasks: one task after the other, up to the first failure. */
    method ProduceDeliveryTasks(tasks: seq<DeliveryTask>, base: nat, f: Faults)
      returns (ok: bool, produced: nat)
      modifies this`topic
      ensures produced <= |tasks| && topic == old(topic) + tasks[..produced]
      ensures ok <==> forall i :: base <= i < base + |tasks| ==> f.produce(i) == Answered
      ensures ok ==> produced == |tasks|
      ensures !ok ==> StoppedAt(f, base, base + produced, base + |tasks|)
    {
      for i := 0 to |tasks|
        invariant topic == old(topic) + tasks[..i]
        invariant forall j :: base <= j < base + i ==> f.produce(j) == Answered
      {
        if f.produce(base + i) == NotSent { return false, i; }
        topic := topic + [tasks[i]];
        assert tasks[..i + 1] == tasks[..i] + [tasks[i]];
        if f.produce(base + i) == AnswerLost { return false, i + 1; }
      }
      assert tasks[..|tasks|] == tasks;
      return true, |tasks|;
    }

    /** The tasks of one page, or the reason why there are none. */
    method PageTasks(rows: seq<AudienceRow>, base: nat, newId: nat -> string, f: Faults)
      returns (tasks: seq<DeliveryTask>, err: Option<EnqueueError>)
      ensures err == None ==>
                |tasks| == |rows| && forall i :: 0 <= i < |rows| ==> tasks[i] == TaskOf(rows[i], newId(base + i))
      ensures err == None ==> AllNamed(rows)
      ensures err.Some? ==> err.value in {BlankSubscription, NoDeliveryId}
      ensures err == Some(BlankSubscription) ==> !AllNamed(rows)
      ensures err == Some(NoDeliveryId) ==> exists i :: base <= i < base + |rows| && f.id(i)
    {
      tasks := [];
      for i := 0 to |rows|
        invariant |tasks| == i
        invariant forall j :: 0 <= j < i ==> rows[j].subscription != "" && tasks[j] == TaskOf(rows[j], newId(base + j))
      {
        if rows[i].subscription == "" { return tasks, Some(BlankSubscription); }
        if f.id(base + i) { return tasks, Some(NoDeliveryId); }
        tasks := tasks + [TaskOf(rows[i], newId(base + i))];
      }
      err := None;
    }

    /** Produces the tasks of a page that starts at position `at` of the paged rows `s`. */
    method ProducePage(
      ghost s: seq<AudienceRow>, rows: seq<AudienceRow>, tasks: seq<DeliveryTask>, at: nat, ghost newId: nat -> string,
      f: Faults, ghost sent: seq<DeliveryTask>)
      returns (n: nat, err: Option<EnqueueError>)
      requires at + |rows| <= |s| && rows == s[at..at + |rows|] && |tasks| == |rows|
      requires forall i :: 0 <= i < |rows| ==> tasks[i] == TaskOf(rows[i], newId(at + i))
      requires topic == sent + TasksOf(s, newId)[..at]
      modifies this`topic
      ensures n <= |rows| && topic == sent + TasksOf(s, newId)[..at + n]
      ensures PageOutcome(at, |rows|, f, n, err)
      ensures err in {None, Some(ProduceFailed)}
    {
      hide TaskOf, TasksOf;
      var ok;
      ok, n := ProduceDeliveryTasks(tasks, at, f);
      PagePrefix(s, at, rows, tasks, newId, n, sent);
      err := if ok then None else Some(ProduceFailed);
    }

    /** enqueueAudience.  `produced` counts the tasks that reached the topic. */
    method EnqueueAudience(launch: string, limit: nat, before: IdOrder, newId: nat -> string, f: Faults)
      returns (enqueued: nat, err: Option<EnqueueError>, produced: nat)
      requires TotalIdOrder(before)
      modifies this`topic
      ensures var s := PagedRows(table, launch, before, limit);
              && EnqueueOutcome(s, limit, f, enqueued, err, produced)
              && topic == old(topic) + TasksOf(s, newId)[..produced]
      ensures err == Some(BlankSubscription) ==> !NamedRows(table, launch)
      ensures Quiet(f, |PagedRows(table, launch, before, limit)|) && NamedRows(table, launch) ==> err == None
    {
      hide *;
      ghost var s := PagedRows(table, launch, before, limit);
      enqueued := 0;
      var after := Cursor(0, "");
      AllLeft(table, launch, before, limit);
      while true
        invariant Left(table, launch, before, limit, s, enqueued, after) && enqueued <= |s|
        invariant topic == old(topic) + TasksOf(s, newId)[..enqueued]
        decreases |s| - enqueued
      {
        Stops(s, limit, f, enqueued);
        if f.read(enqueued) { return enqueued, Some(ReadFailed), enqueued; }
        var rows := AudienceBatch(table, launch, after, limit, before);
        NextPage(table, launch, before, limit, s, enqueued, after);
        if rows == [] { return enqueued, None, enqueued; }
        var tasks, pageErr := PageTasks(rows, enqueued, newId, f);
        if pageErr.Some? {
          if pageErr == Some(NoDeliveryId) && AllNamed(rows) { NoIdNoQuiet(s, f, enqueued, |rows|); }
          return enqueued, pageErr, enqueued;
        }
        var n, produceErr := ProducePage(s, rows, tasks, enqueued, newId, f, old(topic));
        PageStops(s, limit, f, enqueued, |rows|, n, produceErr);
        if produceErr.Some? { return enqueued, produceErr, enqueued + n; }
        enqueued := enqueued + |rows|;
        after := CursorOf(rows[|rows| - 1]);
      }
    }

    /** EnqueueCampaignLaunch.  `mark` and `finish` are what becomes of the two status updates. */
    method EnqueueCampaignLaunch(
      campaign: string, launch: string, limit: nat, before: IdOrder, newId: nat -> string, f: Faults,
      mark: Reply, finish: Reply)
      returns (r: EnqueueResult, produced: nat)
      requires TotalIdOrder(before)
      modifies this`topic, this`launches
      ensures var s := PagedRows(table, launch, before, limit);
              && produced <= |s|
              && topic == old(topic) + TasksOf(s, newId)[..produced]
              && CallOutcome(old(launches), launches, campaign, launch, s, limit, r, produced)
              && ((Enqueueable(old(launches), campaign, launch) && mark == finish == Answered &&
                   Quiet(f, |s|) && NamedRows(table, launch)) ==> r.Enqueued?)
      ensures var found := && campaign != "" && launch != "" && launch in old(launches)
                           && old(launches)[launch].campaign == campaign
                           && old(launches)[launch].status == LaunchCompleted;
              && (r.AlreadyDone? <==> found && old(launches)[launch].enqueueStatus == EnqueueCompleted)
              && (r.Rejected? <==>
                    !found || (old(launches)[launch].enqueueStatus != EnqueueCompleted && mark != Answered))
      ensures r.Rejected? && mark != AnswerLost ==> launches == old(launches)
      ensures r.StatusUnknown? <==>
                Enqueueable(old(launches), campaign, launch) && mark == Answered && finish != Answered
      ensures r.StatusUnknown? && finish == NotSent ==> launches[launch].enqueueStatus == Enqueuing
    {
      hide PagedRows, TotalIdOrder;
      produced := 0;
      if campaign == "" || launch == "" || launch !in launches || launches[launch].campaign != campaign {
        return Rejected, 0;
      }
      var l := launches[launch];
      if l.status != LaunchCompleted { return Rejected, 0; }
      if l.enqueueStatus == EnqueueCompleted { return AlreadyDone, 0; }
      if mark == NotSent { return Rejected, 0; }
      launches := launches[launch := EnqueueUpdated(l, Enqueuing, 0)];
      if mark == AnswerLost { return Rejected, 0; }
      var enqueued, err, n := EnqueueAudience(launch, limit, before, newId, f);
      produced := n;
      var status := if err.Some? then EnqueueFailed else EnqueueCompleted;
      if finish != NotSent { launches := launches[launch := EnqueueUpdated(l, status, enqueued)]; }
      if finish != Answered { return StatusUnknown, produced; }
      r := if err.Some? then Failed(enqueued) else Enqueued(enqueued);
    }
  }

  lemma CountAudience(
    table: seq<AudienceRow>, subs: seq<Subscriber>, c: Campaign, launch: string, timezone: string,
    shardOf: string -> nat)
    requires forall r :: r in table ==> r.launch != launch
    ensures var rows := AudienceRows(subs, c, launch, timezone, shardOf);
            CountLaunch(table + rows, launch) == |rows|
  {
    CountNewLaunch(table, AudienceRows(subs, c, launch, timezone, shardOf), launch);
  }

  /** countAudienceLaunch. */
  function CountLaunch(table: seq<AudienceRow>, launch: string): nat {
    |Filter(table, (r: AudienceRow) => r.launch == launch)|
  }

  lemma {:induction false} CountNewLaunch(table: seq<AudienceRow>, rows: seq<AudienceRow>, launch: string)
    requires forall r :: r in table ==> r.launch != launch
    requires forall i :: 0 <= i < |rows| ==> rows[i].launch == launch
    ensures CountLaunch(table + rows, launch) == |rows|
    ensures Filter(table + rows, (r: AudienceRow) => r.launch == launch) == rows
    decreases |table| + |rows|
  {
    if rows != [] {
      CountNewLaunch(table, rows[..|rows| - 1], launch);
      assert (table + rows)[..|table + rows| - 1] == table + rows[..|rows| - 1];
    } else {
      assert table + rows == table;
      if table != [] {
        assert forall r :: r in table[..|table| - 1] ==> r in table;
        assert table[..|table| - 1] + rows == table[..|table| - 1];
        CountNewLaunch(table[..|table| - 1], [], launch);
      }
    }
  }

  // ----- the audience of a launch -----

  /** A row of the inner query: the latest attributes per source and subscription. */
  datatype Subscriber = Subscriber(
    source: string,
    subscription: string,
    endpoint: string,
    p256dh: string,
    auth: string,
    timezone: string,
    attributes: Targeting.Snapshot)

  datatype Campaign = Campaign(id: string, active: bool, allSources: bool, sources: seq<string>, rules: Targeting.Rules)

  /** campaignAudienceSelect: who is in the audience of a campaign, for one timezone or for all. */
  function Reachable(c: Campaign, timezone: string): Subscriber -> bool {
    (s: Subscriber) =>
      && (c.allSources || Targeting.NormalizedValues(c.sources) == [] ||
          s.source in Targeting.NormalizedValues(c.sources))
      && s.endpoint != "" && s.p256dh != "" && s.auth != ""
      && (Text.Trim(timezone) == "" || s.timezone == Text.Trim(timezone))
      && Targeting.InAudience(s.attributes, c.rules)
  }

  function RowFor(s: Subscriber, launch: string, campaign: string, shardOf: string -> nat): AudienceRow {
    AudienceRow(launch, campaign, s.source, s.subscription, s.endpoint, s.p256dh, s.auth, shardOf(s.subscription))
  }

  function AudienceRows(
    subs: seq<Subscriber>, c: Campaign, launch: string, timezone: string, shardOf: string -> nat):
    (rows: seq<AudienceRow>)
    ensures |rows| == |Filter(subs, Reachable(c, timezone))|
  {
    var chosen := Filter(subs, Reachable(c, timezone));
    seq(|chosen|, i requires 0 <= i < |chosen| => RowFor(chosen[i], launch, c.id, shardOf))
  }

  /** One row per subscription: nobody is subscribed through two sources. */
  ghost predicate OneRowEach(subs: seq<Subscriber>) {
    forall i, j :: 0 <= i < j < |subs| ==> subs[i].subscription != subs[j].subscription
  }

  lemma {:induction false} FilterOneRowEach(subs: seq<Subscriber>, keep: Subscriber -> bool)
    requires OneRowEach(subs)
    ensures OneRowEach(Filter(subs, keep))
  {
    if subs == [] {
    } else {
      var front, last := subs[..|subs| - 1], subs[|subs| - 1];
      FilterOneRowEach(front, keep);
      FilterMembers(front, keep);
      var f := Filter(front, keep);
      forall i | 0 <= i < |f| ensures f[i].subscription != last.subscription {
        assert f[i] in f;
        NotLast(subs, f[i]);
      }
    }
  }

  lemma NotLast(subs: seq<Subscriber>, s: Subscriber)
    requires OneRowEach(subs) && subs != [] && s in subs[..|subs| - 1]
    ensures s.subscription != subs[|subs| - 1].subscription
  {
    var j :| 0 <= j < |subs| - 1 && subs[j] == s;
  }

  /** The campaign is for this source: it is for all, or the source is among those it names. */
  ghost predicate ForSource(c: Campaign, source: string) {
    || c.allSources
    || (forall v :: v in c.sources ==> Text.Normal(v) == "")
    || (source != "" && exists v :: v in c.sources && Text.Normal(v) == source)
  }

  /** Everything that makes a subscriber part of the audience, but for the targeting rules. */
  ghost predicate Addressed(c: Campaign, timezone: string, s: Subscriber) {
    && ForSource(c, s.source) && s.endpoint != "" && s.p256dh != "" && s.auth != ""
    && (Text.Trim(timezone) == "" || Text.Trim(timezone) == s.timezone)
  }

  ghost predicate Carries(r: AudienceRow, s: Subscriber, launch: string, campaign: string, shard: nat) {
    && r.launch == launch && r.campaign == campaign && r.shard == shard
    && r.source == s.source && r.subscription == s.subscription
    && r.endpoint == s.endpoint && r.p256dh == s.p256dh && r.auth == s.auth
  }

  /** The row is that of a subscriber in the audience. */
  ghost predicate ComesFrom(
    r: AudienceRow, subs: seq<Subscriber>, c: Campaign, launch: string, timezone: string, shardOf: string -> nat)
  {
    exists s :: s in subs && Addressed(c, timezone, s) && Targeting.InAudience(s.attributes, c.rules) &&
                Carries(r, s, launch, c.id, shardOf(s.subscription))
  }

  lemma ReachableMeaning(c: Campaign, timezone: string, s: Subscriber)
    ensures Reachable(c, timezone)(s) <==> Addressed(c, timezone, s) && Targeting.InAudience(s.attributes, c.rules)
  {
    hide Targeting.NormalizedValues, Targeting.InAudience, Text.Normal, Text.Trim;
    var values := Targeting.NormalizedValues(c.sources);
    Targeting.NormalizationMeaning(c.sources);
    assert values == [] <==> forall v :: v in c.sources ==> Text.Normal(v) == "" by {
      if values != [] {
        assert values[0] in values;
        var i :| 0 <= i < |c.sources| && Text.Normal(c.sources[i]) == values[0];
        assert c.sources[i] in c.sources;
      }
    }
    if v :| v in c.sources && Text.Normal(v) == s.source && s.source != "" {
      var i :| 0 <= i < |c.sources| && c.sources[i] == v;
      assert Text.Normal(c.sources[i]) in values;
    }
    if s.source in values {
      var i :| 0 <= i < |c.sources| && Text.Normal(c.sources[i]) == s.source;
      assert c.sources[i] in c.sources;
    }
  }

  /** The audience rows of a launch: a subscriber has one if and only if the campaign is addressed to it
      and its attributes satisfy the compiled targeting rules; the row carries what it subscribed with,
      under a key of its own. */
  lemma AudienceMeaning(subs: seq<Subscriber>, c: Campaign, launch: string, timezone: string, shardOf: string -> nat)
    requires OneRowEach(subs)
    ensures var rows := AudienceRows(subs, c, launch, timezone, shardOf);
            && DistinctKeys(rows, launch)
            && (forall i, j :: 0 <= i < j < |rows| ==> rows[i].subscription != rows[j].subscription)
            && (forall i :: 0 <= i < |rows| ==>
                  rows[i].launch == launch && ComesFrom(rows[i], subs, c, launch, timezone, shardOf))
            && (forall s :: s in subs ==>
                  ((exists i :: 0 <= i < |rows| && rows[i].subscription == s.subscription) <==>
                   Addressed(c, timezone, s) && Targeting.InAudience(s.attributes, c.rules)))
  {
    hide Reachable, Addressed, Targeting.InAudience, Carries, AudienceRows, DistinctKeys, OneRowEach;
    var rows := AudienceRows(subs, c, launch, timezone, shardOf);
    RowsApart(subs, c, launch, timezone, shardOf);
    forall i | 0 <= i < |rows|
      ensures rows[i].launch == launch && ComesFrom(rows[i], subs, c, launch, timezone, shardOf)
    {
      var s := RowOrigin(subs, c, launch, timezone, shardOf, i);
      ReachableMeaning(c, timezone, s);
    }
    forall s | s in subs
      ensures (exists i :: 0 <= i < |rows| && rows[i].subscription == s.subscription) <==>
              Addressed(c, timezone, s) && Targeting.InAudience(s.attributes, c.rules)
    {
      ReachableMeaning(c, timezone, s);
      HasRow(subs, c, launch, timezone, shardOf, s);
    }
  }

  lemma RowsApart(subs: seq<Subscriber>, c: Campaign, launch: string, timezone: string, shardOf: string -> nat)
    requires OneRowEach(subs)
    ensures var rows := AudienceRows(subs, c, launch, timezone, shardOf);
            && DistinctKeys(rows, launch)
            && forall i, j :: 0 <= i < j < |rows| ==> rows[i].subscription != rows[j].subscription
  {
    hide Reachable, Filter;
    FilterOneRowEach(subs, Reachable(c, timezone));
  }

  lemma RowOrigin(
    subs: seq<Subscriber>, c: Campaign, launch: string, timezone: string, shardOf: string -> nat, i: nat)
    returns (s: Subscriber)
    requires i < |AudienceRows(subs, c, launch, timezone, shardOf)|
    ensures s in subs && Reachable(c, timezone)(s)
    ensures var r := AudienceRows(subs, c, launch, timezone, shardOf)[i];
            r.launch == launch && Carries(r, s, launch, c.id, shardOf(s.subscription))
  {
    hide Reachable, Filter;
    var chosen := Filter(subs, Reachable(c, timezone));
    FilterMembers(subs, Reachable(c, timezone));
    s := chosen[i];
    assert chosen[i] in chosen;
  }

  lemma HasRow(
    subs: seq<Subscriber>, c: Campaign, launch: string, timezone: string, shardOf: string -> nat, s: Subscriber)
    requires OneRowEach(subs) && s in subs
    ensures var rows := AudienceRows(subs, c, launch, timezone, shardOf);
            (exists i :: 0 <= i < |rows| && rows[i].subscription == s.subscription) <==> Reachable(c, timezone)(s)
  {
    hide Reachable, Filter;
    var keep := Reachable(c, timezone);
    var chosen := Filter(subs, keep);
    var rows := AudienceRows(subs, c, launch, timezone, shardOf);
    FilterMembers(subs, keep);
    if keep(s) {
      var i :| 0 <= i < |chosen| && chosen[i] == s;
      assert rows[i].subscription == s.subscription;
    }
    if i :| 0 <= i < |rows| && rows[i].subscription == s.subscription {
      assert chosen[i] in chosen;
      SameSubscriber(subs, chosen[i], s);
    }
  }

  lemma SameSubscriber(subs: seq<Subscriber>, s: Subscriber, t: Subscriber)
    requires OneRowEach(subs) && s in subs && t in subs && s.subscription == t.subscription
    ensures s == t
  {
    var i :| 0 <= i < |subs| && subs[i] == s;
    var j :| 0 <= j < |subs| && subs[j] == t;
  }

  // ----- launches -----

  datatype LaunchStatus = LaunchPending | LaunchCompleted | LaunchFailed

  datatype EnqueueStatus = EnqueuePending | Enqueuing | EnqueueCompleted | EnqueueFailed

  datatype Launch = Launch(
    campaign: string,
    status: LaunchStatus,
    audienceTotal: nat,
    enqueueStatus: EnqueueStatus,
    enqueuedTotal: nat)

  datatype EnqueueResult =
    | Rejected
    | AlreadyDone
    | Enqueued(total: nat)
    | Failed(total: nat)
    | StatusUnknown

  /** The launch exists for the campaign, its audience is complete and it is not enqueued yet. */
  predicate Enqueueable(launches: map<string, Launch>, campaign: string, launch: string) {
    && campaign != "" && launch != "" && launch in launches
    && launches[launch].campaign == campaign
    && launches[launch].status == LaunchCompleted
    && launches[launch].enqueueStatus != EnqueueCompleted
  }

  /** UpdateCampaignLaunchEnqueue. */
  function EnqueueUpdated(l: Launch, status: EnqueueStatus, total: nat): Launch {
    l.(enqueueStatus := status, enqueuedTotal := total)
  }

  /** The launch records after an enqueue call, per result.  A completed record always means that
      every row was produced, whether or not the caller heard of it. */
  ghost predicate CallOutcome(
    earlier: map<string, Launch>, later: map<string, Launch>, campaign: string, launch: string,
    s: seq<AudienceRow>, limit: nat, r: EnqueueResult, produced: nat)
  {
    match r
    case Rejected =>
      && produced == 0
      && (later == earlier ||
          (Enqueueable(earlier, campaign, launch) &&
           later == earlier[launch := EnqueueUpdated(earlier[launch], Enqueuing, 0)]))
    case AlreadyDone => later == earlier && produced == 0
    case Enqueued(total) =>
      && Enqueueable(earlier, campaign, launch) && total == produced == |s|
      && later == earlier[launch := EnqueueUpdated(earlier[launch], EnqueueCompleted, |s|)]
    case Failed(total) =>
      && Enqueueable(earlier, campaign, launch) && total <= produced <= total + limit
      && later == earlier[launch := EnqueueUpdated(earlier[launch], EnqueueFailed, total)]
    case StatusUnknown =>
      && Enqueueable(earlier, campaign, launch) && launch in later
      && later == earlier[launch := later[launch]]
      && var status, total := later[launch].enqueueStatus, later[launch].enqueuedTotal;
         && later[launch] == EnqueueUpdated(earlier[launch], status, total)
         && ((status == Enqueuing && total == 0) ||
             (status == EnqueueFailed && total <= produced <= total + limit) ||
             (status == EnqueueCompleted && total == produced == |s|))
  }

  /** Every row of the launch has exactly one task among the tasks of its snapshot, and every
      task comes from a row. */
  lemma EachRowOnce(table: seq<AudienceRow>, launch: string, before: IdOrder, newId: nat -> string)
    requires TotalIdOrder(before) && DistinctKeys(table, launch)
    ensures var s := Snapshot(table, launch, before);
            var tasks := TasksOf(s, newId);
            && (forall r :: r in table && r.launch == launch ==>
                  exists i :: 0 <= i < |tasks| && tasks[i] == TaskOf(r, newId(i)))
            && (forall i :: 0 <= i < |tasks| ==> s[i] in table && tasks[i] == TaskOf(s[i], newId(i)))
            && (forall i, j :: 0 <= i < j < |tasks| ==>
                  tasks[i].shard < tasks[j].shard ||
                  (tasks[i].shard == tasks[j].shard && before(tasks[i].subscription, tasks[j].subscription)))
  {
    hide Snapshot, TotalIdOrder, DistinctKeys, Filter, Sort, TasksOf;
    SnapshotMeaning(table, launch, before);
    var s := Snapshot(table, launch, before);
    var tasks := TasksOf(s, newId);
    forall i | 0 <= i < |tasks| ensures s[i] in table { assert s[i] in s; }
    forall r | r in table && r.launch == launch
      ensures exists i :: 0 <= i < |tasks| && tasks[i] == TaskOf(r, newId(i))
    {
      var i :| 0 <= i < |s| && s[i] == r;
      assert tasks[i] == TaskOf(r, newId(i));
    }
    forall i, j | 0 <= i < j < |tasks|
      ensures tasks[i].shard < tasks[j].shard ||
              (tasks[i].shard == tasks[j].shard && before(tasks[i].subscription, tasks[j].subscription))
    {
      assert RowOrder(before)(s[i], s[j]);
      assert tasks[i] == TaskOf(s[i], newId(i)) && tasks[j] == TaskOf(s[j], newId(j));
    }
  }
}
