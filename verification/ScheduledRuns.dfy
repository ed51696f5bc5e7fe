/** A scheduled run from its insert to its end: the launch and the enqueue call behind the `RunFate`
    that Schedule works with (packages/go/inventory/service.go:985-1064, 1131-1270). */
module ScheduledRuns {
  import opened Enqueue
  import opened Paging
  import opened Schedule
  import opened Sorting
  import Targeting
  import opened Wrappers

  /** What becomes of the writes: the launch, its audience and its completion, the marks around the
      enqueue, and the completion of the run. */
  datatype Writes = Writes(create: Reply, build: Reply, finish: Reply, mark: Reply, enqueued: Reply, stored: Reply)

  /** Every row of the launch is on the topic, in order. */
  ghost predicate AllProduced(
    was: seq<DeliveryTask>, topic: seq<DeliveryTask>, table: seq<AudienceRow>, launch: string, before: IdOrder,
    limit: nat, newId: nat -> string)
    requires TotalIdOrder(before)
  {
    topic == was + TasksOf(PagedRows(table, launch, before, limit), newId)
  }

  /** processScheduleRun for a run that was just inserted; `id` is the launch id that is drawn. */
  method ProcessScheduleRun(
    scheduler: Scheduler, inventory: Launches, k: RunKey, campaign: Option<Campaign>, id: string,
    subs: seq<Subscriber>, shardOf: string -> nat, limit: nat, before: IdOrder, newId: nat -> string, f: Faults,
    w: Writes)
    returns (ok: bool, ghost fate: RunFate)
    requires scheduler.Valid() && k in scheduler.runs && scheduler.runs[k] == RunPending
    requires k !in scheduler.completions
    requires id !in inventory.launches && forall r :: r in inventory.table ==> r.launch != id
    requires TotalIdOrder(before)
    modifies scheduler, inventory
    ensures scheduler.Valid()
    ensures ok <==> Succeeds(fate)
    ensures scheduler.runs == old(scheduler.runs)[k := StatusOf(fate)] && fate.stored == w.stored
    ensures fate.launched <==>
              campaign.Some? && campaign.value.active && w.create == w.build == w.finish == Answered
    ensures fate.launched ==>
              && inventory.table ==
                 old(inventory.table) + AudienceRows(subs, campaign.value, id, k.timezone, shardOf)
              && id in inventory.launches && inventory.launches[id].status == LaunchCompleted
              && inventory.launches[id].audienceTotal ==
                 |AudienceRows(subs, campaign.value, id, k.timezone, shardOf)|
    ensures fate.enqueued ==>
              && fate.launched
              && AllProduced(old(inventory.topic), inventory.topic, inventory.table, id, before, limit, newId)
              && inventory.launches[id].enqueueStatus == EnqueueCompleted
              && inventory.launches[id].enqueuedTotal == |PagedRows(inventory.table, id, before, limit)|
    ensures !fate.launched ==> inventory.topic == old(inventory.topic)
    ensures exists n: nat :: n <= |PagedRows(inventory.table, id, before, limit)| &&
              inventory.topic ==
              old(inventory.topic) + TasksOf(PagedRows(inventory.table, id, before, limit), newId)[..n]
  {
    hide AudienceRows, PagedRows, TotalIdOrder, TasksOf, Quiet, NamedRows;
    ghost var topic := inventory.topic;
    var launched := inventory.CreateCampaignLaunch(
      campaign, id, k.timezone, subs, shardOf, w.create, w.build, w.finish);
    ghost var rows := PagedRows(inventory.table, id, before, limit);
    assert topic == topic + TasksOf(rows, newId)[..0];
    if !launched {
      fate := RunFate(false, false, w.stored);
      ok := scheduler.ProcessScheduleRun(k, RunFate(false, false, w.stored));
      return ok, fate;
    }
    var result, produced := inventory.EnqueueCampaignLaunch(
      campaign.value.id, id, limit, before, newId, f, w.mark, w.enqueued);
    var enqueued := result.Enqueued? || result.AlreadyDone?;
    assert enqueued ==> result.Enqueued? && produced == |rows|;
    assert TasksOf(rows, newId)[..|rows|] == TasksOf(rows, newId);
    fate := RunFate(true, enqueued, w.stored);
    ok := scheduler.ProcessScheduleRun(k, RunFate(true, enqueued, w.stored));
  }

  /** The rows that a completed run has produced are those of the subscribers its campaign reaches in
      its timezone, each once. */
  lemma AudienceOnce(
    table: seq<AudienceRow>, subs: seq<Subscriber>, c: Campaign, launch: string, timezone: string,
    shardOf: string -> nat, before: IdOrder, limit: nat)
    requires TotalIdOrder(before) && limit >= 1 && OneRowEach(subs)
    requires forall s :: s in subs ==> s.subscription != ""
    requires forall r :: r in table ==> r.launch != launch
    ensures var rows := AudienceRows(subs, c, launch, timezone, shardOf);
            multiset(PagedRows(table + rows, launch, before, limit)) == multiset(rows)
  {
    hide AudienceRows, Addressed, Targeting.InAudience, TotalIdOrder, PagedRows, Filter, Sort;
    var rows := AudienceRows(subs, c, launch, timezone, shardOf);
    AudienceMeaning(subs, c, launch, timezone, shardOf);
    PagedIsSnapshot(table + rows, launch, before, limit);
    CountNewLaunch(table, rows, launch);
    SortPermutes(rows, RowOrder(before));
  }

  /** The task is that of the subscriber, with what it subscribed with, at its first attempt. */
  ghost predicate TaskFor(t: DeliveryTask, s: Subscriber, launch: string, campaign: string, delivery: string) {
    && t.delivery == delivery && t.launch == launch && t.campaign == campaign && t.attempt == 0
    && t.source == s.source && t.subscription == s.subscription
    && t.endpoint == s.endpoint && t.p256dh == s.p256dh && t.auth == s.auth
  }

  ghost predicate Reached(t: DeliveryTask, subs: seq<Subscriber>, launch: string, campaign: string, delivery: string) {
    exists s :: s in subs && TaskFor(t, s, launch, campaign, delivery)
  }

  /** Its attributes are trimmed, and no white space stands before the first dash of its language. */
  ghost predicate CleanSubscriber(s: Subscriber) {
    Targeting.TrimmedSnapshot(s.attributes) && Targeting.CleanLanguage(s.attributes.language)
  }

  /** The rows of a new launch, as they are paged. */
  function LaunchRows(
    table: seq<AudienceRow>, subs: seq<Subscriber>, c: Campaign, launch: string, timezone: string,
    shardOf: string -> nat, before: IdOrder): seq<AudienceRow>
  {
    Snapshot(table + AudienceRows(subs, c, launch, timezone, shardOf), launch, before)
  }

  lemma LaunchRowsMeaning(
    table: seq<AudienceRow>, subs: seq<Subscriber>, c: Campaign, launch: string, timezone: string,
    shardOf: string -> nat, before: IdOrder, r: AudienceRow)
    requires TotalIdOrder(before) && OneRowEach(subs) && forall r :: r in table ==> r.launch != launch
    ensures r in LaunchRows(table, subs, c, launch, timezone, shardOf, before) <==>
            r in AudienceRows(subs, c, launch, timezone, shardOf)
  {
    hide AudienceRows, ComesFrom, Addressed, Targeting.InAudience, TotalIdOrder, Filter, Sort;
    var rows := AudienceRows(subs, c, launch, timezone, shardOf);
    AudienceMeaning(subs, c, launch, timezone, shardOf);
    CountNewLaunch(table, rows, launch);
    SortPermutes(rows, RowOrder(before));
    assert r in Sort(rows, RowOrder(before)) <==> r in multiset(Sort(rows, RowOrder(before)));
  }

  /** A launch in which every language variant is listed with its base: the tasks of its rows go to the
      subscribers that the campaign is addressed to and that payload decisioning accepts for its
      rules, and carry what those subscribed with. */
  lemma TasksMatchRules(
    table: seq<AudienceRow>, subs: seq<Subscriber>, c: Campaign, launch: string, timezone: string,
    shardOf: string -> nat, before: IdOrder, newId: nat -> string)
    requires TotalIdOrder(before) && OneRowEach(subs) && forall r :: r in table ==> r.launch != launch
    requires Targeting.NormalRules(c.rules) && Targeting.BasesListed(c.rules.languages)
    requires forall s :: s in subs ==> CleanSubscriber(s)
    ensures var tasks := TasksOf(LaunchRows(table, subs, c, launch, timezone, shardOf, before), newId);
            && (forall i :: 0 <= i < |tasks| ==> Reached(tasks[i], subs, launch, c.id, newId(i)))
            && (forall s :: s in subs ==>
                  ((exists i :: 0 <= i < |tasks| && tasks[i].subscription == s.subscription) <==>
                   Addressed(c, timezone, s) && Targeting.MatchesTargeting(s.attributes, c.rules)))
  {
    hide AudienceRows, LaunchRows, ComesFrom, Addressed, Carries, TasksOf, TotalIdOrder, OneRowEach;
    hide Targeting.InAudience, Targeting.MatchesTargeting, Targeting.NormalRules, Targeting.BasesListed;
    var rows, paged := AudienceRows(subs, c, launch, timezone, shardOf),
                       LaunchRows(table, subs, c, launch, timezone, shardOf, before);
    var tasks := TasksOf(paged, newId);
    AudienceMeaning(subs, c, launch, timezone, shardOf);
    forall i | 0 <= i < |tasks| ensures Reached(tasks[i], subs, launch, c.id, newId(i)) {
      assert paged[i] in paged;
      LaunchRowsMeaning(table, subs, c, launch, timezone, shardOf, before, paged[i]);
      TaskReaches(paged[i], subs, c, launch, timezone, shardOf, newId(i));
    }
    forall s | s in subs
      ensures (exists i :: 0 <= i < |tasks| && tasks[i].subscription == s.subscription) <==>
              Addressed(c, timezone, s) && Targeting.MatchesTargeting(s.attributes, c.rules)
    {
      Targeting.MatchEqualsAudience(s.attributes, c.rules);
      if i :| 0 <= i < |rows| && rows[i].subscription == s.subscription {
        assert rows[i] in rows;
        LaunchRowsMeaning(table, subs, c, launch, timezone, shardOf, before, rows[i]);
        var j :| 0 <= j < |paged| && paged[j] == rows[i];
        assert tasks[j].subscription == s.subscription;
      }
      if j :| 0 <= j < |tasks| && tasks[j].subscription == s.subscription {
        assert paged[j] in paged;
        LaunchRowsMeaning(table, subs, c, launch, timezone, shardOf, before, paged[j]);
        var i :| 0 <= i < |rows| && rows[i] == paged[j];
      }
    }
  }

  lemma TaskReaches(
    r: AudienceRow, subs: seq<Subscriber>, c: Campaign, launch: string, timezone: string, shardOf: string -> nat,
    delivery: string)
    requires ComesFrom(r, subs, c, launch, timezone, shardOf)
    ensures Reached(TaskOf(r, delivery), subs, launch, c.id, delivery)
  {
    hide Addressed, Targeting.InAudience;
    var s :| s in subs && Addressed(c, timezone, s) && Targeting.InAudience(s.attributes, c.rules) &&
             Carries(r, s, launch, c.id, shardOf(s.subscription));
    assert TaskFor(TaskOf(r, delivery), s, launch, c.id, delivery);
  }
}
