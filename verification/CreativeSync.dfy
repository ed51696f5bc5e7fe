/** Syncing the creatives of a provider: packages/go/inventory/service.go:1355-1508 over
    packages/go/inventory/postgres_repository.go:1380-1530.  Timestamps are not modelled. */
module CreativeSync {
  import opened Wrappers
  import Text

  datatype ProviderCreative = ProviderCreative(
    externalId: string,
    title: string,
    body: string,
    url: string,
    icon: string,
    status: string,
    dailyCap: int,
    totalCap: int,
    payload: string)

  /** The unique key of provider creatives. */
  datatype Ident = Ident(campaign: string, provider: string, externalId: string)

  datatype SyncStatus = Synced | Invalid | Stale

  /** A stored creative: which config owns it, what it shows, and whether the last feed had it. */
  datatype Stored = Stored(config: string, content: ProviderCreative, sync: SyncStatus)

  type Table = map<Ident, Stored>

  datatype Config = Config(id: string, campaign: string, provider: string, active: bool)

  /** normalizeProviderCreative. */
  function Normalized(c: ProviderCreative): (r: Option<ProviderCreative>)
    ensures r.Some? ==> r.value.externalId == Text.Trim(c.externalId) != ""
  {
    var n := ProviderCreative(
      Text.Trim(c.externalId), Text.Trim(c.title), Text.Trim(c.body), Text.Trim(c.url), Text.Trim(c.icon),
      if Text.Trim(c.status) == "" then "active" else Text.Trim(c.status), c.dailyCap, c.totalCap,
      if c.payload == "" then "{}" else c.payload);
    if n.externalId == "" || n.title == "" || n.body == "" || n.url == ""
       || n.status !in {"active", "paused", "archived"} || n.dailyCap < 0 || n.totalCap < 0
    then None else Some(n)
  }

  predicate Valid(c: ProviderCreative) {
    && c.externalId != "" && c.title != "" && c.body != "" && c.url != ""
    && (c.status == "active" || c.status == "paused" || c.status == "archived")
    && c.dailyCap >= 0 && c.totalCap >= 0
  }

  /** An entry of a feed is taken with its texts trimmed and its defaults filled in, if it is valid
      then, and not at all if it is not; taking it again changes nothing. */
  lemma NormalizedMeaning(c: ProviderCreative)
    ensures var n := c.(externalId := Text.Trim(c.externalId), title := Text.Trim(c.title), body := Text.Trim(c.body),
                        url := Text.Trim(c.url), icon := Text.Trim(c.icon),
                        status := if Text.Trim(c.status) != "" then Text.Trim(c.status) else "active",
                        payload := if c.payload != "" then c.payload else "{}");
            && Normalized(c) == (if Valid(n) then Some(n) else None)
            && (Valid(n) ==> Normalized(n) == Some(n))
  {
    hide Text.Trim;
    Text.TrimTrims(c.externalId);
    Text.TrimTrims(c.title);
    Text.TrimTrims(c.body);
    Text.TrimTrims(c.url);
    Text.TrimTrims(c.icon);
    Text.TrimTrims(c.status);
    Text.TrimTrims(Text.Trim(c.externalId));
    Text.TrimTrims(Text.Trim(c.title));
    Text.TrimTrims(Text.Trim(c.body));
    Text.TrimTrims(Text.Trim(c.url));
    Text.TrimTrims(Text.Trim(c.icon));
    Text.TrimTrims(Text.Trim(c.status));
    Text.TrimTrims("active");
  }

  function IdentOf(config: Config, externalId: string): Ident {
    Ident(config.campaign, config.provider, externalId)
  }

  /** UpsertProviderCreative: the conflict clause also takes over the owning config. */
  function Upsert(t: Table, config: Config, c: ProviderCreative): Table {
    t[IdentOf(config, c.externalId) := Stored(config.id, c, Synced)]
  }

  /** MarkMissingProviderCreativesStale. */
  function MarkStale(t: Table, config: string, externalIds: seq<string>): Table {
    map i | i in t ::
      if t[i].config == config && i.externalId !in externalIds then t[i].(sync := Stale) else t[i]
  }

  function Upserts(t: Table, config: Config, feed: seq<ProviderCreative>): Table {
    if feed == [] then t else Upsert(Upserts(t, config, feed[..|feed| - 1]), config, feed[|feed| - 1])
  }

  function ExternalIds(feed: seq<ProviderCreative>): seq<string> {
    seq(|feed|, i requires 0 <= i < |feed| => feed[i].externalId)
  }

  /** The table after a completed sync of a normalised feed. */
  function AfterSync(t: Table, config: Config, feed: seq<ProviderCreative>): Table {
    MarkStale(Upserts(t, config, feed), config.id, ExternalIds(feed))
  }

  // ----- the service -----

  datatype Lock = Locked | Busy | LockUnknown

  /** What the stores and the provider answer in one sync; the feed is None when fetching fails. */
  datatype Env = Env(
    config: Option<Config>,
    lock: Lock,
    createLog: bool,
    feed: Option<seq<ProviderCreative>>,
    upsert: nat -> Reply,
    stale: Reply,
    completeLog: bool)

  datatype Outcome = Rejected | NoLog | Completed(fetched: nat, upserted: nat) | Failed(fetched: nat, upserted: nat)

  class Syncer {
    var table: Table
    /** Syncs that hold the lock of their config, and attempts to give it back. */
    var acquired: nat
    var released: nat
    /** The sync logs that were completed, in order. */
    var logs: seq<Outcome>

    constructor ()
      ensures table == map[] && acquired == released == 0 && logs == []
    {
      table, acquired, released, logs := map[], 0, 0, [];
    }

    /** SyncCreativeProviderConfig.  `feed` is the normalised feed as far as it was read. */
    method Sync(env: Env) returns (r: Outcome, ghost feed: seq<ProviderCreative>)
      modifies this
      ensures released - old(released) == acquired - old(acquired)
      ensures acquired ==
              old(acquired) + if env.config.Some? && env.config.value.active && env.lock == Locked then 1 else 0
      ensures r.Completed? <==> Healthy(env)
      ensures r.Completed? ==> CompletedSync(old(table), table, env, r, feed)
      ensures r.Completed? || r.Failed? ==> logs == old(logs) + if env.completeLog then [r] else []
      ensures r.Rejected? || r.NoLog? ==> table == old(table) && logs == old(logs)
      ensures r.Failed? ==> FailedSync(old(table), table, env, r, feed)
    {
      hide Normalized;
      feed := [];
      if env.config.None? || !env.config.value.active || env.lock != Locked { return Rejected, feed; }
      acquired := acquired + 1;
      if !env.createLog {
        released := released + 1;
        return NoLog, feed;
      }
      r, feed := SyncLocked(env.config.value, env);
      if env.completeLog { logs := logs + [r]; }
      released := released + 1;
    }

    /** The part between fetching the feed and completing the log. */
    method SyncLocked(config: Config, env: Env) returns (r: Outcome, ghost feed: seq<ProviderCreative>)
      requires env.config == Some(config)
      modifies this`table
      ensures r.Completed? || r.Failed?
      ensures r.Completed? <==> GoesThrough(env)
      ensures r.Completed? ==> CompletedSync(old(table), table, env, r, feed)
      ensures r.Failed? ==> FailedSync(old(table), table, env, r, feed)
    {
      hide Normalized, Normalizes, Upserts, Upsert, MarkStale, AfterSync, ExternalIds, CompletedSync, FailedSync;
      feed := [];
      ghost var before := table;
      NothingUpserted(table, config, env);
      if env.feed.None? { return Failed(0, 0), feed; }
      var fetched := env.feed.value;
      var externalIds: seq<string> := [];
      for i := 0 to |fetched|
        invariant |feed| == i && Normalizes(fetched[..i], feed)
        invariant externalIds == ExternalIds(feed) && table == Upserts(before, config, feed)
        invariant forall j :: 0 <= j < i ==> Normalized(fetched[j]).Some? && env.upsert(j) == Answered
      {
        Stopped(before, config, env, feed, i);
        var normalized := Normalized(fetched[i]);
        if normalized.None? { return Failed(|fetched|, i), feed; }
        externalIds := externalIds + [normalized.value.externalId];
        ghost var longer := feed + [normalized.value];
        NormalizesMore(fetched, feed, i, normalized.value);
        UpsertsMore(before, config, feed, normalized.value);
        if env.upsert(i) == NotSent { return Failed(|fetched|, i), feed; }
        table := Upsert(table, config, normalized.value);
        Stopped(before, config, env, longer, i);
        if env.upsert(i) == AnswerLost { return Failed(|fetched|, i), longer; }
        feed := longer;
      }
      assert fetched[..|fetched|] == fetched;
      Stopped(before, config, env, feed, |fetched|);
      if env.stale == NotSent { return Failed(|fetched|, |fetched|), feed; }
      table := MarkStale(table, config.id, externalIds);
      Finished(before, config, env, feed);
      if env.stale == AnswerLost { return Failed(|fetched|, |fetched|), feed; }
      r := Completed(|fetched|, |fetched|);
    }
  }

  /** A sync that stops at entry `i`, with the upsert of that entry done or not. */
  lemma Stopped(before: Table, config: Config, env: Env, feed: seq<ProviderCreative>, i: nat)
    requires env.config == Some(config) && env.feed.Some? && i <= |feed| <= i + 1 && |feed| <= |env.feed.value|
    requires Normalizes(env.feed.value[..|feed|], feed)
    ensures FailedSync(before, Upserts(before, config, feed), env, Failed(|env.feed.value|, i), feed)
  {
    hide Normalizes, Upserts;
  }

  lemma Finished(before: Table, config: Config, env: Env, feed: seq<ProviderCreative>)
    requires env.config == Some(config) && env.feed.Some? && |feed| == |env.feed.value|
    requires Normalizes(env.feed.value, feed)
    ensures var after := MarkStale(Upserts(before, config, feed), config.id, ExternalIds(feed));
            && (env.stale == AnswerLost ==> FailedSync(before, after, env, Failed(|feed|, |feed|), feed))
            && CompletedSync(before, after, env, Completed(|feed|, |feed|), feed)
  {
    hide Normalizes, Upserts, MarkStale, ExternalIds;
    assert env.feed.value[..|feed|] == env.feed.value;
  }

  lemma NothingUpserted(t: Table, config: Config, env: Env)
    requires env.config == Some(config)
    ensures Upserts(t, config, []) == t && ExternalIds([]) == []
    ensures Normalizes([], [])
    ensures env.feed.None? ==> FailedSync(t, t, env, Failed(0, 0), [])
  {}

  lemma NormalizesMore(fetched: seq<ProviderCreative>, feed: seq<ProviderCreative>, i: nat, c: ProviderCreative)
    requires i < |fetched| && |feed| == i && Normalizes(fetched[..i], feed) && Normalized(fetched[i]) == Some(c)
    ensures Normalizes(fetched[..i + 1], feed + [c])
  {
    hide Normalized;
    forall j | 0 <= j < i ensures Normalized(fetched[..i + 1][j]) == Some((feed + [c])[j]) {
      assert Normalized(fetched[..i][j]) == Some(feed[j]);
    }
  }

  lemma UpsertsMore(t: Table, config: Config, feed: seq<ProviderCreative>, c: ProviderCreative)
    ensures Upserts(t, config, feed + [c]) == Upsert(Upserts(t, config, feed), config, c)
    ensures ExternalIds(feed + [c]) == ExternalIds(feed) + [c.externalId]
  {
    hide Upsert;
    assert (feed + [c])[..|feed|] == feed;
  }

  ghost predicate Normalizes(fetched: seq<ProviderCreative>, feed: seq<ProviderCreative>) {
    |feed| == |fetched| && forall i :: 0 <= i < |feed| ==> Normalized(fetched[i]) == Some(feed[i])
  }

  /** The feed is read, every entry is valid, and everything that is written is answered. */
  ghost predicate GoesThrough(env: Env) {
    && env.feed.Some? && env.stale == Answered
    && forall i :: 0 <= i < |env.feed.value| ==> Normalized(env.feed.value[i]).Some? && env.upsert(i) == Answered
  }

  /** And the config is there and active, its lock is free, and the log is written. */
  ghost predicate Healthy(env: Env) {
    env.config.Some? && env.config.value.active && env.lock == Locked && env.createLog && GoesThrough(env)
  }

  ghost predicate CompletedSync(before: Table, after: Table, env: Env, r: Outcome, feed: seq<ProviderCreative>)
    requires r.Completed?
  {
    && env.config.Some? && env.feed.Some? && Normalizes(env.feed.value, feed)
    && r.fetched == r.upserted == |feed|
    && after == AfterSync(before, env.config.value, feed)
  }

  /** A failed sync has upserted a prefix of the feed; it has marked anything stale only when the
      answer of that very last step was lost. */
  ghost predicate FailedSync(before: Table, after: Table, env: Env, r: Outcome, feed: seq<ProviderCreative>)
    requires r.Failed?
  {
    if env.config.None? then false
    else if env.feed.None? then after == before && r == Failed(0, 0)
    else
      && r.fetched == |env.feed.value| && r.upserted <= |feed| <= r.upserted + 1 && |feed| <= r.fetched
      && Normalizes(env.feed.value[..|feed|], feed)
      && (after == Upserts(before, env.config.value, feed) ||
          (r.upserted == r.fetched && env.stale == AnswerLost && after == AfterSync(before, env.config.value, feed)))
  }

  // ----- what a sync means -----

  predicate InFeed(feed: seq<ProviderCreative>, externalId: string) {
    exists j :: 0 <= j < |feed| && feed[j].externalId == externalId
  }

  /** The last creative of the feed with that id. */
  function LastOf(feed: seq<ProviderCreative>, externalId: string): (c: ProviderCreative)
    requires InFeed(feed, externalId)
    ensures c in feed && c.externalId == externalId
  {
    var last := feed[|feed| - 1];
    if last.externalId == externalId then last else LastOf(feed[..|feed| - 1], externalId)
  }

  /** The upserts hold the last creative of each id, and touch nothing else. */
  lemma {:induction false} UpsertsAt(t: Table, config: Config, feed: seq<ProviderCreative>, i: Ident)
    ensures var u := Upserts(t, config, feed);
            if i == IdentOf(config, i.externalId) && InFeed(feed, i.externalId)
            then i in u && u[i] == Stored(config.id, LastOf(feed, i.externalId), Synced)
            else (i in u <==> i in t) && (i in t ==> u[i] == t[i])
  {
    if feed == [] {
    } else {
      var n := |feed| - 1;
      UpsertsAt(t, config, feed[..n], i);
      assert feed == feed[..n] + [feed[n]];
      assert InFeed(feed, i.externalId) <==> InFeed(feed[..n], i.externalId) || feed[n].externalId == i.externalId;
    }
  }

  lemma IdsOfFeed(feed: seq<ProviderCreative>, externalId: string)
    ensures externalId in ExternalIds(feed) <==> InFeed(feed, externalId)
  {
    if InFeed(feed, externalId) {
      var j :| 0 <= j < |feed| && feed[j].externalId == externalId;
      assert ExternalIds(feed)[j] == externalId;
    }
  }

  predicate Home(config: Config, i: Ident) {
    i.campaign == config.campaign && i.provider == config.provider
  }

  /** The creatives of a config live under its campaign and provider. */
  ghost predicate Homed(t: Table, config: Config) {
    forall i :: i in t && t[i].config == config.id ==> Home(config, i)
  }

  ghost predicate SyncedAt(t: Table, u: Table, config: Config, feed: seq<ProviderCreative>, i: Ident) {
    && (i in u && u[i].config == config.id ==>
          Home(config, i) && u[i].sync == if InFeed(feed, i.externalId) then Synced else Stale)
    && (Home(config, i) && InFeed(feed, i.externalId) ==>
          i in u && u[i] == Stored(config.id, LastOf(feed, i.externalId), Synced))
    && (!Home(config, i) || !InFeed(feed, i.externalId) ==>
          && (i in u <==> i in t)
          && (i in t ==> u[i] == if t[i].config == config.id then t[i].(sync := Stale) else t[i]))
  }

  /** After a completed sync the creatives of the config are synced if the feed has them and stale
      if not; each shows the last entry of the feed with its id; other configs keep theirs unless
      the feed names them. */
  lemma SyncMeaning(t: Table, config: Config, feed: seq<ProviderCreative>, i: Ident)
    requires Homed(t, config)
    ensures SyncedAt(t, AfterSync(t, config, feed), config, feed, i)
  {
    hide LastOf, InFeed;
    UpsertsAt(t, config, feed, i);
    IdsOfFeed(feed, i.externalId);
  }

  lemma SyncKeepsHomed(t: Table, config: Config, feed: seq<ProviderCreative>)
    requires Homed(t, config)
    ensures Homed(AfterSync(t, config, feed), config)
  {
    hide LastOf, InFeed, AfterSync;
    var u := AfterSync(t, config, feed);
    forall i | i in u && u[i].config == config.id ensures Home(config, i) {
      SyncMeaning(t, config, feed, i);
    }
  }

  /** Repeating a sync with the same feed changes nothing. */
  lemma SyncTwice(t: Table, config: Config, feed: seq<ProviderCreative>)
    requires Homed(t, config)
    ensures AfterSync(AfterSync(t, config, feed), config, feed) == AfterSync(t, config, feed)
  {
    hide LastOf, AfterSync, Homed, InFeed;
    var u := AfterSync(t, config, feed);
    var v := AfterSync(u, config, feed);
    SyncKeepsHomed(t, config, feed);
    forall i ensures (i in v <==> i in u) && (i in u ==> v[i] == u[i]) {
      SyncMeaning(t, config, feed, i);
      SyncMeaning(u, config, feed, i);
    }
    assert u.Keys == v.Keys;
  }

  /** A failed sync marks nothing stale, unless it is the answer of that very step that was lost. */
  lemma FailureMarksNothing(
    before: Table, after: Table, env: Env, r: Outcome, feed: seq<ProviderCreative>, i: Ident)
    requires r.Failed? && FailedSync(before, after, env, r, feed)
    requires env.stale != AnswerLost || r.upserted < r.fetched
    requires i in after && after[i].sync == Stale
    ensures i in before && before[i] == after[i]
  {
    hide Normalizes, AfterSync;
    if env.feed.Some? { UpsertsAt(before, env.config.value, feed, i); }
  }
}
