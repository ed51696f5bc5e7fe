/** Frequency caps: packages/go/subscribers/redis_cap_store.go over the Redis
    commands of packages/go/redis/client.go.

    Instants are nanoseconds since the epoch, UTC.  The commands of one call all
    run at the instant the call read its clock; `CapConcurrency` drops that. */
module Caps {
  import opened Clock
  import opened Wrappers
  import Text

  function DayOf(now: int): int {
    now / DAY
  }

  function Midnight(now: int): int {
    (DayOf(now) + 1) * DAY
  }

  /** ttlUntilTomorrow. */
  function TtlUntilTomorrow(now: int): int {
    Midnight(now) - now
  }

  /** Client.Expire: whole seconds, at least one. */
  function ExpireSeconds(ttl: int): int
    requires ttl > 0
  {
    if ttl / SECOND < 1 then 1 else ttl / SECOND
  }

  // ----- keys -----

  datatype Key =
    | CampaignDay(subscription: string, campaign: string, day: int)
    | CampaignTotal(subscription: string, campaign: string)
    | CreativeDay(subscription: string, campaign: string, creative: string, day: int)
    | CreativeTotal(subscription: string, campaign: string, creative: string)

  predicate Daily(k: Key) {
    k.CampaignDay? || k.CreativeDay?
  }

  /** What follows push_booster:cap:sub: in a Redis key; `date` renders a day as 20060102. */
  function Fields(k: Key, date: int -> string): seq<string> {
    match k
    case CampaignDay(s, c, d) => [Text.Trim(s), "campaign", Text.Trim(c), "day", date(d)]
    case CampaignTotal(s, c) => [Text.Trim(s), "campaign", Text.Trim(c), "total"]
    case CreativeDay(s, c, r, d) =>
      [Text.Trim(s), "campaign", Text.Trim(c), "creative", Text.Trim(r), "day", date(d)]
    case CreativeTotal(s, c, r) =>
      [Text.Trim(s), "campaign", Text.Trim(c), "creative", Text.Trim(r), "total"]
  }

  function KeyText(k: Key, date: int -> string): string {
    "push_booster:cap:sub:" + Text.Join(Fields(k, date))
  }

  /** Ids as the services store them: trimmed, and free of the separator. */
  predicate PlainKey(k: Key) {
    && PlainId(k.subscription)
    && PlainId(k.campaign)
    && (k.CreativeDay? || k.CreativeTotal? ==> PlainId(k.creative))
  }

  predicate PlainId(id: string) {
    Text.Trim(id) == id && Text.ColonFree(id)
  }

  /** No two counters share a Redis key while ids are plain. */
  lemma KeyTextInjective(a: Key, b: Key, date: int -> string)
    requires PlainKey(a) && PlainKey(b)
    requires forall d :: Text.ColonFree(date(d))
    requires forall d, e :: date(d) == date(e) ==> d == e
    requires KeyText(a, date) == KeyText(b, date)
    ensures a == b
  {
    FieldsColonFree(a, date);
    FieldsColonFree(b, date);
    var prefix := "push_booster:cap:sub:";
    assert Text.Join(Fields(a, date)) == KeyText(a, date)[|prefix|..];
    assert Text.Join(Fields(b, date)) == KeyText(b, date)[|prefix|..];
    Text.JoinInjective(Fields(a, date), Fields(b, date));
  }

  lemma FieldsColonFree(k: Key, date: int -> string)
    requires PlainKey(k)
    requires forall d :: Text.ColonFree(date(d))
    ensures forall f :: f in Fields(k, date) ==> Text.ColonFree(f)
  {
    hide Text.Trim;
    assert Text.ColonFree("campaign") && Text.ColonFree("creative") && Text.ColonFree("day") && Text.ColonFree("total");
  }

  // ----- one call -----

  datatype CapCheckInput = CapCheckInput(
    subscription: string,
    campaign: string,
    creative: string,
    daily: int,
    total: int,
    creativeDaily: int,
    creativeTotal: int)

  datatype CapLimit = CapLimit(key: Key, limit: int, ttl: Option<int>)

  function Checks(input: CapCheckInput, now: int): (checks: seq<CapLimit>)
    ensures |checks| == 4
    ensures forall i, j :: 0 <= i < j < |checks| ==> checks[i].key != checks[j].key
    ensures forall c :: c in checks && c.ttl.Some? ==> c.ttl.value == TtlUntilTomorrow(now) > 0
  {
    [CapLimit(CampaignDay(input.subscription, input.campaign, DayOf(now)), input.daily,
              Some(TtlUntilTomorrow(now))),
     CapLimit(CampaignTotal(input.subscription, input.campaign), input.total, None),
     CapLimit(CreativeDay(input.subscription, input.campaign, input.creative, DayOf(now)),
              input.creativeDaily, Some(TtlUntilTomorrow(now))),
     CapLimit(CreativeTotal(input.subscription, input.campaign, input.creative),
              input.creativeTotal, None)]
  }

  /** The limit an input sets for a key, or zero when it does not check that key. */
  function LimitFor(input: CapCheckInput, now: int, k: Key): (limit: int) {
    var checks := Checks(input, now);
    if k == checks[0].key then input.daily
    else if k == checks[1].key then input.total
    else if k == checks[2].key then input.creativeDaily
    else if k == checks[3].key then input.creativeTotal
    else 0
  }

  /** Each of the four limits holds for one counter of this subscription alone, and the daily ones for
      the UTC day of the call. */
  lemma LimitMeaning(input: CapCheckInput, now: int, k: Key)
    ensures LimitFor(input, now, k) ==
            if k.subscription != input.subscription || k.campaign != input.campaign then 0
            else
              match k
              case CampaignDay(_, _, day) => if OnDay(now, day) then input.daily else 0
              case CampaignTotal(_, _) => input.total
              case CreativeDay(_, _, creative, day) =>
                if creative == input.creative && OnDay(now, day) then input.creativeDaily else 0
              case CreativeTotal(_, _, creative) => if creative == input.creative then input.creativeTotal else 0
  {}

  /** The instant lies on the day, counted from the epoch. */
  predicate OnDay(now: int, day: int) {
    day * 86_400_000_000_000 <= now < (day + 1) * 86_400_000_000_000
  }

  /** A counter and the instant at which Redis drops it. */
  datatype Entry = Entry(count: nat, expiresAt: Option<int>)

  type Store = map<Key, Entry>

  predicate Live(e: Entry, now: int) {
    e.expiresAt.None? || now < e.expiresAt.value
  }

  function Look(store: Store, k: Key): Option<Entry> {
    if k in store then Some(store[k]) else None
  }

  function Count(store: Store, k: Key, now: int): nat {
    if k in store && Live(store[k], now) then store[k].count else 0
  }

  /** INCR: an expired counter starts over without an expiry. */
  function Incr(store: Store, k: Key, now: int): Store {
    store[k := if k in store && Live(store[k], now) then store[k].(count := store[k].count + 1)
               else Entry(1, None)]
  }

  function Expire(store: Store, k: Key, ttl: int, now: int): Store
    requires k in store && ttl > 0
  {
    store[k := store[k].(expiresAt := Some(now + ExpireSeconds(ttl) * SECOND))]
  }

  /** What Redis does to the commands of one call, by position of the check. */
  datatype Faults = Faults(get: nat -> bool, incr: nat -> Reply, expire: nat -> Reply)

  predicate Healthy(f: Faults, i: nat) {
    !f.get(i) && f.incr(i) == Answered && f.expire(i) == Answered
  }

  datatype Verdict = Allowed | Refused | Failed

  /** The reading loop from check `i` on; Allowed means that it went through. */
  function ReadAll(store: Store, checks: seq<CapLimit>, i: nat, now: int, f: Faults): (v: Verdict)
    requires i <= |checks|
    decreases |checks| - i
  {
    if i == |checks| then Allowed
    else if checks[i].limit <= 0 then ReadAll(store, checks, i + 1, now, f)
    else if f.get(i) then Failed
    else if Count(store, checks[i].key, now) >= checks[i].limit then Refused
    else ReadAll(store, checks, i + 1, now, f)
  }

  /** INCR and, for a fresh counter with a ttl, EXPIRE. */
  function AddOne(store: Store, check: CapLimit, i: nat, now: int, f: Faults): (r: (Verdict, Store))
    requires check.ttl.Some? ==> check.ttl.value > 0
  {
    if f.incr(i) == NotSent then (Failed, store)
    else
      var added := Incr(store, check.key, now);
      if f.incr(i) == AnswerLost then (Failed, added)
      else if added[check.key].count != 1 || check.ttl.None? then (Allowed, added)
      else if f.expire(i) == NotSent then (Failed, added)
      else (if f.expire(i) == Answered then Allowed else Failed, Expire(added, check.key, check.ttl.value, now))
  }

  /** The incrementing loop from check `i` on. */
  function AddAll(store: Store, checks: seq<CapLimit>, i: nat, now: int, f: Faults): (r: (Verdict, Store))
    requires i <= |checks|
    requires forall c :: c in checks && c.ttl.Some? ==> c.ttl.value > 0
    ensures r.0 != Refused
    decreases |checks| - i
  {
    if i == |checks| then (Allowed, store)
    else if checks[i].limit <= 0 then AddAll(store, checks, i + 1, now, f)
    else
      var one := AddOne(store, checks[i], i, now, f);
      if one.0 == Failed then one else AddAll(one.1, checks, i + 1, now, f)
  }

  function AllowSpec(store: Store, input: CapCheckInput, now: int, f: Faults): (Verdict, Store) {
    var checks := Checks(input, now);
    var read := ReadAll(store, checks, 0, now, f);
    if read != Allowed then (read, store) else AddAll(store, checks, 0, now, f)
  }

  /** The counters of RedisCapStore. */
  class CapStore {
    var store: Store

    constructor ()
      ensures store == map[]
    {
      store := map[];
    }

    /** Checks every enabled cap, then increments every enabled counter. */
    method Allow(input: CapCheckInput, now: int, f: Faults) returns (v: Verdict)
      modifies this
      ensures (v, store) == AllowSpec(old(store), input, now, f)
    {
      var checks := Checks(input, now);
      if input.daily <= 0 && input.total <= 0 && input.creativeDaily <= 0 && input.creativeTotal <= 0 {
        NothingEnabled(store, checks, 0, now, f);
        return Allowed;
      }
      for i := 0 to |checks|
        invariant store == old(store)
        invariant ReadAll(store, checks, 0, now, f) == ReadAll(store, checks, i, now, f)
      {
        if checks[i].limit <= 0 { continue; }
        if f.get(i) { return Failed; }
        if Count(store, checks[i].key, now) >= checks[i].limit { return Refused; }
      }
      for i := 0 to |checks|
        invariant AddAll(old(store), checks, 0, now, f) == AddAll(store, checks, i, now, f)
      {
        if checks[i].limit <= 0 { continue; }
        if f.incr(i) == NotSent { return Failed; }
        store := Incr(store, checks[i].key, now);
        if f.incr(i) == AnswerLost { return Failed; }
        if store[checks[i].key].count == 1 && checks[i].ttl.Some? {
          if f.expire(i) == NotSent { return Failed; }
          store := Expire(store, checks[i].key, checks[i].ttl.value, now);
          if f.expire(i) == AnswerLost { return Failed; }
        }
      }
      v := Allowed;
    }
  }

  lemma {:induction false} NothingEnabled(store: Store, checks: seq<CapLimit>, i: nat, now: int, f: Faults)
    requires i <= |checks|
    requires forall c :: c in checks ==> c.limit <= 0
    requires forall c :: c in checks && c.ttl.Some? ==> c.ttl.value > 0
    ensures ReadAll(store, checks, i, now, f) == Allowed
    ensures AddAll(store, checks, i, now, f) == (Allowed, store)
    decreases |checks| - i
  {
    if i == |checks| {
    } else {
      NothingEnabled(store, checks, i + 1, now, f);
    }
  }

  // ----- what a call does -----

  /** An incremented counter, before and after its expiry is set. */
  function Bumped(e: Option<Entry>, now: int): Entry {
    if e.Some? && Live(e.value, now) then e.value.(count := e.value.count + 1) else Entry(1, None)
  }

  function Armed(e: Entry, ttl: Option<int>, now: int): Entry
    requires ttl.Some? ==> ttl.value > 0
  {
    if e.count == 1 && ttl.Some? then e.(expiresAt := Some(now + ExpireSeconds(ttl.value) * SECOND)) else e
  }

  lemma {:induction false} ReadAllMeaning(store: Store, checks: seq<CapLimit>, i: nat, now: int, f: Faults)
    requires i <= |checks|
    ensures ReadAll(store, checks, i, now, f) == Allowed ==>
              forall j :: i <= j < |checks| && checks[j].limit > 0 ==>
                Count(store, checks[j].key, now) < checks[j].limit
    ensures ReadAll(store, checks, i, now, f) == Refused ==>
              exists j :: i <= j < |checks| && checks[j].limit > 0 &&
                Count(store, checks[j].key, now) >= checks[j].limit
    ensures (forall j :: i <= j < |checks| ==> !f.get(j)) ==> ReadAll(store, checks, i, now, f) != Failed
    decreases |checks| - i
  {
    if i == |checks| {
    } else {
      ReadAllMeaning(store, checks, i + 1, now, f);
    }
  }

  lemma AddOneMeaning(store: Store, check: CapLimit, i: nat, now: int, f: Faults)
    requires check.ttl.Some? ==> check.ttl.value > 0
    ensures var (v, after) := AddOne(store, check, i, now, f);
            var before := Look(store, check.key);
            var full := Armed(Bumped(before, now), check.ttl, now);
            && (v == Allowed ==> Look(after, check.key) == Some(full))
            && Look(after, check.key) in {before, Some(Bumped(before, now)), Some(full)}
            && (forall k :: k != check.key ==> Look(after, k) == Look(store, k))
            && (Healthy(f, i) ==> v == Allowed)
            && (before.None? && f.incr(i) == Answered && check.ttl.Some? ==>
                  (Look(after, check.key).value.expiresAt.None? <==> f.expire(i) == NotSent))
  {}

  /** Counters of no later check are left alone. */
  lemma {:induction false} AddAllKeeps(store: Store, checks: seq<CapLimit>, i: nat, now: int, f: Faults, k: Key)
    requires i <= |checks|
    requires forall c :: c in checks && c.ttl.Some? ==> c.ttl.value > 0
    requires forall j :: i <= j < |checks| && checks[j].limit > 0 ==> checks[j].key != k
    ensures Look(AddAll(store, checks, i, now, f).1, k) == Look(store, k)
    decreases |checks| - i
  {
    if i == |checks| {
    } else {
      AddOneMeaning(store, checks[i], i, now, f);
      AddAllKeeps(if checks[i].limit <= 0 then store else AddOne(store, checks[i], i, now, f).1,
                  checks, i + 1, now, f, k);
    }
  }

  /** The counter of check `j` is incremented once, unless the loop stops before. */
  lemma {:induction false} AddAllBumps(
    store: Store, checks: seq<CapLimit>, i: nat, now: int, f: Faults, j: nat)
    requires i <= j < |checks| && checks[j].limit > 0
    requires forall a, b :: 0 <= a < b < |checks| ==> checks[a].key != checks[b].key
    requires forall c :: c in checks && c.ttl.Some? ==> c.ttl.value > 0
    ensures var (v, after) := AddAll(store, checks, i, now, f);
            var before := Look(store, checks[j].key);
            var full := Armed(Bumped(before, now), checks[j].ttl, now);
            && (v == Allowed ==> Look(after, checks[j].key) == Some(full))
            && Look(after, checks[j].key) in {before, Some(Bumped(before, now)), Some(full)}
    decreases |checks| - i
  {
    AddOneMeaning(store, checks[i], i, now, f);
    var next := if checks[i].limit <= 0 then store else AddOne(store, checks[i], i, now, f).1;
    if i < j {
      AddAllBumps(next, checks, i + 1, now, f, j);
    } else {
      AddAllKeeps(next, checks, i + 1, now, f, checks[i].key);
    }
  }

  lemma {:induction false} AddAllHealthy(store: Store, checks: seq<CapLimit>, i: nat, now: int, f: Faults)
    requires i <= |checks|
    requires forall c :: c in checks && c.ttl.Some? ==> c.ttl.value > 0
    requires forall j :: i <= j < |checks| ==> Healthy(f, j)
    ensures AddAll(store, checks, i, now, f).0 == Allowed
    decreases |checks| - i
  {
    if i == |checks| {
    } else {
      AddOneMeaning(store, checks[i], i, now, f);
      AddAllHealthy(if checks[i].limit <= 0 then store else AddOne(store, checks[i], i, now, f).1,
                    checks, i + 1, now, f);
    }
  }

  ghost predicate Enabled(input: CapCheckInput, now: int, k: Key) {
    LimitFor(input, now, k) > 0
  }

  ghost predicate NoFaults(f: Faults) {
    forall i :: 0 <= i < 4 ==> Healthy(f, i)
  }

  /** How one call may move the counter of a key with the given limit. */
  ghost predicate KeyStep(
    before: Option<Entry>, after: Option<Entry>, v: Verdict, limit: int, ttl: Option<int>, now: int)
    requires ttl.Some? ==> ttl.value > 0
  {
    if v == Refused || limit <= 0 then after == before
    else
      var full := Armed(Bumped(before, now), ttl, now);
      && (v == Allowed ==> after == Some(full) && CountOf(before, now) < limit)
      && (v == Failed ==>
            && after in {before, Some(Bumped(before, now)), Some(full)}
            && (after != before ==> CountOf(before, now) < limit))
  }

  function CountOf(e: Option<Entry>, now: int): nat {
    if e.Some? && Live(e.value, now) then e.value.count else 0
  }

  function TtlOf(k: Key, now: int): (ttl: Option<int>)
    ensures ttl.Some? ==> ttl.value > 0
  {
    if Daily(k) then Some(TtlUntilTomorrow(now)) else None
  }

  /** The effect of one call on one counter. */
  lemma AllowAt(store: Store, input: CapCheckInput, now: int, f: Faults, k: Key)
    ensures KeyStep(Look(store, k), Look(AllowSpec(store, input, now, f).1, k),
                    AllowSpec(store, input, now, f).0, LimitFor(input, now, k), TtlOf(k, now), now)
  {
    var checks := Checks(input, now);
    ReadAllMeaning(store, checks, 0, now, f);
    if Enabled(input, now, k) {
      AddAllBumps(store, checks, 0, now, f, PositionOf(input, now, k));
    } else {
      forall j | 0 <= j < |checks| && checks[j].limit > 0 ensures checks[j].key != k {
        assert LimitFor(input, now, checks[j].key) == checks[j].limit;
      }
      AddAllKeeps(store, checks, 0, now, f, k);
    }
  }

  function PositionOf(input: CapCheckInput, now: int, k: Key): (j: nat)
    requires LimitFor(input, now, k) > 0
    ensures j < 4 && Checks(input, now)[j].key == k && Checks(input, now)[j].limit == LimitFor(input, now, k)
    ensures Checks(input, now)[j].ttl.Some? <==> Daily(k)
  {
    var checks := Checks(input, now);
    if k == checks[0].key then 0 else if k == checks[1].key then 1 else if k == checks[2].key then 2 else 3
  }

  /** What the caller may rely on: either all enabled counters move by one, or the call was
      not allowed; a refusal moves none, and a failure moves each at most once. */
  lemma AllowMeaning(store: Store, input: CapCheckInput, now: int, f: Faults)
    ensures var (v, after) := AllowSpec(store, input, now, f);
            && (v == Refused ==> after == store)
            && (v == Refused ==>
                  (exists k :: Enabled(input, now, k) && Count(store, k, now) >= LimitFor(input, now, k)))
            && (v == Allowed ==>
                  (forall k :: Enabled(input, now, k) ==>
                     && Count(store, k, now) < LimitFor(input, now, k)
                     && Count(after, k, now) == Count(store, k, now) + 1))
            && (v == Failed ==>
                  (forall k :: Enabled(input, now, k) ==>
                     Count(store, k, now) <= Count(after, k, now) <= Count(store, k, now) + 1))
            && (forall k :: !Enabled(input, now, k) ==> Look(after, k) == Look(store, k))
    ensures NoFaults(f) ==>
              && AllowSpec(store, input, now, f).0 != Failed
              && (AllowSpec(store, input, now, f).0 == Allowed <==>
                  forall k :: Enabled(input, now, k) ==> Count(store, k, now) < LimitFor(input, now, k))
  {
    var checks := Checks(input, now);
    ReadAllMeaning(store, checks, 0, now, f);
    var read := ReadAll(store, checks, 0, now, f);
    if read == Refused {
      var j :| 0 <= j < 4 && checks[j].limit > 0 && Count(store, checks[j].key, now) >= checks[j].limit;
      assert LimitFor(input, now, checks[j].key) == checks[j].limit;
      assert Enabled(input, now, checks[j].key);
    }
    forall k { AllowAt(store, input, now, f, k); }
    if NoFaults(f) {
      forall j | 0 <= j < 4 ensures !f.get(j) { assert Healthy(f, j); }
      AddAllHealthy(store, checks, 0, now, f);
    }
  }
}
