/** One worker calling RedisCapStore.Allow over a whole run: what each cap bounds. */
module CapRuns {
  import opened Clock
  import opened Wrappers
  import opened Caps
  import opened Sorting

  datatype Call = Call(input: CapCheckInput, now: int, faults: Faults)

  function After(store: Store, calls: seq<Call>): Store {
    if calls == [] then store
    else
      var c := calls[|calls| - 1];
      AllowSpec(After(store, calls[..|calls| - 1]), c.input, c.now, c.faults).1
  }

  function VerdictOf(store: Store, c: Call): Verdict {
    AllowSpec(store, c.input, c.now, c.faults).0
  }

  predicate Counts(c: Call, k: Key) {
    LimitFor(c.input, c.now, k) > 0
  }

  /** How many calls were allowed under key `k`. */
  function Grants(store: Store, calls: seq<Call>, k: Key): nat {
    if calls == [] then 0
    else
      var before := calls[..|calls| - 1];
      var c := calls[|calls| - 1];
      Grants(store, before, k) + if Counts(c, k) && VerdictOf(After(store, before), c) == Allowed then 1 else 0
  }

  /** Every call that checks `k` checks it against `limit`. */
  ghost predicate FixedLimit(calls: seq<Call>, k: Key, limit: int) {
    forall c :: c in calls && Counts(c, k) ==> LimitFor(c.input, c.now, k) == limit
  }

  ghost predicate InTimeOrder(calls: seq<Call>) {
    forall i, j :: 0 <= i < j < |calls| ==> calls[i].now <= calls[j].now
  }

  /** Grants and counter after the last call, in terms of one counter's step. */
  lemma LastCall(calls: seq<Call>, k: Key)
    requires calls != []
    ensures var before, c := calls[..|calls| - 1], calls[|calls| - 1];
            var v := VerdictOf(After(map[], before), c);
            var limit := LimitFor(c.input, c.now, k);
            && KeyStep(Look(After(map[], before), k), Look(After(map[], calls), k), v, limit, TtlOf(k, c.now), c.now)
            && Grants(map[], calls, k) == Grants(map[], before, k) + if limit > 0 && v == Allowed then 1 else 0
  {
    var before, c := calls[..|calls| - 1], calls[|calls| - 1];
    AllowAt(After(map[], before), c.input, c.now, c.faults, k);
  }

  // ----- subscriptions do not share counters -----

  /** The stores hold the same counters of this subscription. */
  ghost predicate Alike(a: Store, b: Store, subscription: string) {
    forall k: Key :: k.subscription == subscription ==> Look(a, k) == Look(b, k)
  }

  lemma {:induction false} ReadsAlike(
    a: Store, b: Store, subscription: string, checks: seq<CapLimit>, i: nat, now: int, f: Faults)
    requires Alike(a, b, subscription) && i <= |checks|
    requires forall c :: c in checks ==> c.key.subscription == subscription
    ensures ReadAll(a, checks, i, now, f) == ReadAll(b, checks, i, now, f)
    decreases |checks| - i
  {
    if i == |checks| {
    } else {
      assert checks[i] in checks && Look(a, checks[i].key) == Look(b, checks[i].key);
      ReadsAlike(a, b, subscription, checks, i + 1, now, f);
    }
  }

  lemma {:induction false} AddsAlike(
    a: Store, b: Store, subscription: string, checks: seq<CapLimit>, i: nat, now: int, f: Faults)
    requires Alike(a, b, subscription) && i <= |checks|
    requires forall c :: c in checks ==> c.key.subscription == subscription && (c.ttl.Some? ==> c.ttl.value > 0)
    ensures AddAll(a, checks, i, now, f).0 == AddAll(b, checks, i, now, f).0
    ensures Alike(AddAll(a, checks, i, now, f).1, AddAll(b, checks, i, now, f).1, subscription)
    decreases |checks| - i
  {
    if i == |checks| {
    } else {
      var c := checks[i];
      assert c in checks && Look(a, c.key) == Look(b, c.key);
      if c.limit <= 0 {
        AddsAlike(a, b, subscription, checks, i + 1, now, f);
      } else {
        OneAlike(a, b, subscription, c, i, now, f);
        AddsAlike(AddOne(a, c, i, now, f).1, AddOne(b, c, i, now, f).1, subscription, checks, i + 1, now, f);
      }
    }
  }

  lemma OneAlike(a: Store, b: Store, subscription: string, c: CapLimit, i: nat, now: int, f: Faults)
    requires Alike(a, b, subscription) && c.key.subscription == subscription && (c.ttl.Some? ==> c.ttl.value > 0)
    ensures AddOne(a, c, i, now, f).0 == AddOne(b, c, i, now, f).0
    ensures Alike(AddOne(a, c, i, now, f).1, AddOne(b, c, i, now, f).1, subscription)
  {
    hide ExpireSeconds;
    assert Look(a, c.key) == Look(b, c.key);
  }

  /** A call depends on the counters of its own subscription alone, and leaves all others. */
  lemma CallAlike(a: Store, b: Store, subscription: string, c: Call)
    requires Alike(a, b, subscription)
    ensures c.input.subscription == subscription ==>
              && VerdictOf(a, c) == VerdictOf(b, c)
              && Alike(AllowSpec(a, c.input, c.now, c.faults).1, AllowSpec(b, c.input, c.now, c.faults).1, subscription)
    ensures c.input.subscription != subscription ==>
              Alike(AllowSpec(a, c.input, c.now, c.faults).1, b, subscription)
  {
    hide ReadAll, AddAll, TtlUntilTomorrow, DayOf;
    if c.input.subscription == subscription {
      ReadsAlike(a, b, subscription, Checks(c.input, c.now), 0, c.now, c.faults);
      AddsAlike(a, b, subscription, Checks(c.input, c.now), 0, c.now, c.faults);
    } else {
      forall k: Key | k.subscription == subscription
        ensures Look(AllowSpec(a, c.input, c.now, c.faults).1, k) == Look(b, k)
      {
        LimitMeaning(c.input, c.now, k);
        AllowAt(a, c.input, c.now, c.faults, k);
      }
    }
  }

  /** Calls for other subscriptions never matter: over any run, this one finds the counters and gets
      the answers that its own calls alone would have left. */
  lemma {:induction false} SubscriptionsApart(calls: seq<Call>, subscription: string)
    ensures var own := Filter(calls, (c: Call) => c.input.subscription == subscription);
            Alike(After(map[], calls), After(map[], own), subscription) &&
            forall c: Call :: c.input.subscription == subscription ==>
              VerdictOf(After(map[], calls), c) == VerdictOf(After(map[], own), c)
  {
    var keep := (c: Call) => c.input.subscription == subscription;
    hide AllowSpec, VerdictOf, Look;
    var own := Filter(calls, keep);
    assert Alike(After(map[], calls), After(map[], own), subscription) by {
      if calls == [] {
      } else {
        var before, c := calls[..|calls| - 1], calls[|calls| - 1];
        SubscriptionsApart(before, subscription);
        CallAlike(After(map[], before), After(map[], Filter(before, keep)), subscription, c);
        if keep(c) {
          assert own[..|own| - 1] == Filter(before, keep);
        } else {
          assert own == Filter(before, keep);
        }
      }
    }
    forall c: Call | c.input.subscription == subscription
      ensures VerdictOf(After(map[], calls), c) == VerdictOf(After(map[], own), c)
    {
      CallAlike(After(map[], calls), After(map[], own), subscription, c);
    }
  }

  /** A total cap is never exceeded: neither its counter nor the sends it allowed. */
  lemma {:induction false} TotalCapHolds(calls: seq<Call>, k: Key, limit: int)
    requires limit > 0 && FixedLimit(calls, k, limit)
    requires k.CampaignTotal? || k.CreativeTotal?
    ensures TotalInv(Look(After(map[], calls), k), limit, Grants(map[], calls, k))
    ensures Grants(map[], calls, k) <= limit
  {
    hide AllowSpec, LimitFor;
    if calls == [] {
    } else {
      var before := calls[..|calls| - 1];
      assert forall d :: d in before ==> d in calls;
      TotalCapHolds(before, k, limit);
      LastCall(calls, k);
    }
  }

  ghost predicate TotalInv(e: Option<Entry>, limit: int, grants: nat) {
    match e
    case None => grants == 0
    case Some(e) => e.expiresAt == None && grants <= e.count <= limit
  }

  // ----- daily caps -----

  /** When a counter created at `t` expires. */
  function ExpiryOf(t: int): int {
    t + ExpireSeconds(TtlUntilTomorrow(t)) * SECOND
  }

  /** When EXPIRE runs `delay` after the clock was read, a daily counter dies within one second
      of that delay after the UTC midnight that ends its day. */
  lemma DailyKeyExpiry(t: int, delay: nat)
    ensures delay - SECOND < ExpiryOf(t) + delay - Midnight(t) < delay + SECOND
    ensures t < ExpiryOf(t)
    ensures ExpiryOf(t) < Midnight(t) <==> TtlUntilTomorrow(t) % SECOND != 0 && TtlUntilTomorrow(t) >= SECOND
  {}

  lemma ChecksToday(c: Call, k: Key)
    requires Daily(k) && Counts(c, k)
    ensures DayOf(c.now) == k.day && c.now < Midnight(c.now) == (k.day + 1) * DAY
  {}

  /** The counter of `k` dies before the day of `k` is over. */
  predicate DiesEarly(e: Entry, k: Key) {
    e.expiresAt.Some? && Daily(k) && e.expiresAt.value < (k.day + 1) * DAY
  }

  ghost predicate DayInv(e: Option<Entry>, k: Key, limit: int, grants: nat) {
    match e
    case None => grants == 0
    case Some(e) =>
      && 1 <= e.count <= limit
      && (DiesEarly(e, k) ==> grants <= e.count && (k.day + 1) * DAY - e.expiresAt.value < SECOND)
      && grants <= limit + e.count
  }

  lemma DayStep(before: Option<Entry>, after: Option<Entry>, v: Verdict, k: Key, limit: int, now: int, grants: nat)
    requires Daily(k) && limit > 0 && DayOf(now) == k.day
    requires KeyStep(before, after, v, limit, TtlOf(k, now), now)
    requires DayInv(before, k, limit, grants)
    ensures DayInv(after, k, limit, grants + if v == Allowed then 1 else 0)
  {
    DailyKeyExpiry(now, 0);
  }

  lemma EmptyRun(k: Key, limit: int)
    ensures DayInv(Look(After(map[], []), k), k, limit, Grants(map[], [], k))
  {}

  lemma {:induction false} DayInvHolds(calls: seq<Call>, k: Key, limit: int)
    requires limit > 0 && FixedLimit(calls, k, limit) && Daily(k)
    ensures DayInv(Look(After(map[], calls), k), k, limit, Grants(map[], calls, k))
  {
    hide AllowSpec, LimitFor, KeyStep, DayInv;
    EmptyRun(k, limit);
    if calls == [] {
    } else {
      var before, c := calls[..|calls| - 1], calls[|calls| - 1];
      assert forall d :: d in before ==> d in calls;
      DayInvHolds(before, k, limit);
      LastCall(calls, k);
      if Counts(c, k) {
        ChecksToday(c, k);
        DayStep(Look(After(map[], before), k), Look(After(map[], calls), k), VerdictOf(After(map[], before), c),
                k, limit, c.now, Grants(map[], before, k));
      } else {
      }
    }
  }

  /** Over its whole UTC day a daily cap lets through at most twice its limit. */
  lemma DailyCapAtMostTwice(calls: seq<Call>, k: Key, limit: int)
    requires limit > 0 && FixedLimit(calls, k, limit) && Daily(k)
    ensures Grants(map[], calls, k) <= 2 * limit
  {
    DayInvHolds(calls, k, limit);
  }

  /** The first call creates the counter of `k`, at instant `t`. */
  ghost predicate DayRun(calls: seq<Call>, t: int, k: Key, limit: int) {
    && calls != [] && calls[0].now == t && Counts(calls[0], k)
    && VerdictOf(map[], calls[0]) == Allowed
    && FixedLimit(calls, k, limit)
    && InTimeOrder(calls)
  }

  ghost predicate LivingInv(e: Option<Entry>, t: int, limit: int, grants: nat) {
    e.Some? && e.value.expiresAt == Some(ExpiryOf(t)) && 1 <= grants <= e.value.count <= limit
  }

  lemma LivingStep(
    before: Option<Entry>, after: Option<Entry>, v: Verdict, k: Key, limit: int, now: int, t: int, grants: nat)
    requires Daily(k) && limit > 0 && now < ExpiryOf(t)
    requires KeyStep(before, after, v, limit, TtlOf(k, now), now)
    requires LivingInv(before, t, limit, grants)
    ensures LivingInv(after, t, limit, grants + if v == Allowed then 1 else 0)
  {}

  lemma FirstCall(after: Option<Entry>, k: Key, limit: int, t: int)
    requires Daily(k) && limit > 0 && KeyStep(None, after, Allowed, limit, TtlOf(k, t), t)
    ensures LivingInv(after, t, limit, 1)
  {}

  ghost predicate BeforeExpiry(calls: seq<Call>, t: int, k: Key) {
    forall c :: c in calls && Counts(c, k) ==> c.now < ExpiryOf(t)
  }

  lemma DayRunPrefix(calls: seq<Call>, t: int, k: Key, limit: int)
    requires |calls| > 1 && DayRun(calls, t, k, limit) && BeforeExpiry(calls, t, k)
    ensures DayRun(calls[..|calls| - 1], t, k, limit) && BeforeExpiry(calls[..|calls| - 1], t, k)
    ensures var c := calls[|calls| - 1];
            LimitFor(c.input, c.now, k) > 0 ==> LimitFor(c.input, c.now, k) == limit && c.now < ExpiryOf(t)
  {
    hide AllowSpec, LimitFor, ExpiryOf;
    var before, c := calls[..|calls| - 1], calls[|calls| - 1];
    assert c in calls;
    assert forall d :: d in before ==> d in calls;
    assert before[0] == calls[0];
  }

  lemma LivingFirst(calls: seq<Call>, t: int, k: Key, limit: int)
    requires |calls| == 1 && limit > 0 && Daily(k) && DayRun(calls, t, k, limit)
    ensures LivingInv(Look(After(map[], calls), k), t, limit, Grants(map[], calls, k))
  {
    hide AllowSpec, LimitFor, KeyStep, LivingInv;
    LastCall(calls, k);
    assert calls[..0] == [] && calls[0] in calls;
    FirstCall(Look(After(map[], calls), k), k, limit, t);
  }

  /** While its first counter lives, a daily cap is exact. */
  lemma {:induction false} DailyCapWhileCounterLives(calls: seq<Call>, t: int, k: Key, limit: int)
    requires limit > 0 && Daily(k) && DayRun(calls, t, k, limit) && BeforeExpiry(calls, t, k)
    ensures LivingInv(Look(After(map[], calls), k), t, limit, Grants(map[], calls, k))
    ensures Grants(map[], calls, k) <= limit
  {
    if |calls| == 1 {
      LivingFirst(calls, t, k, limit);
    } else {
      var before, c := calls[..|calls| - 1], calls[|calls| - 1];
      DayRunPrefix(calls, t, k, limit);
      DailyCapWhileCounterLives(before, t, k, limit);
      LastCall(calls, k);
      hide *;
      var was, now := Look(After(map[], before), k), Look(After(map[], calls), k);
      var v := VerdictOf(After(map[], before), c);
      if LimitFor(c.input, c.now, k) > 0 {
        LivingStep(was, now, v, k, limit, c.now, t, Grants(map[], before, k));
      } else {
      }
    }
  }

  // The run that gets twice the limit: it is used up at `t`, and once more when the counter has
  // expired but the day has not.

  const ALL_WELL := Faults((_: nat) => false, (_: nat) => Answered, (_: nat) => Answered)

  function DailyCall(sub: string, campaign: string, limit: int, now: int): Call {
    Call(CapCheckInput(sub, campaign, "", limit, 0, 0, 0), now, ALL_WELL)
  }

  lemma DailyCallAllowed(store: Store, sub: string, campaign: string, limit: int, now: int)
    requires limit > 0
    ensures var c := DailyCall(sub, campaign, limit, now);
            var k := CampaignDay(sub, campaign, DayOf(now));
            && Counts(c, k) && LimitFor(c.input, now, k) == limit
            && (VerdictOf(store, c) == Allowed <==> Count(store, k, now) < limit)
  {
    var c := DailyCall(sub, campaign, limit, now);
    assert NoFaults(c.faults) by { assert forall i :: 0 <= i < 4 ==> Healthy(c.faults, i); }
    AllowMeaning(store, c.input, now, c.faults);
    var k := CampaignDay(sub, campaign, DayOf(now));
    assert forall j :: Enabled(c.input, now, j) <==> j == k;
  }

  /** A last call that finds room is one more grant and one more on its counter. */
  lemma GrantedCall(calls: seq<Call>, sub: string, campaign: string, limit: int, now: int)
    requires limit > 0 && calls != [] && calls[|calls| - 1] == DailyCall(sub, campaign, limit, now)
    requires Count(After(map[], calls[..|calls| - 1]), CampaignDay(sub, campaign, DayOf(now)), now) < limit
    ensures var k := CampaignDay(sub, campaign, DayOf(now));
            var before := calls[..|calls| - 1];
            && Grants(map[], calls, k) == Grants(map[], before, k) + 1
            && Look(After(map[], calls), k) ==
               Some(Armed(Bumped(Look(After(map[], before), k), now), Some(TtlUntilTomorrow(now)), now))
  {
    hide AllowSpec, LimitFor, Grants, After, Armed, Bumped;
    DailyCallAllowed(After(map[], calls[..|calls| - 1]), sub, campaign, limit, now);
    LastCall(calls, CampaignDay(sub, campaign, DayOf(now)));
  }

  /** The counter of the day after the `n`-th call at one instant. */
  lemma FilledTo(n: nat, t: int)
    requires n > 0
    ensures var before := if n == 1 then None else Some(Entry(n - 1, Some(ExpiryOf(t))));
            && CountOf(before, t) == n - 1
            && Armed(Bumped(before, t), Some(TtlUntilTomorrow(t)), t) == Entry(n, Some(ExpiryOf(t)))
  {
    DailyKeyExpiry(t, 0);
  }

  lemma {:induction false} FillDay(sub: string, campaign: string, limit: int, t: int, n: nat)
    requires 0 < n <= limit
    ensures var calls := seq(n, (_: int) => DailyCall(sub, campaign, limit, t));
            var k := CampaignDay(sub, campaign, DayOf(t));
            && Grants(map[], calls, k) == n
            && Look(After(map[], calls), k) == Some(Entry(n, Some(ExpiryOf(t))))
  {
    hide AllowSpec, LimitFor, DailyCall, DayOf, ExpiryOf, Armed, Bumped, Live;
    var calls := seq(n, (_: int) => DailyCall(sub, campaign, limit, t));
    var k := CampaignDay(sub, campaign, DayOf(t));
    var before := calls[..n - 1];
    if n > 1 {
      FillDay(sub, campaign, limit, t, n - 1);
      assert before == seq(n - 1, (_: int) => DailyCall(sub, campaign, limit, t));
    } else {
      assert before == [];
    }
    FilledTo(n, t);
    GrantedCall(calls, sub, campaign, limit, t);
  }

  /** The limit is used up at `t`, and `n` more calls come when the counter has expired. */
  function TwoRounds(sub: string, campaign: string, limit: nat, t: int, n: nat): seq<Call> {
    seq(limit, (_: int) => DailyCall(sub, campaign, limit, t)) +
    seq(n, (_: int) => DailyCall(sub, campaign, limit, ExpiryOf(t)))
  }

  lemma TwoRoundsLast(sub: string, campaign: string, limit: nat, t: int, n: nat)
    requires n > 0
    ensures var calls := TwoRounds(sub, campaign, limit, t, n);
            && calls != [] && calls[..|calls| - 1] == TwoRounds(sub, campaign, limit, t, n - 1)
            && calls[|calls| - 1] == DailyCall(sub, campaign, limit, ExpiryOf(t))
  {
    hide DailyCall, ExpiryOf;
  }

  lemma {:induction false} SecondRound(sub: string, campaign: string, limit: int, t: int, n: nat)
    requires 0 < limit && n <= limit && ExpiryOf(t) < Midnight(t)
    ensures var calls := TwoRounds(sub, campaign, limit, t, n);
            var k := CampaignDay(sub, campaign, DayOf(t));
            && Grants(map[], calls, k) == limit + n
            && Look(After(map[], calls), k) ==
               Some(if n == 0 then Entry(limit, Some(ExpiryOf(t))) else Entry(n, Some(ExpiryOf(ExpiryOf(t)))))
  {
    hide AllowSpec, LimitFor, DailyCall, Grants, After;
    var k := CampaignDay(sub, campaign, DayOf(t));
    var late := ExpiryOf(t);
    assert DayOf(late) == DayOf(t) by { DailyKeyExpiry(t, 0); }
    assert !Live(Entry(limit, Some(late)), late);
    hide DayOf, ExpiryOf, Live;
    var calls := TwoRounds(sub, campaign, limit, t, n);
    if n == 0 {
      FillDay(sub, campaign, limit, t, limit);
      assert calls == seq(limit, (_: int) => DailyCall(sub, campaign, limit, t));
    } else {
      var before := TwoRounds(sub, campaign, limit, t, n - 1);
      SecondRound(sub, campaign, limit, t, n - 1);
      TwoRoundsLast(sub, campaign, limit, t, n);
      FilledTo(n, late);
      hide TwoRounds, Armed;
      GrantedCall(calls, sub, campaign, limit, late);
    }
  }

  /** Twice the limit is reached for every daily counter that dies before its day is over. */
  lemma TwiceReached(sub: string, campaign: string, limit: int, t: int) returns (calls: seq<Call>)
    requires limit > 0 && ExpiryOf(t) < Midnight(t)
    ensures DayRun(calls, t, CampaignDay(sub, campaign, DayOf(t)), limit)
    ensures Grants(map[], calls, CampaignDay(sub, campaign, DayOf(t))) == 2 * limit
  {
    hide AllowSpec, LimitFor, Grants, After;
    DailyKeyExpiry(t, 0);
    SecondRound(sub, campaign, limit, t, limit);
    DailyCallAllowed(map[], sub, campaign, limit, t);
    DailyCallAllowed(map[], sub, campaign, limit, ExpiryOf(t));
    calls := TwoRounds(sub, campaign, limit, t, limit);
  }

  /** The daily cap is exact for counters created at `t` if and only if the rest of the day
      is a whole number of seconds or less than one second. */
  lemma DailyCapExactWhen(sub: string, campaign: string, limit: int, t: int)
    requires limit > 0
    ensures (forall calls :: DayRun(calls, t, CampaignDay(sub, campaign, DayOf(t)), limit) ==>
               Grants(map[], calls, CampaignDay(sub, campaign, DayOf(t))) <= limit)
            <==> TtlUntilTomorrow(t) % SECOND == 0 || TtlUntilTomorrow(t) < SECOND
  {
    hide AllowSpec, LimitFor, Grants, Counts;
    var k := CampaignDay(sub, campaign, DayOf(t));
    DailyKeyExpiry(t, 0);
    if TtlUntilTomorrow(t) % SECOND == 0 || TtlUntilTomorrow(t) < SECOND {
      forall calls | DayRun(calls, t, k, limit) ensures Grants(map[], calls, k) <= limit {
        forall c | c in calls && Counts(c, k) ensures c.now < ExpiryOf(t) { ChecksToday(c, k); }
        assert BeforeExpiry(calls, t, k);
        DailyCapWhileCounterLives(calls, t, k, limit);
      }
    } else {
      var calls := TwiceReached(sub, campaign, limit, t);
    }
  }
}
