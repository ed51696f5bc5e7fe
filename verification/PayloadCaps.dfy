/** Caps over runs of payload calls: the cap checks that PushPayload makes form a run of CapRuns, so
    what a cap bounds there it bounds for the payloads shown. */
module PayloadCaps {
  import opened Wrappers
  import opened Payload
  import opened Rotation
  import PayloadRuns
  import CapRuns
  import Caps

  /** The list a call tries, if it gets that far. */
  function ListOf(b: Books, q: Request, setup: Setup, env: Env): Option<seq<Creative>> {
    if !setup.creatives || (q.source == "" && !env.source.Found?) || !env.creatives.Found? || env.creatives.value == []
    then None
    else
      var eligible := Eligible(env.creatives.value, env.targeting);
      if eligible.None? || eligible.value == [] then None else Ordering(b, q, eligible.value, setup, env)
  }

  function CapCall(subscription: string, c: Creative, i: nat, env: Env): CapRuns.Call {
    CapRuns.Call(CapInput(subscription, c), env.capAt(i), env.capFaults(i))
  }

  /** The cap checks of firstAllowedCreative from position `i` on. */
  function Tries(counters: Caps.Store, subscription: string, list: seq<Creative>, i: nat, env: Env): seq<CapRuns.Call>
    requires i <= |list|
    decreases |list| - i
  {
    if i == |list| then []
    else
      var c := CapCall(subscription, list[i], i, env);
      var (v, after) := Caps.AllowSpec(counters, c.input, c.now, c.faults);
      [c] + if v == Caps.Refused then Tries(after, subscription, list, i + 1, env) else []
  }

  function TriesOf(b: Books, c: Call, setup: Setup): seq<CapRuns.Call> {
    var list := ListOf(b, c.q, setup, c.env);
    if list.None? then [] else Tries(b.counters, c.q.subscription, list.value, 0, c.env)
  }

  /** All cap checks of a run, in order. */
  function CapCalls(b: Books, calls: seq<Call>, setup: Setup): seq<CapRuns.Call> {
    if calls == [] then []
    else
      var n := |calls| - 1;
      CapCalls(b, calls[..n], setup) + TriesOf(After(b, calls[..n], setup), calls[n], setup)
  }

  /** The payload call returned a payload whose cap check counts under `k`. */
  predicate ShownUnder(b: Books, c: Call, setup: Setup, k: Caps.Key) {
    PayloadSpec(b, c.q, setup, c.env).0.Shown? &&
    var list := ListOf(b, c.q, setup, c.env);
    list.Some? &&
    var choice := FirstAllowed(b.counters, c.q.subscription, list.value, 0, setup, c.env).0;
    choice.Chosen? && CapRuns.Counts(CapCall(c.q.subscription, list.value[choice.index], choice.index, c.env), k)
  }

  function ShownCount(b: Books, calls: seq<Call>, setup: Setup, k: Caps.Key): nat {
    if calls == [] then 0
    else
      var n := |calls| - 1;
      ShownCount(b, calls[..n], setup, k) + if ShownUnder(After(b, calls[..n], setup), calls[n], setup, k) then 1 else 0
  }

  /** A run of cap checks after another. */
  lemma {:induction false} AfterMore(store: Caps.Store, base: seq<CapRuns.Call>, c: CapRuns.Call, k: Caps.Key)
    ensures CapRuns.After(store, base + [c]) == Caps.AllowSpec(CapRuns.After(store, base), c.input, c.now, c.faults).1
    ensures CapRuns.Grants(store, base + [c], k) ==
            CapRuns.Grants(store, base, k) +
            if CapRuns.Counts(c, k) && CapRuns.VerdictOf(CapRuns.After(store, base), c) == Caps.Allowed then 1 else 0
  {
    hide Caps.AllowSpec;
    assert (base + [c])[..|base|] == base;
  }

  /** firstAllowedCreative is a run of cap checks, and its choice one more grant. */
  lemma {:induction false} ChoiceIsRun(
    store: Caps.Store, base: seq<CapRuns.Call>, subscription: string, list: seq<Creative>, i: nat, setup: Setup,
    env: Env, k: Caps.Key)
    requires setup.caps && i <= |list|
    ensures var counters := CapRuns.After(store, base);
            var all := base + Tries(counters, subscription, list, i, env);
            var (choice, after) := FirstAllowed(counters, subscription, list, i, setup, env);
            && CapRuns.After(store, all) == after
            && CapRuns.Grants(store, all, k) ==
               CapRuns.Grants(store, base, k) +
               if choice.Chosen? && CapRuns.Counts(CapCall(subscription, list[choice.index], choice.index, env), k)
               then 1 else 0
    decreases |list| - i
  {
    hide Caps.AllowSpec, CapRuns.After, CapRuns.Grants, CapRuns.Counts;
    if i == |list| {
      assert base + [] == base;
    } else {
      var c := CapCall(subscription, list[i], i, env);
      AfterMore(store, base, c, k);
      var counters := CapRuns.After(store, base);
      if AllowNth(counters, subscription, list[i], i, setup, env).0 == Caps.Refused {
        ChoiceIsRun(store, base + [c], subscription, list, i + 1, setup, env, k);
        var next := CapRuns.After(store, base + [c]);
        assert base + Tries(counters, subscription, list, i, env) ==
               (base + [c]) + Tries(next, subscription, list, i + 1, env);
      } else {
        assert Tries(counters, subscription, list, i, env) == [c];
      }
    }
  }

  /** The counters of a payload call come from the list it tried. */
  lemma CountersOf(b: Books, q: Request, setup: Setup, env: Env)
    ensures PayloadSpec(b, q, setup, env).1.counters ==
            match ListOf(b, q, setup, env)
            case None => b.counters
            case Some(list) => FirstAllowed(b.counters, q.subscription, list, 0, setup, env).1
  {
    hide Eligible, Ordering, FirstAllowed, PayloadOf;
  }

  /** The counters of a payload run are those of its cap checks, and every payload is a grant. */
  lemma {:induction false} ShownAreGranted(b: Books, calls: seq<Call>, setup: Setup, k: Caps.Key)
    requires setup.caps && b.counters == map[]
    ensures After(b, calls, setup).counters == CapRuns.After(map[], CapCalls(b, calls, setup))
    ensures ShownCount(b, calls, setup, k) <= CapRuns.Grants(map[], CapCalls(b, calls, setup), k)
  {
    hide PayloadSpec, ListOf, FirstAllowed, Tries, CapRuns.Counts, Caps.AllowSpec;
    if calls == [] {
    } else {
      var n := |calls| - 1;
      var c, before := calls[n], After(b, calls[..n], setup);
      var base := CapCalls(b, calls[..n], setup);
      ShownAreGranted(b, calls[..n], setup, k);
      CountersOf(before, c.q, setup, c.env);
      var list := ListOf(before, c.q, setup, c.env);
      if list.Some? {
        ChoiceIsRun(map[], base, c.q.subscription, list.value, 0, setup, c.env, k);
      } else {
        assert base + [] == base;
      }
    }
  }

  predicate Offers(call: Call, c: Creative) {
    call.env.creatives.Found? && c in call.env.creatives.value
  }

  /** The creative belongs to what the counter counts. */
  predicate Under(campaign: string, creative: string, k: Caps.Key) {
    campaign == k.campaign && (k.CreativeDay? || k.CreativeTotal? ==> creative == k.creative)
  }

  /** The field of a creative that caps the counter. */
  function FieldOf(c: Creative, k: Caps.Key): int {
    match k
    case CampaignDay(_, _, _) => c.campaignDaily
    case CampaignTotal(_, _) => c.campaignTotal
    case CreativeDay(_, _, _, _) => c.daily
    case CreativeTotal(_, _, _) => c.total
  }

  /** Every creative under the counter that is offered to anybody carries this cap. */
  ghost predicate SameCap(calls: seq<Call>, k: Caps.Key, limit: int) {
    forall i, c :: 0 <= i < |calls| && Offers(calls[i], c) && Under(c.campaign, c.id, k) ==> FieldOf(c, k) == limit
  }

  /** A creative is checked against its own fields, each at its own counter. */
  lemma OwnFields(subscription: string, c: Creative, now: int, k: Caps.Key)
    ensures Caps.LimitFor(CapInput(subscription, c), now, k) ==
            if subscription == k.subscription && Under(c.campaign, c.id, k) &&
               (Caps.Daily(k) ==> Caps.OnDay(now, k.day))
            then FieldOf(c, k) else 0
  {
    Caps.LimitMeaning(CapInput(subscription, c), now, k);
  }

  lemma {:induction false} TriesChecked(
    counters: Caps.Store, subscription: string, list: seq<Creative>, i: nat, env: Env, x: CapRuns.Call)
    requires i <= |list| && x in Tries(counters, subscription, list, i, env)
    ensures exists j :: 0 <= j < |list| && x == CapCall(subscription, list[j], j, env)
    decreases |list| - i
  {
    hide Caps.AllowSpec;
    var c := CapCall(subscription, list[i], i, env);
    if x == c {
    } else {
      TriesChecked(Caps.AllowSpec(counters, c.input, c.now, c.faults).1, subscription, list, i + 1, env, x);
    }
  }

  lemma ListOffered(b: Books, q: Request, setup: Setup, env: Env)
    ensures ListOf(b, q, setup, env).Some? ==>
              env.creatives.Found? && forall c :: c in ListOf(b, q, setup, env).value ==> c in env.creatives.value
  {
    hide Eligible, Ordering;
    if ListOf(b, q, setup, env).Some? {
      PayloadRuns.EligibleMeaning(env.creatives.value, env.targeting);
      PayloadRuns.OrderedCreatives(b, q, Eligible(env.creatives.value, env.targeting).value, setup, env);
    }
  }

  /** Every creative that is offered to anybody and counts under `k` carries this limit for it. */
  ghost predicate SameLimit(calls: seq<Call>, k: Caps.Key, limit: int) {
    forall i, c, now :: 0 <= i < |calls| && Offers(calls[i], c) && LimitUnder(calls[i], c, now, k) > 0 ==>
      LimitUnder(calls[i], c, now, k) == limit
  }

  function LimitUnder(call: Call, c: Creative, now: int, k: Caps.Key): int {
    Caps.LimitFor(CapInput(call.q.subscription, c), now, k)
  }

  lemma SameCapIsSameLimit(calls: seq<Call>, k: Caps.Key, limit: int)
    requires SameCap(calls, k, limit)
    ensures SameLimit(calls, k, limit)
  {
    hide Offers, Caps.LimitFor, Under, FieldOf;
    forall i, c, now | 0 <= i < |calls| && Offers(calls[i], c) && LimitUnder(calls[i], c, now, k) > 0
      ensures LimitUnder(calls[i], c, now, k) == limit
    {
      OwnFields(calls[i].q.subscription, c, now, k);
    }
  }

  lemma TryFixed(
    b: Books, calls: seq<Call>, i: nat, setup: Setup, k: Caps.Key, limit: int, x: CapRuns.Call)
    requires i < |calls| && SameLimit(calls, k, limit) && x in TriesOf(b, calls[i], setup)
    ensures CapRuns.Counts(x, k) ==> Caps.LimitFor(x.input, x.now, k) == limit
  {
    hide ListOf, Tries, Caps.LimitFor;
    var c := calls[i];
    ListOffered(b, c.q, setup, c.env);
    var list := ListOf(b, c.q, setup, c.env).value;
    TriesChecked(b.counters, c.q.subscription, list, 0, c.env, x);
    var j :| 0 <= j < |list| && x == CapCall(c.q.subscription, list[j], j, c.env);
    assert list[j] in list && Offers(calls[i], list[j]);
    assert Caps.LimitFor(x.input, x.now, k) == LimitUnder(calls[i], list[j], x.now, k);
  }

  lemma {:induction false} FixedByOffers(b: Books, calls: seq<Call>, setup: Setup, k: Caps.Key, limit: int)
    requires SameLimit(calls, k, limit)
    ensures CapRuns.FixedLimit(CapCalls(b, calls, setup), k, limit)
  {
    hide PayloadSpec, TriesOf, CapRuns.Counts, Caps.LimitFor, LimitUnder;
    if calls == [] {
    } else {
      var n := |calls| - 1;
      var before := After(b, calls[..n], setup);
      assert SameLimit(calls[..n], k, limit) by {
        forall i | 0 <= i < n ensures calls[..n][i] == calls[i] {}
      }
      FixedByOffers(b, calls[..n], setup, k, limit);
      forall x | x in TriesOf(before, calls[n], setup)
        ensures CapRuns.Counts(x, k) ==> Caps.LimitFor(x.input, x.now, k) == limit
      {
        TryFixed(before, calls, n, setup, k, limit, x);
      }
    }
  }

  /** The clock of the cap check that let the payload through. */
  function CheckedAt(b: Books, c: Call, setup: Setup): int {
    var list := ListOf(b, c.q, setup, c.env);
    if list.None? then 0
    else
      var choice := FirstAllowed(b.counters, c.q.subscription, list.value, 0, setup, c.env).0;
      if choice.Chosen? then c.env.capAt(choice.index) else 0
  }

  /** The call showed the subscription of `k` what `k` counts, on its day if it has one. */
  predicate ShowsUnder(b: Books, c: Call, setup: Setup, k: Caps.Key) {
    var r := PayloadSpec(b, c.q, setup, c.env).0;
    && r.Shown? && r.payload.subscription == k.subscription && Under(r.payload.campaign, r.payload.creative, k)
    && (Caps.Daily(k) ==> Caps.OnDay(CheckedAt(b, c, setup), k.day))
  }

  function ShownTo(b: Books, calls: seq<Call>, setup: Setup, k: Caps.Key): nat {
    if calls == [] then 0
    else
      var n := |calls| - 1;
      ShownTo(b, calls[..n], setup, k) + if ShowsUnder(After(b, calls[..n], setup), calls[n], setup, k) then 1 else 0
  }

  /** What is shown under a counter was allowed by a cap check that counts there. */
  lemma ShownCounts(b: Books, calls: seq<Call>, i: nat, setup: Setup, k: Caps.Key, limit: int)
    requires limit > 0 && setup.creatives && i < |calls| && SameCap(calls, k, limit)
    requires ShowsUnder(b, calls[i], setup, k)
    ensures ShownUnder(b, calls[i], setup, k)
  {
    hide Eligible, Ordering, FirstAllowed, Under, FieldOf, Caps.OnDay, Caps.LimitFor;
    var c := calls[i];
    ListOffered(b, c.q, setup, c.env);
    var list := ListOf(b, c.q, setup, c.env).value;
    var j := FirstAllowed(b.counters, c.q.subscription, list, 0, setup, c.env).0.index;
    assert list[j] in list && Offers(calls[i], list[j]);
    OwnFields(c.q.subscription, list[j], c.env.capAt(j), k);
  }

  lemma {:induction false} ShownToCounted(b: Books, calls: seq<Call>, setup: Setup, k: Caps.Key, limit: int)
    requires limit > 0 && setup.creatives && SameCap(calls, k, limit)
    ensures ShownTo(b, calls, setup, k) <= ShownCount(b, calls, setup, k)
  {
    hide PayloadSpec, ShownUnder, ShowsUnder, FieldOf, Under;
    if calls == [] {
    } else {
      var n := |calls| - 1;
      assert SameCap(calls[..n], k, limit) by {
        forall i | 0 <= i < n ensures calls[..n][i] == calls[i] {}
      }
      ShownToCounted(b, calls[..n], setup, k, limit);
      var before := After(b, calls[..n], setup);
      if ShowsUnder(before, calls[n], setup, k) { ShownCounts(before, calls, n, setup, k, limit); }
    }
  }

  /** Over any run of payload calls, one after the other and whatever fails, a subscription is shown a
      campaign at most as often as `campaignTotal` of its creatives says, and a creative at most as
      often as its own `total`. */
  lemma ShownWithinTotalCap(b: Books, calls: seq<Call>, setup: Setup, k: Caps.Key, limit: int)
    requires setup.caps && setup.creatives && b.counters == map[]
    requires limit > 0 && !Caps.Daily(k) && SameCap(calls, k, limit)
    ensures ShownTo(b, calls, setup, k) <= limit
  {
    hide CapCalls, ShownCount, ShownTo, CapRuns.FixedLimit, CapRuns.Grants, CapRuns.After, SameCap, SameLimit;
    SameCapIsSameLimit(calls, k, limit);
    FixedByOffers(b, calls, setup, k, limit);
    ShownAreGranted(b, calls, setup, k);
    ShownToCounted(b, calls, setup, k, limit);
    CapRuns.TotalCapHolds(CapCalls(b, calls, setup), k, limit);
  }

  /** And on one UTC day at most twice as often as `campaignDaily`, or `daily` of the creative, says. */
  lemma ShownWithinDailyCap(b: Books, calls: seq<Call>, setup: Setup, k: Caps.Key, limit: int)
    requires setup.caps && setup.creatives && b.counters == map[]
    requires limit > 0 && Caps.Daily(k) && SameCap(calls, k, limit)
    ensures ShownTo(b, calls, setup, k) <= 2 * limit
  {
    hide CapCalls, ShownCount, ShownTo, CapRuns.FixedLimit, CapRuns.Grants, CapRuns.After, SameCap, SameLimit;
    SameCapIsSameLimit(calls, k, limit);
    FixedByOffers(b, calls, setup, k, limit);
    ShownAreGranted(b, calls, setup, k);
    ShownToCounted(b, calls, setup, k, limit);
    CapRuns.DailyCapAtMostTwice(CapCalls(b, calls, setup), k, limit);
  }

  /** The subscription was counted less often than each positive cap of the creative allows. */
  ghost predicate HasRoom(counters: Caps.Store, subscription: string, c: Creative, now: int) {
    forall k: Caps.Key ::
      k.subscription == subscription && Under(c.campaign, c.id, k) && (Caps.Daily(k) ==> Caps.OnDay(now, k.day)) &&
      FieldOf(c, k) > 0 ==>
        Caps.Count(counters, k, now) < FieldOf(c, k)
  }

  /** A call whose caps can be read and written shows the first creative of its list, once its records
      succeed, exactly when that creative has room under each of its four caps. */
  lemma RoomShows(b: Books, q: Request, setup: Setup, env: Env, list: seq<Creative>)
    requires setup.caps && PayloadRuns.Tried(b, q, setup, env, list) && list != []
    requires Caps.NoFaults(env.capFaults(0))
    requires (setup.exposures ==> env.expose == Answered) && (setup.decisions ==> env.decide == Answered)
    ensures FirstAllowed(b.counters, q.subscription, list, 0, setup, env).0 == Chosen(0) <==>
            HasRoom(b.counters, q.subscription, list[0], env.capAt(0))
    ensures HasRoom(b.counters, q.subscription, list[0], env.capAt(0)) ==>
              var r := PayloadSpec(b, q, setup, env).0;
              && r.Shown? && r.payload.subscription == q.subscription
              && r.payload.campaign == list[0].campaign && r.payload.creative == list[0].id
  {
    hide Eligible, Ordering, Caps.AllowSpec, Under, FieldOf, Caps.OnDay, Caps.LimitFor, Caps.Count, Caps.NoFaults;
    Caps.AllowMeaning(b.counters, CapInput(q.subscription, list[0]), env.capAt(0), env.capFaults(0));
    forall k { OwnFields(q.subscription, list[0], env.capAt(0), k); }
  }
}
