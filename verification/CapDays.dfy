/** RedisCapStore.Allow run by P workers at once while daily counters expire
    (packages/go/subscribers/redis_cap_store.go:70-96, 172-185, packages/go/redis/client.go:67-74).

    The commands are those of CapConcurrency, each at an instant of its own.  A counter may be gone
    from the instant on at which its expiry has come. */
module CapDays {
  import opened Clock
  import opened Wrappers
  import opened Caps
  import opened Counting
  import C = CapConcurrency

  /** `clocks` is when the call of each worker read its clock, `drops` how often a counter has expired. */
  datatype State = State(caps: C.State, now: int, clocks: seq<int>, expiry: map<Key, int>, drops: map<Key, nat>)

  /** An expiry may take effect without being answered. */
  datatype Step =
    | Act(step: C.Step, at: int, sets: bool)
    | Drop(key: Key, at: int)

  /** The daily keys of a call are those of the day its clock shows. */
  predicate Dated(request: C.Request, now: int) {
    forall i :: 0 <= i < |request| && Daily(request[i]) ==> request[i].day == DayOf(now)
  }

  ghost predicate Ready(s: State, step: Step, limit: Key -> int) {
    && s.now <= step.at && |s.clocks| == |s.caps.workers|
    && match step
       case Act(c, at, sets) =>
         && C.Ready(s.caps, c, limit)
         && (c.Begin? ==> Dated(c.request, at))
         && (c.SetExpiry? && c.answered ==> sets)
       case Drop(k, at) => k in s.expiry && s.expiry[k] <= at
  }

  /** What EXPIRE sets: whole seconds of what the clock of the call left of its day. */
  function ExpiryAt(at: int, clock: int): int {
    at + ExpireSeconds(TtlUntilTomorrow(clock)) * SECOND
  }

  ghost function Do(s: State, step: Step, limit: Key -> int): State
    requires Ready(s, step, limit)
  {
    match step
    case Act(c, at, sets) =>
      var w := c.worker;
      State(C.Do(s.caps, c, limit), at, if c.Begin? then s.clocks[w := at] else s.clocks,
            if c.SetExpiry? && sets && KeyAt(s, w) in s.caps.counts
            then s.expiry[KeyAt(s, w) := ExpiryAt(at, s.clocks[w])] else s.expiry,
            s.drops)
    case Drop(k, at) =>
      State(s.caps.(counts := s.caps.counts - {k}), at, s.clocks, s.expiry - {k}, C.Plus(s.drops, k))
  }

  /** The key that the command of worker `w` is about. */
  function KeyAt(s: State, w: nat): Key
    requires w < |s.caps.workers| && !s.caps.workers[w].Idle?
    requires s.caps.workers[w].next < |s.caps.workers[w].request|
  {
    s.caps.workers[w].request[s.caps.workers[w].next]
  }

  ghost function Start(workers: nat, now: int): State {
    State(C.Start(workers), now, seq(workers, _ => now), map[], map[])
  }

  ghost function Run(from: State, steps: seq<Step>, limit: Key -> int): Option<State> {
    if steps == [] then Some(from)
    else
      match Run(from, steps[..|steps| - 1], limit)
      case Some(s) =>
        if Ready(s, steps[|steps| - 1], limit) then Some(Do(s, steps[|steps| - 1], limit)) else None
      case None => None
  }

  // ----- counters and grants -----

  /** What one life of a counter can reach. */
  function Most(workers: nat, limit: Key -> int, k: Key): int {
    limit(k) + workers - 1
  }

  ghost predicate GrantInv(s: State, limit: Key -> int, k: Key) {
    && (forall w :: 0 <= w < |s.caps.workers| ==> C.GoodPhase(s.caps.workers[w], limit))
    && C.CounterOf(s.caps.counts, k) + C.PendingOn(s.caps, k) <= Most(|s.caps.workers|, limit, k)
    && C.CounterOf(s.caps.granted, k) + C.AddedOn(s.caps, k) <=
       C.CounterOf(s.caps.counts, k) + C.CounterOf(s.drops, k) * Most(|s.caps.workers|, limit, k)
  }

  lemma ActKeepsGrants(s: State, c: C.Step, limit: Key -> int, k: Key)
    requires limit(k) > 0 && C.Ready(s.caps, c, limit) && GrantInv(s, limit, k)
    ensures GrantInv(s.(caps := C.Do(s.caps, c, limit)), limit, k)
  {
    var t, w := C.Do(s.caps, c, limit), c.worker;
    CountUpdated(s.caps.workers, w, t.workers[w], p => C.Pending(p, k));
    CountUpdated(s.caps.workers, w, t.workers[w], p => C.Added(p, k));
    assert t.workers == s.caps.workers[w := t.workers[w]];
    C.StepAtWorker(s.caps, c, limit, k);
  }

  lemma DropKeepsGrants(s: State, j: Key, at: int, limit: Key -> int, k: Key)
    requires limit(k) > 0 && Ready(s, Drop(j, at), limit) && GrantInv(s, limit, k)
    ensures GrantInv(Do(s, Drop(j, at), limit), limit, k)
  {
    hide C.GoodPhase, C.Pending, C.Added, Most;
    var workers := |s.caps.workers|;
    OneLifeMore(C.CounterOf(s.drops, k), workers, limit, k);
    assert C.PendingOn(s.caps, k) <= workers;
    var t := Do(s, Drop(j, at), limit);
    assert t.caps.workers == s.caps.workers && t.caps.granted == s.caps.granted;
    if j == k {
      assert C.CounterOf(t.caps.counts, k) == 0 && C.CounterOf(t.drops, k) == C.CounterOf(s.drops, k) + 1;
    } else {
      assert C.CounterOf(t.caps.counts, k) == C.CounterOf(s.caps.counts, k);
      assert C.CounterOf(t.drops, k) == C.CounterOf(s.drops, k);
    }
  }

  lemma OneLifeMore(lives: nat, workers: nat, limit: Key -> int, k: Key)
    requires limit(k) > 0
    ensures workers <= Most(workers, limit, k)
    ensures (lives + 1) * Most(workers, limit, k) == lives * Most(workers, limit, k) + Most(workers, limit, k)
  {}

  // ----- instants -----

  function DayEnd(k: Key): int
    requires Daily(k)
  {
    (k.day + 1) * DAY
  }

  /** Calls on `k` began on its day; its counter lives to the last second of that day, and one that
      is made after another has expired lives beyond it. */
  ghost predicate TimeInv(s: State, limit: Key -> int, k: Key)
    requires Daily(k)
  {
    && |s.clocks| == |s.caps.workers|
    && (forall w :: 0 <= w < |s.caps.workers| ==> C.GoodPhase(s.caps.workers[w], limit))
    && (forall w :: 0 <= w < |s.clocks| ==> s.clocks[w] <= s.now)
    && (forall w :: 0 <= w < |s.clocks| && Asks(s.caps.workers[w], k) ==> DayOf(s.clocks[w]) == k.day)
    && (k in s.expiry ==> s.expiry[k] > DayEnd(k) - SECOND)
    && (C.CounterOf(s.drops, k) >= 1 ==>
          s.now > DayEnd(k) - SECOND && (k in s.expiry ==> s.expiry[k] > DayEnd(k)))
    && (C.CounterOf(s.drops, k) >= 2 ==> s.now > DayEnd(k))
  }

  predicate Asks(p: C.Phase, k: Key) {
    !p.Idle? && k in p.request
  }

  lemma ExpiryLate(at: int, clock: int, k: Key)
    requires Daily(k) && DayOf(clock) == k.day && clock <= at
    ensures ExpiryAt(at, clock) > DayEnd(k) - SECOND && ExpiryAt(at, clock) >= at + SECOND
  {}

  /** A command leaves the requests of the other workers, and keeps or ends that of its own. */
  lemma ActRequests(s: C.State, c: C.Step, limit: Key -> int)
    requires C.Ready(s, c, limit) && C.GoodPhase(s.workers[c.worker], limit)
    ensures var t := C.Do(s, c, limit);
            && |t.workers| == |s.workers|
            && (forall v :: 0 <= v < |s.workers| && v != c.worker ==> t.workers[v] == s.workers[v])
            && C.GoodPhase(t.workers[c.worker], limit)
            && (!t.workers[c.worker].Idle? ==>
                  t.workers[c.worker].request == if c.Begin? then c.request else s.workers[c.worker].request)
            && (!c.Begin? ==> !s.workers[c.worker].Idle?)
            && (c.SetExpiry? ==> s.workers[c.worker].next < |s.workers[c.worker].request|)
  {
    C.StepAtWorker(s, c, limit, CampaignTotal("", ""));
  }

  lemma StepKeepsTime(s: State, step: Step, limit: Key -> int, k: Key)
    requires Daily(k) && Ready(s, step, limit) && TimeInv(s, limit, k)
    ensures TimeInv(Do(s, step, limit), limit, k)
  {
    hide C.Do, C.GoodPhase, DayOf, DayEnd, ExpiryAt;
    match step
    case Act(c, at, sets) =>
      ActRequests(s.caps, c, limit);
      var w := c.worker;
      if c.SetExpiry? && KeyAt(s, w) == k {
        assert Asks(s.caps.workers[w], k);
        ExpiryLate(at, s.clocks[w], k);
      }
    case Drop(j, at) =>
  }

  // ----- runs -----

  lemma StartInv(workers: nat, now: int, limit: Key -> int, k: Key)
    requires workers > 0 && limit(k) > 0 && Daily(k)
    ensures GrantInv(Start(workers, now), limit, k) && TimeInv(Start(workers, now), limit, k)
  {
    var s := Start(workers, now);
    CountNone(s.caps.workers, p => C.Pending(p, k));
    CountNone(s.caps.workers, p => C.Added(p, k));
  }

  lemma {:induction false} RunKeepsInv(from: State, steps: seq<Step>, limit: Key -> int, k: Key)
    requires limit(k) > 0 && Daily(k) && Run(from, steps, limit).Some?
    requires GrantInv(from, limit, k) && TimeInv(from, limit, k)
    ensures var s := Run(from, steps, limit).value;
            GrantInv(s, limit, k) && TimeInv(s, limit, k) && |s.caps.workers| == |from.caps.workers|
  {
    hide GrantInv, TimeInv, Ready, C.Do;
    if steps == [] {
    } else {
      RunKeepsInv(from, steps[..|steps| - 1], limit, k);
      StepKeepsBoth(Run(from, steps[..|steps| - 1], limit).value, steps[|steps| - 1], limit, k);
    }
  }

  lemma StepKeepsBoth(s: State, step: Step, limit: Key -> int, k: Key)
    requires limit(k) > 0 && Daily(k) && Ready(s, step, limit)
    requires GrantInv(s, limit, k) && TimeInv(s, limit, k)
    ensures var t := Do(s, step, limit);
            GrantInv(t, limit, k) && TimeInv(t, limit, k) && |t.caps.workers| == |s.caps.workers|
  {
    StepKeepsTime(s, step, limit, k);
    hide TimeInv, C.Ready, C.GoodPhase, C.PendingOn, C.AddedOn;
    match step
    case Act(c, _, _) =>
      ActKeepsGrants(s, c, limit, k);
    case Drop(j, at) => DropKeepsGrants(s, j, at, limit, k);
  }

  /** With P workers, whatever interleaving, delays and failures: on the UTC day of a daily key at most
      twice limit + P - 1 calls are granted, because its counter expires at most once before the day
      is over. */
  lemma DayGrantsBounded(workers: nat, now: int, steps: seq<Step>, limit: Key -> int, k: Key)
    requires workers > 0 && limit(k) > 0 && Daily(k) && Run(Start(workers, now), steps, limit).Some?
    ensures var s := Run(Start(workers, now), steps, limit).value;
            s.now <= DayEnd(k) ==>
              && C.CounterOf(s.drops, k) <= 1
              && C.CounterOf(s.caps.granted, k) <= 2 * (limit(k) + workers - 1)
  {
    hide Run;
    StartInv(workers, now, limit, k);
    RunKeepsInv(Start(workers, now), steps, limit, k);
  }

  // ----- the bound is met -----

  /** All calls under way ask for `k` and began at this instant; the expiry of its counter is set, or
      about to be. */
  ghost predicate AtOnce(s: State, k: Key) {
    && |s.clocks| == |s.caps.workers|
    && (forall w :: 0 <= w < |s.clocks| && !s.caps.workers[w].Idle? ==>
          s.clocks[w] == s.now && s.caps.workers[w].request == [k])
    && (k in s.caps.counts ==>
          || (k in s.expiry && s.expiry[k] == ExpiryAt(s.now, s.now))
          || exists w :: 0 <= w < |s.clocks| && s.caps.workers[w] == C.Expiring([k], 0))
  }

  lemma StaysAtOnce(s: State, c: C.Step, limit: Key -> int, k: Key)
    requires AtOnce(s, k) && Daily(k) && DayOf(s.now) == k.day && C.Ready(s.caps, c, limit) && C.OnlyAsks([c], k)
    ensures Ready(s, Act(c, s.now, true), limit)
    ensures var t := Do(s, Act(c, s.now, true), limit);
            AtOnce(t, k) && t.now == s.now && t.caps == C.Do(s.caps, c, limit)
  {
    hide ExpiryAt, DayOf, C.GoodRequest, C.Distinct, C.PlusAll;
    assert [c][0] == c;
    var t, w := Do(s, Act(c, s.now, true), limit), c.worker;
    if k in t.caps.counts && !(k in t.expiry && t.expiry[k] == ExpiryAt(s.now, s.now)) {
      if k in s.caps.counts && !(k in s.expiry && s.expiry[k] == ExpiryAt(s.now, s.now)) {
        var v :| 0 <= v < |s.clocks| && s.caps.workers[v] == C.Expiring([k], 0);
        assert t.caps.workers[v] == C.Expiring([k], 0);
      } else {
        assert t.caps.workers[w] == C.Expiring([k], 0);
      }
    }
  }

  lemma Then(from: State, steps: seq<Step>, step: Step, limit: Key -> int)
    requires Run(from, steps, limit).Some? && Ready(Run(from, steps, limit).value, step, limit)
    ensures Run(from, steps + [step], limit) == Some(Do(Run(from, steps, limit).value, step, limit))
  {
    hide Ready, Do;
    assert (steps + [step])[..|steps|] == steps;
  }

  /** Commands on `k` alone can all run at one instant of its day. */
  lemma {:induction false} Timed(
    from: State, before: seq<Step>, commands: seq<C.Step>, limit: Key -> int, k: Key)
    returns (steps: seq<Step>)
    requires Daily(k) && C.OnlyAsks(commands, k) && Run(from, before, limit).Some?
    requires var s := Run(from, before, limit).value;
             AtOnce(s, k) && DayOf(s.now) == k.day && C.Run(s.caps, commands, limit).Some?
    ensures Run(from, steps, limit).Some?
    ensures var s, t := Run(from, before, limit).value, Run(from, steps, limit).value;
            AtOnce(t, k) && t.now == s.now && Some(t.caps) == C.Run(s.caps, commands, limit)
  {
    hide Run, Ready, Do, C.Ready, C.Do, AtOnce, DayOf;
    if commands == [] {
      steps := before;
    } else {
      var s, n := Run(from, before, limit).value, |commands| - 1;
      C.LastStep(s.caps, commands, limit);
      var a := Timed(from, before, commands[..n], limit, k);
      var t, step := Run(from, a, limit).value, Act(commands[n], s.now, true);
      StaysAtOnce(t, commands[n], limit, k);
      Then(from, a, step, limit);
      steps := a + [step];
    }
  }

  /** A counter that is made right after midnight dies before the next one. */
  lemma DiesInTime(k: Key)
    requires Daily(k)
    ensures var now := k.day * DAY + 1;
            && DayOf(now) == DayOf(ExpiryAt(now, now)) == k.day
            && now <= ExpiryAt(now, now) <= DayEnd(k)
  {}

  /** The bound is exact: for every daily key, every limit and every number of workers some run of its
      day grants that many calls. */
  lemma DayBoundReached(workers: nat, limit: Key -> int, k: Key) returns (now: int, steps: seq<Step>)
    requires workers > 0 && limit(k) > 0 && Daily(k)
    ensures Run(Start(workers, now), steps, limit).Some?
    ensures var s := Run(Start(workers, now), steps, limit).value;
            s.now <= DayEnd(k) && C.CounterOf(s.caps.granted, k) == 2 * (limit(k) + workers - 1)
  {
    hide C.Run, DayOf, ExpiryAt, DayEnd;
    now := k.day * DAY + 1;
    DiesInTime(k);
    var start := Start(workers, now);
    assert Run(start, [], limit) == Some(start) && AtOnce(start, k);
    hide Run;
    var first := C.Overshoots(start.caps, limit, k);
    steps := Timed(start, [], first, limit, k);
    var s := Run(start, steps, limit).value;
    var drop := Drop(k, ExpiryAt(now, now));
    var t := Do(s, drop, limit);
    var second := C.Overshoots(t.caps, limit, k);
    Then(start, steps, drop, limit);
    steps := Timed(start, steps + [drop], second, limit, k);
  }
}
