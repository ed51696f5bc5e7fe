/** One payload call that no other overlaps: PayloadConcurrency does then what pushPayloadForContext does
    as a whole (packages/go/subscribers/service.go:730-1033, redis_cap_store.go:70-96).

    Every cap check, its faults and the records that follow are steps of the interleaved model, and
    lead where the sequential one leads. */
module PayloadAlone {
  import opened Wrappers
  import opened Payload
  import opened PayloadConcurrency
  import C = CapConcurrency
  import Caps
  import PayloadRuns

  /** The store holds these counts at this instant. */
  ghost predicate Matches(counts: map<Caps.Key, nat>, store: Caps.Store, now: int) {
    forall k :: C.CounterOf(counts, k) == Caps.Count(store, k, now)
  }

  /** Call `w` and its cap check stand elsewhere. */
  function Moved(s: State, w: nat, p: Phase, caps: C.State): State
    requires w < |s.calls|
  {
    s.(calls := s.calls[w := p], caps := caps)
  }

  function Stopped(s: State, w: nat): C.State
    requires w < |s.caps.workers|
  {
    s.caps.(workers := s.caps.workers[w := C.Idle])
  }

  /** Call `w` runs the check of the creative it has reached. */
  ghost predicate Checks(s: State, w: nat, checks: seq<Caps.CapLimit>, limit: Caps.Key -> int) {
    && w < |s.calls| == |s.caps.workers|
    && s.calls[w].Checking? && s.calls[w].next < |s.calls[w].list|
    && C.Distinct(EnabledKeys(checks))
    && forall c :: c in checks ==>
         && (c.limit > 0 ==> limit(c.key) == c.limit)
         && (c.ttl.Some? <==> Caps.Daily(c.key)) && (c.ttl.Some? ==> c.ttl.value > 0)
  }

  lemma Then(from: State, steps: seq<Step>, s: State, step: Step, t: State, limit: Caps.Key -> int)
    returns (longer: seq<Step>)
    requires Run(from, steps, limit) == Some(s) && Ready(s, step, limit) && Do(s, step, limit) == t
    ensures Run(from, longer, limit) == Some(t)
  {
    hide Ready, Do;
    longer := steps + [step];
    assert longer[..|steps|] == steps;
  }

  /** The next enabled check is the next key of the request. */
  lemma {:induction false} NextKey(checks: seq<Caps.CapLimit>, j: nat)
    requires j < |checks|
    ensures EnabledKeys(checks[..j + 1]) ==
            EnabledKeys(checks[..j]) + if checks[j].limit > 0 then [checks[j].key] else []
    ensures EnabledKeys(checks[..j + 1]) <= EnabledKeys(checks)
    decreases |checks| - j
  {
    assert checks[..j + 1][..j] == checks[..j];
    if j + 1 == |checks| {
      assert checks[..j + 1] == checks;
    } else {
      NextKey(checks, j + 1);
    }
  }

  /** How far the request has come when check `j` is next. */
  function Reached(checks: seq<Caps.CapLimit>, j: nat): nat
    requires j <= |checks|
  {
    |EnabledKeys(checks[..j])|
  }

  lemma KeyReached(checks: seq<Caps.CapLimit>, j: nat)
    requires j <= |checks|
    ensures j == |checks| ==> Reached(checks, j) == |EnabledKeys(checks)|
    ensures j < |checks| && checks[j].limit <= 0 ==> Reached(checks, j + 1) == Reached(checks, j)
    ensures j < |checks| && checks[j].limit > 0 ==>
              && Reached(checks, j + 1) == Reached(checks, j) + 1 <= |EnabledKeys(checks)|
              && EnabledKeys(checks)[Reached(checks, j)] == checks[j].key
  {
    if j == |checks| {
      assert checks[..j] == checks;
    } else {
      NextKey(checks, j);
      var more := EnabledKeys(checks[..j + 1]);
      assert checks[j].limit > 0 ==> more[Reached(checks, j)] == checks[j].key;
    }
  }

  /** The read of one enabled check. */
  lemma GetStep(s: State, w: nat, checks: seq<Caps.CapLimit>, n: nat, answered: bool, limit: Caps.Key -> int)
    requires Checks(s, w, checks, limit) && n < |EnabledKeys(checks)|
    requires s.caps.workers[w] == C.Reading(EnabledKeys(checks), n)
    ensures var k, step := EnabledKeys(checks)[n], Command(C.Get(w, answered));
            && Ready(s, step, limit)
            && Do(s, step, limit) ==
               if !answered || C.CounterOf(s.caps.counts, k) >= limit(k)
               then Moved(s, w, Ended(s.calls[w], C.Get(w, answered)), Stopped(s, w))
               else s.(caps := s.caps.(workers := s.caps.workers[w := C.ReadOn(EnabledKeys(checks), n + 1)]))
  {
    hide C.Distinct, C.CounterOf;
    assert s.calls[w := s.calls[w]] == s.calls;
  }

  /** The reading loop from check `j` on. */
  lemma {:induction false} ReadsOn(
    from: State, before: seq<Step>, s: State, w: nat, store: Caps.Store, checks: seq<Caps.CapLimit>, j: nat, now: int,
    f: Caps.Faults, limit: Caps.Key -> int)
    returns (steps: seq<Step>)
    requires Run(from, before, limit) == Some(s) && Checks(s, w, checks, limit) && j <= |checks|
    requires s.caps.workers[w] == C.ReadOn(EnabledKeys(checks), Reached(checks, j))
    requires Matches(s.caps.counts, store, now)
    ensures Run(from, steps, limit) ==
            match Caps.ReadAll(store, checks, j, now, f)
            case Allowed =>
              Some(s.(caps := s.caps.(workers := s.caps.workers[w := C.Adding(EnabledKeys(checks), 0)])))
            case Refused => Some(Moved(s, w, Ended(s.calls[w], C.Get(w, true)), Stopped(s, w)))
            case Failed => Some(Moved(s, w, Resting, Stopped(s, w)))
    decreases |checks| - j
  {
    hide Run, Ready, Do, EnabledKeys, Reached, C.Distinct, C.CounterOf, Caps.Count;
    var request, n := EnabledKeys(checks), Reached(checks, j);
    KeyReached(checks, j);
    if j == |checks| {
      assert s.caps.workers[w := C.Adding(request, 0)] == s.caps.workers;
      steps := before;
    } else if checks[j].limit <= 0 {
      steps := ReadsOn(from, before, s, w, store, checks, j + 1, now, f, limit);
    } else {
      assert checks[j] in checks;
      var get := Command(C.Get(w, !f.get(j)));
      GetStep(s, w, checks, n, !f.get(j), limit);
      var t := Do(s, get, limit);
      steps := Then(from, before, s, get, t, limit);
      if !f.get(j) && Caps.Count(store, checks[j].key, now) < checks[j].limit {
        steps := ReadsOn(from, steps, t, w, store, checks, j + 1, now, f, limit);
        assert t.caps.workers[w := C.Adding(request, 0)] == s.caps.workers[w := C.Adding(request, 0)];
        assert Stopped(t, w) == Stopped(s, w);
      }
    }
  }

  // ----- the incrementing loop -----

  /** Call `w` has its creative allowed. */
  function Granted(s: State, w: nat, request: C.Request, counts: map<Caps.Key, nat>): State
    requires w < |s.calls| == |s.caps.workers| && s.calls[w].Checking? && s.calls[w].next < |s.calls[w].list|
    requires C.Distinct(request)
  {
    var p := s.calls[w];
    Moved(s, w, Recording(Sent(p.subscription, p.list[p.next], p.now)),
          C.State(counts, s.caps.workers[w := C.Idle], C.PlusAll(s.caps.granted, request)))
  }

  function GaveUp(s: State, w: nat, counts: map<Caps.Key, nat>): State
    requires w < |s.calls| == |s.caps.workers|
  {
    Moved(s, w, Resting, C.State(counts, s.caps.workers[w := C.Idle], s.caps.granted))
  }

  lemma ReturnStep(s: State, w: nat, checks: seq<Caps.CapLimit>, limit: Caps.Key -> int)
    requires Checks(s, w, checks, limit)
    requires s.caps.workers[w] == C.Adding(EnabledKeys(checks), |EnabledKeys(checks)|)
    ensures Ready(s, Command(C.Return(w)), limit)
    ensures Do(s, Command(C.Return(w)), limit) == Granted(s, w, EnabledKeys(checks), s.caps.counts)
  {}

  /** What one increment does to the counts, and when the call fails there. */
  lemma AddOneCounts(store: Caps.Store, c: Caps.CapLimit, i: nat, now: int, f: Caps.Faults)
    requires c.ttl.Some? ==> c.ttl.value > 0
    ensures var (v, after) := Caps.AddOne(store, c, i, now, f);
            && (forall k :: Caps.Count(after, k, now) ==
                            Caps.Count(store, k, now) + if k == c.key && f.incr(i) != NotSent then 1 else 0)
            && (v == Caps.Failed <==>
                  || f.incr(i) != Answered
                  || (c.ttl.Some? && Caps.Count(store, c.key, now) == 0 && f.expire(i) != Answered))
  {}

  /** The increment of one enabled check, with the expiry of a new daily counter. */
  lemma AddStep(
    from: State, before: seq<Step>, s: State, w: nat, checks: seq<Caps.CapLimit>, n: nat, c: Caps.CapLimit, i: nat,
    f: Caps.Faults, store: Caps.Store, now: int, limit: Caps.Key -> int)
    returns (steps: seq<Step>, counts: map<Caps.Key, nat>)
    requires Run(from, before, limit) == Some(s) && Checks(s, w, checks, limit) && n < |EnabledKeys(checks)|
    requires s.caps.workers[w] == C.Adding(EnabledKeys(checks), n) && c in checks && EnabledKeys(checks)[n] == c.key
    requires Matches(s.caps.counts, store, now)
    ensures Matches(counts, Caps.AddOne(store, c, i, now, f).1, now)
    ensures Run(from, steps, limit) ==
            if Caps.AddOne(store, c, i, now, f).0 == Caps.Failed then Some(GaveUp(s, w, counts))
            else Some(s.(caps := C.State(counts, s.caps.workers[w := C.Adding(EnabledKeys(checks), n + 1)],
                                         s.caps.granted)))
  {
    hide Run, C.Distinct, Caps.AddOne, Caps.Count;
    AddOneCounts(store, c, i, now, f);
    var added := Command(C.Increment(w, f.incr(i)));
    var t := Do(s, added, limit);
    steps := Then(from, before, s, added, t, limit);
    counts := t.caps.counts;
    assert s.calls[w := s.calls[w]] == s.calls;
    if t.caps.workers[w].Expiring? {
      var expiry := Command(C.SetExpiry(w, f.expire(i) == Answered));
      var u := Do(t, expiry, limit);
      assert u.caps.workers == s.caps.workers[w := u.caps.workers[w]] && u.calls == s.calls[w := u.calls[w]];
      steps := Then(from, steps, t, expiry, u, limit);
    }
  }

  /** The incrementing loop from check `j` on, and the return. */
  lemma {:induction false} AddsOn(
    from: State, before: seq<Step>, s: State, w: nat, store: Caps.Store, checks: seq<Caps.CapLimit>, j: nat, now: int,
    f: Caps.Faults, limit: Caps.Key -> int)
    returns (steps: seq<Step>, counts: map<Caps.Key, nat>)
    requires Run(from, before, limit) == Some(s) && Checks(s, w, checks, limit) && j <= |checks|
    requires s.caps.workers[w] == C.Adding(EnabledKeys(checks), Reached(checks, j))
    requires Matches(s.caps.counts, store, now)
    ensures Matches(counts, Caps.AddAll(store, checks, j, now, f).1, now)
    ensures Run(from, steps, limit) ==
            if Caps.AddAll(store, checks, j, now, f).0 == Caps.Allowed
            then Some(Granted(s, w, EnabledKeys(checks), counts)) else Some(GaveUp(s, w, counts))
    decreases |checks| - j
  {
    hide Run, Ready, Do, EnabledKeys, Reached, C.Distinct, C.CounterOf, C.PlusAll, Caps.Count, Caps.AddOne, Matches;
    KeyReached(checks, j);
    if j == |checks| {
      ReturnStep(s, w, checks, limit);
      counts := s.caps.counts;
      steps := Then(from, before, s, Command(C.Return(w)), Granted(s, w, EnabledKeys(checks), counts), limit);
    } else if checks[j].limit <= 0 {
      steps, counts := AddsOn(from, before, s, w, store, checks, j + 1, now, f, limit);
    } else {
      assert checks[j] in checks;
      steps, counts := AddStep(from, before, s, w, checks, Reached(checks, j), checks[j], j, f, store, now, limit);
      if Caps.AddOne(store, checks[j], j, now, f).0 != Caps.Failed {
        var after := Caps.AddOne(store, checks[j], j, now, f).1;
        var t := s.(caps := C.State(counts, s.caps.workers[w := C.Adding(EnabledKeys(checks), Reached(checks, j + 1))],
                                    s.caps.granted));
        steps, counts := AddsOn(from, steps, t, w, after, checks, j + 1, now, f, limit);
        assert t.caps.workers[w := C.Idle] == s.caps.workers[w := C.Idle];
      }
    }
  }

  // ----- one cap check -----

  /** The call is about to check a creative, alone with its counters. */
  ghost predicate AtCreative(s: State, w: nat, list: seq<Creative>, i: nat, subscription: string) {
    && w < |s.calls| == |s.caps.workers| && i < |list|
    && s.calls[w] == Trying(subscription, list, i) && s.caps.workers[w] == C.Idle
  }

  lemma BeginStep(s: State, w: nat, list: seq<Creative>, i: nat, subscription: string, now: int, limit: Caps.Key -> int)
    requires AtCreative(s, w, list, i, subscription) && Fixed(subscription, list[i], now, limit)
    ensures var checks := Caps.Checks(CapInput(subscription, list[i]), now);
            var t := Moved(s, w, Checking(subscription, list, i, now),
                           s.caps.(workers := s.caps.workers[w := C.ReadOn(EnabledKeys(checks), 0)]));
            && Ready(s, Check(w, now), limit) && Do(s, Check(w, now), limit) == t
            && Checks(t, w, checks, limit) && Reached(checks, 0) == 0
  {
    hide C.Distinct, EnabledKeys;
    var input := CapInput(subscription, list[i]);
    var checks := Caps.Checks(input, now);
    RequestMeaning(subscription, list[i], now);
    CheckReady(s, w, now, limit);
    assert checks[..0] == [] && EnabledKeys([]) == [] by { NothingEnabled(); }
    forall c | c in checks && c.limit > 0 ensures limit(c.key) == c.limit {
      Caps.LimitMeaning(input, now, c.key);
      assert CountsUnder(Sent(subscription, list[i], now), c.key);
    }
  }

  lemma NothingEnabled()
    ensures EnabledKeys([]) == []
  {}

  lemma MovedTwice(t: State, s: State, w: nat, p: Phase, caps: C.State)
    requires w < |s.calls| && exists q, c :: t == Moved(s, w, q, c)
    ensures w < |t.calls| && Moved(t, w, p, caps) == Moved(s, w, p, caps)
  {
    var q, c :| t == Moved(s, w, q, c);
    assert t.calls[w := p] == s.calls[w := p];
  }

  /** One cap check leaves the counters that Allow leaves, and sends the call on as its answer says. */
  lemma CheckAlone(
    from: State, before: seq<Step>, s: State, w: nat, list: seq<Creative>, i: nat, subscription: string,
    store: Caps.Store, now: int, f: Caps.Faults, limit: Caps.Key -> int)
    returns (steps: seq<Step>, caps: C.State)
    requires Run(from, before, limit) == Some(s) && AtCreative(s, w, list, i, subscription)
    requires Fixed(subscription, list[i], now, limit) && Matches(s.caps.counts, store, now)
    ensures caps.workers == s.caps.workers
    ensures var (v, after) := Caps.AllowSpec(store, CapInput(subscription, list[i]), now, f);
            && Matches(caps.counts, after, now) && (v == Caps.Refused ==> caps == s.caps)
            && Run(from, steps, limit) ==
               Some(Moved(s, w, match v
                                case Allowed => Recording(Sent(subscription, list[i], now))
                                case Refused => if i + 1 < |list| then Trying(subscription, list, i + 1) else Resting
                                case Failed => Resting, caps))
  {
    hide Run, Ready, Do, EnabledKeys, Reached, C.Distinct, C.CounterOf, C.PlusAll, Caps.Count, Matches, Fixed;
    hide Caps.ReadAll, Caps.AddAll, Caps.Checks;
    var checks := Caps.Checks(CapInput(subscription, list[i]), now);
    BeginStep(s, w, list, i, subscription, now, limit);
    var t := Do(s, Check(w, now), limit);
    steps := Then(from, before, s, Check(w, now), t, limit);
    steps := ReadsOn(from, steps, t, w, store, checks, 0, now, f, limit);
    assert s.caps.workers[w := C.Idle] == s.caps.workers;
    forall p, c ensures Moved(t, w, p, c) == Moved(s, w, p, c) { MovedTwice(t, s, w, p, c); }
    caps := s.caps;
    if Caps.ReadAll(store, checks, 0, now, f) == Caps.Allowed {
      var u := t.(caps := t.caps.(workers := t.caps.workers[w := C.Adding(EnabledKeys(checks), 0)]));
      var counts;
      steps, counts := AddsOn(from, steps, u, w, store, checks, 0, now, f, limit);
      var granted := if Caps.AddAll(store, checks, 0, now, f).0 == Caps.Allowed
                     then C.PlusAll(s.caps.granted, EnabledKeys(checks)) else s.caps.granted;
      caps := C.State(counts, s.caps.workers, granted);
      assert u.caps.workers[w := C.Idle] == s.caps.workers;
    } else {
      assert Stopped(t, w) == s.caps;
    }
  }

  // ----- the whole call -----

  /** firstAllowedCreative from position `i` on. */
  lemma {:induction false} TriesAlone(
    from: State, before: seq<Step>, s: State, w: nat, list: seq<Creative>, i: nat, subscription: string,
    store: Caps.Store, setup: Setup, env: Env, limit: Caps.Key -> int)
    returns (steps: seq<Step>, caps: C.State, last: nat)
    requires Run(from, before, limit) == Some(s) && AtCreative(s, w, list, i, subscription) && setup.caps
    requires forall j :: i <= j < |list| ==>
               Fixed(subscription, list[j], env.capAt(j), limit) && Matches(s.caps.counts, store, env.capAt(j))
    ensures last < |list| && caps.workers == s.caps.workers
    ensures var (choice, after) := FirstAllowed(store, subscription, list, i, setup, env);
            && Matches(caps.counts, after, env.capAt(last))
            && Run(from, steps, limit) ==
               Some(Moved(s, w, if choice.Chosen?
                                then Recording(Sent(subscription, list[choice.index], env.capAt(choice.index)))
                                else Resting, caps))
    decreases |list| - i
  {
    hide Run, Fixed, Matches, Caps.AllowSpec;
    steps, caps := CheckAlone(from, before, s, w, list, i, subscription, store, env.capAt(i), env.capFaults(i), limit);
    last := i;
    if AllowNth(store, subscription, list[i], i, setup, env).0 == Caps.Refused {
      PayloadRuns.RefusedKeeps(store, subscription, list[i], i, setup, env);
      if i + 1 < |list| {
        var t := Moved(s, w, Trying(subscription, list, i + 1), caps);
        steps, caps, last := TriesAlone(from, steps, t, w, list, i + 1, subscription, store, setup, env, limit);
        forall p, c ensures Moved(t, w, p, c) == Moved(s, w, p, c) { MovedTwice(t, s, w, p, c); }
      }
    }
  }

  /** What the call leaves, by the creative that its caps allow. */
  lemma ByChoice(b: Books, q: Request, setup: Setup, env: Env, list: seq<Creative>)
    requires setup.exposures && setup.decisions && PayloadRuns.Tried(b, q, setup, env, list)
    ensures var (choice, counters) := FirstAllowed(b.counters, q.subscription, list, 0, setup, env);
            var (r, after) := PayloadSpec(b, q, setup, env);
            && after.counters == counters
            && (!choice.Chosen? ==> r.Failed? && after.exposures == b.exposures)
            && (choice.Chosen? ==>
                  var c := list[choice.index];
                  && after.exposures == b.exposures +
                       (if env.expose == NotSent then []
                        else [Exposure(q.subscription, PayloadRuns.SourceOf(q, env), c.campaign, c.id, env.exposeAt)])
                  && (r.Shown? <==> env.expose == Answered && env.decide == Answered)
                  && (r.Shown? ==>
                        && r.payload.subscription == q.subscription
                        && r.payload.campaign == c.campaign && r.payload.creative == c.id))
  {
    hide Eligible, Ordering, FirstAllowed;
  }

  /** A payload call on its own: the interleaved steps leave the exposures and the counters that the call
      leaves as a whole, and return its payload if and only if it does. */
  lemma CallAlone(
    from: State, before: seq<Step>, s: State, w: nat, b: Books, q: Request, setup: Setup, env: Env,
    list: seq<Creative>, limit: Caps.Key -> int)
    returns (steps: seq<Step>, t: State, last: nat)
    requires Run(from, before, limit) == Some(s)
    requires w < |s.calls| == |s.caps.workers| && s.calls[w] == Resting && s.caps.workers[w] == C.Idle
    requires setup.caps && setup.exposures && setup.decisions && PayloadRuns.Tried(b, q, setup, env, list) && list != []
    requires forall j :: 0 <= j < |list| ==>
               Fixed(q.subscription, list[j], env.capAt(j), limit) && Matches(s.caps.counts, b.counters, env.capAt(j))
    requires s.exposures == b.exposures
    ensures Run(from, steps, limit) == Some(t) && t.calls == s.calls && t.caps.workers == s.caps.workers
    ensures var (r, after) := PayloadSpec(b, q, setup, env);
            && t.exposures == after.exposures
            && last < |list| && Matches(t.caps.counts, after.counters, env.capAt(last))
            && (r.Failed? ==> t.sent == s.sent)
            && (r.Shown? ==>
                  && |t.sent| == |s.sent| + 1 && t.sent[..|s.sent|] == s.sent
                  && var x := t.sent[|s.sent|];
                     && x.subscription == r.payload.subscription
                     && x.creative.campaign == r.payload.campaign && x.creative.id == r.payload.creative)
  {
    hide Run, Fixed, Matches, FirstAllowed, PayloadSpec, PayloadRuns.Tried;
    ByChoice(b, q, setup, env, list);
    var take := Take(w, q.subscription, list);
    var taken := Do(s, take, limit);
    steps := Then(from, before, s, take, taken, limit);
    var caps;
    steps, caps, last := TriesAlone(from, steps, taken, w, list, 0, q.subscription, b.counters, setup, env, limit);
    var choice := FirstAllowed(b.counters, q.subscription, list, 0, setup, env).0;
    if choice.Chosen? {
      var x := Sent(q.subscription, list[choice.index], env.capAt(choice.index));
      var chosen := Moved(taken, w, Recording(x), caps);
      steps, t := Records(from, steps, chosen, w, x, PayloadRuns.SourceOf(q, env), env, limit);
    } else {
      t := Moved(taken, w, Resting, caps);
    }
    assert t.calls == s.calls;
  }

  /** The exposure and the decision record of a chosen creative. */
  lemma Records(
    from: State, before: seq<Step>, s: State, w: nat, x: Sent, source: string, env: Env, limit: Caps.Key -> int)
    returns (steps: seq<Step>, t: State)
    requires Run(from, before, limit) == Some(s)
    requires w < |s.calls| == |s.caps.workers| && s.calls[w] == Recording(x)
    ensures Run(from, steps, limit) == Some(t) && t.caps == s.caps && t.calls == s.calls[w := Resting]
    ensures t.exposures == s.exposures + if env.expose == NotSent then []
                                         else [Exposure(x.subscription, source, x.creative.campaign, x.creative.id,
                                                        env.exposeAt)]
    ensures t.sent == s.sent + if env.expose == Answered && env.decide == Answered then [x] else []
  {
    hide Run;
    var expose := Expose(w, source, env.exposeAt, env.expose);
    t := Do(s, expose, limit);
    steps := Then(from, before, s, expose, t, limit);
    if env.expose == Answered {
      var decided := Do(t, Decide(w, env.decide), limit);
      steps := Then(from, steps, t, Decide(w, env.decide), decided, limit);
      assert decided.calls == s.calls[w := Resting];
      t := decided;
    }
  }
}
