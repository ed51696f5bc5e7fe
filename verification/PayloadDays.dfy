/** Payload calls that overlap while daily counters expire: packages/go/subscribers/service.go:697-1063
    over packages/go/subscribers/redis_cap_store.go:70-96, 172-185.

    The calls take the steps of RotationConcurrency.  The Redis commands of their cap checks run at
    instants of their own, and counters expire as in CapDays. */
module PayloadDays {
  import opened Wrappers
  import opened Counting
  import opened Payload
  import C = CapConcurrency
  import Caps
  import D = CapDays
  import P = PayloadConcurrency
  import Q = RotationConcurrency

  datatype State = State(
    pay: P.State,
    now: int,
    clocks: seq<int>,
    expiry: map<Caps.Key, int>,
    drops: map<Caps.Key, nat>)

  /** `at` and `sets` are those of the command that the step runs, if any. */
  datatype Step =
    | Pay(step: P.Step, at: int, sets: bool)
    | Drop(key: Caps.Key, at: int)

  /** The cap store. */
  function Store(s: State): D.State {
    D.State(s.pay.caps, s.now, s.clocks, s.expiry, s.drops)
  }

  /** The clock of a cap check is read when it begins. */
  ghost predicate Ready(s: State, step: Step, e: Q.Scene, mode: Q.Mode, limit: Caps.Key -> int) {
    && s.now <= step.at && |s.clocks| == |s.pay.caps.workers|
    && match step
       case Pay(p, at, sets) =>
         && Q.Ready(s.pay, p, e, mode, limit)
         && (p.Check? ==> p.now == at)
         && (p.Command? && p.step.SetExpiry? && p.step.answered ==> sets)
       case Drop(k, at) => k in s.expiry && s.expiry[k] <= at
  }

  /** What the step does to the cap store, if anything. */
  ghost function OnStore(s: State, step: Step, e: Q.Scene, mode: Q.Mode, limit: Caps.Key -> int): Option<D.Step>
    requires Ready(s, step, e, mode, limit)
  {
    match step
    case Pay(p, at, sets) =>
      (match P.CommandOf(s.pay, p, limit)
       case Some(c) => Some(D.Act(c, at, sets))
       case None => None)
    case Drop(k, at) => Some(D.Drop(k, at))
  }

  ghost function Do(s: State, step: Step, e: Q.Scene, mode: Q.Mode, limit: Caps.Key -> int): State
    requires Ready(s, step, e, mode, limit)
  {
    var c := OnStore(s, step, e, mode, limit);
    StoreReady(s, step, e, mode, limit);
    var d := if c.Some? then D.Do(Store(s), c.value, limit) else Store(s);
    var pay := if step.Pay? then P.Do(s.pay, step.step, limit) else s.pay.(caps := d.caps);
    State(pay, d.now, d.clocks, d.expiry, d.drops)
  }

  /** The step of a payload call is one that the cap store can take. */
  lemma StoreReady(s: State, step: Step, e: Q.Scene, mode: Q.Mode, limit: Caps.Key -> int)
    requires Ready(s, step, e, mode, limit)
    ensures OnStore(s, step, e, mode, limit).Some? ==>
              D.Ready(Store(s), OnStore(s, step, e, mode, limit).value, limit)
  {
    hide C.Ready, P.RequestOf, P.Fixed, D.Dated, Q.Looked, Q.InFlight;
    if step.Pay? {
      P.StepCommands(s.pay, step.step, limit);
      if step.step.Check? {
        var p := s.pay.calls[step.step.worker];
        DatedRequest(p.subscription, p.list[p.next], step.at);
      }
    }
  }

  lemma DatedRequest(subscription: string, c: Creative, now: int)
    ensures D.Dated(P.RequestOf(subscription, c, now), now)
  {
    hide P.EnabledKeys;
    var request := P.RequestOf(subscription, c, now);
    P.RequestMeaning(subscription, c, now);
    forall i | 0 <= i < |request| && Caps.Daily(request[i]) ensures request[i].day == Caps.DayOf(now) {
      assert request[i] in request;
    }
  }

  ghost function Start(workers: nat, now: int): State {
    State(P.Start(workers), now, seq(workers, _ => now), map[], map[])
  }

  ghost function Run(from: State, steps: seq<Step>, e: Q.Scene, mode: Q.Mode, limit: Caps.Key -> int): Option<State> {
    if steps == [] then Some(from)
    else
      match Run(from, steps[..|steps| - 1], e, mode, limit)
      case Some(s) =>
        var step := steps[|steps| - 1];
        if Ready(s, step, e, mode, limit) then Some(Do(s, step, e, mode, limit)) else None
      case None => None
  }

  ghost predicate Inv(s: State, e: Q.Scene, most: nat, limit: Caps.Key -> int, k: Caps.Key)
    requires Caps.Daily(k)
  {
    && D.GrantInv(Store(s), limit, k) && D.TimeInv(Store(s), limit, k)
    && P.Inv(s.pay, k) && Q.Inv(s.pay, e, most)
  }

  lemma StepKeepsInv(s: State, step: Step, e: Q.Scene, mode: Q.Mode, limit: Caps.Key -> int, k: Caps.Key)
    requires Q.GoodScene(e) && Caps.Daily(k) && limit(k) > 0
    requires Ready(s, step, e, mode, limit) && Inv(s, e, mode.most, limit, k)
    ensures var t := Do(s, step, e, mode, limit);
            Inv(t, e, mode.most, limit, k) && |t.pay.caps.workers| == |s.pay.caps.workers|
  {
    hide D.GrantInv, D.TimeInv, D.Ready, D.Do, Q.GoodScene, Q.Inv, P.Inv, P.Ready, P.Do, C.Do;
    var c, t := OnStore(s, step, e, mode, limit), Do(s, step, e, mode, limit);
    StoreReady(s, step, e, mode, limit);
    if c.Some? { D.StepKeepsBoth(Store(s), c.value, limit, k); }
    match step
    case Pay(p, _, _) =>
      P.StepKeepsInv(s.pay, p, limit, k);
      Q.StepKeepsInv(s.pay, p, e, mode, limit);
      SameStore(s, step, e, mode, limit);
    case Drop(j, at) => DropKeepsPayloads(s, j, at, e, mode, limit, k);
  }

  /** Both sides of a step agree on the cap store. */
  lemma SameStore(s: State, step: Step, e: Q.Scene, mode: Q.Mode, limit: Caps.Key -> int)
    requires Ready(s, step, e, mode, limit)
    ensures var c, t := OnStore(s, step, e, mode, limit), Do(s, step, e, mode, limit);
            && (c.Some? ==> D.Ready(Store(s), c.value, limit) && Store(t) == D.Do(Store(s), c.value, limit))
            && (c.None? ==> Store(t) == Store(s))
  {
    hide C.Ready, C.Do, P.Fixed, P.RequestOf, Q.Looked, Q.InFlight;
    StoreReady(s, step, e, mode, limit);
    if step.Pay? { P.StepCommands(s.pay, step.step, limit); }
  }

  lemma DropKeepsPayloads(
    s: State, j: Caps.Key, at: int, e: Q.Scene, mode: Q.Mode, limit: Caps.Key -> int, k: Caps.Key)
    requires Ready(s, Drop(j, at), e, mode, limit) && P.Inv(s.pay, k) && Q.Inv(s.pay, e, mode.most)
    ensures var t := Do(s, Drop(j, at), e, mode, limit);
            && P.Inv(t.pay, k) && Q.Inv(t.pay, e, mode.most) && Store(t) == D.Do(Store(s), D.Drop(j, at), limit)
  {
    hide Q.Rotates, Q.Recent, Q.Times, Q.Holds, Q.OnEligible, P.InStep;
  }

  lemma {:induction false} RunKeepsInv(
    from: State, steps: seq<Step>, e: Q.Scene, mode: Q.Mode, limit: Caps.Key -> int, k: Caps.Key)
    requires Q.GoodScene(e) && Caps.Daily(k) && limit(k) > 0
    requires Inv(from, e, mode.most, limit, k) && Run(from, steps, e, mode, limit).Some?
    ensures var s := Run(from, steps, e, mode, limit).value;
            Inv(s, e, mode.most, limit, k) && |s.pay.caps.workers| == |from.pay.caps.workers|
  {
    hide Inv, Ready, Do, Q.GoodScene;
    if steps == [] {
    } else {
      RunKeepsInv(from, steps[..|steps| - 1], e, mode, limit, k);
      StepKeepsInv(Run(from, steps[..|steps| - 1], e, mode, limit).value, steps[|steps| - 1], e, mode, limit, k);
    }
  }

  lemma StartInv(workers: nat, now: int, e: Q.Scene, most: nat, limit: Caps.Key -> int, k: Caps.Key)
    requires workers > 0 && Caps.Daily(k) && limit(k) > 0
    ensures Inv(Start(workers, now), e, most, limit, k)
  {
    hide Q.Inv;
    D.StartInv(workers, now, limit, k);
    Q.FromInv(workers, [], e, most);
    CountNone(P.Start(workers).calls, p => P.Promised(p, k));
  }

  /** With P calls in flight at most twice limit + P - 1 payloads count under a daily key until its
      UTC day is over, and creatives rotate, whatever interleaving, delays, expiries and failures. */
  lemma RotatedAndDayCapped(workers: nat, now: int, steps: seq<Step>, e: Q.Scene, mode: Q.Mode,
                            limit: Caps.Key -> int, k: Caps.Key)
    requires Q.GoodScene(e) && workers > 0 && Caps.Daily(k) && limit(k) > 0
    requires Run(Start(workers, now), steps, e, mode, limit).Some?
    ensures var s := Run(Start(workers, now), steps, e, mode, limit).value;
            && Q.Rotates(s.pay.exposures, e, mode.most)
            && (s.now <= D.DayEnd(k) ==> P.SentUnder(s.pay, k) <= 2 * (limit(k) + workers - 1))
  {
    hide Run, Q.GoodScene, Q.Rotates;
    StartInv(workers, now, e, mode.most, limit, k);
    RunKeepsInv(Start(workers, now), steps, e, mode, limit, k);
  }
}
