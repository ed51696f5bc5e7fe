/** Payload calls that run at the same time (packages/go/subscribers/service.go:697-1033).

    Each call tries its creatives one after the other with cap checks whose Redis commands
    interleave with those of all other calls; an allowed creative is recorded as an exposure and then
    as a decision, and returned. */
module PayloadConcurrency {
  import opened Wrappers
  import opened Counting
  import opened Payload
  import Caps
  import C = CapConcurrency

  /** A creative that passed the caps of a subscription at `now`. */
  datatype Sent = Sent(subscription: string, creative: Creative, now: int)

  datatype Phase =
    | Resting
    | Trying(subscription: string, list: seq<Creative>, next: nat)
    | Checking(subscription: string, list: seq<Creative>, next: nat, now: int)
    | Recording(sent: Sent)
    | Deciding(sent: Sent)

  /** `caps` holds the counters and where the cap check of each call stands, `exposures` the records
      of all calls, and `sent` the payloads that were returned. */
  datatype State = State(caps: C.State, calls: seq<Phase>, exposures: seq<Exposure>, sent: seq<Sent>)

  datatype Step =
    | Take(worker: nat, subscription: string, list: seq<Creative>)
    | Check(worker: nat, now: int)
    | Command(step: C.Step)
    | Expose(worker: nat, source: string, at: int, reply: Reply)
    | Decide(worker: nat, reply: Reply)

  function EnabledKeys(checks: seq<Caps.CapLimit>): (keys: seq<Caps.Key>)
    ensures |keys| <= |checks|
  {
    if checks == [] then []
    else
      var last := checks[|checks| - 1];
      EnabledKeys(checks[..|checks| - 1]) + if last.limit > 0 then [last.key] else []
  }

  /** The enabled checks of one creative, in the order in which Allow visits them. */
  function RequestOf(subscription: string, c: Creative, now: int): C.Request {
    EnabledKeys(Caps.Checks(CapInput(subscription, c), now))
  }

  predicate CountsUnder(x: Sent, k: Caps.Key) {
    Caps.LimitFor(CapInput(x.subscription, x.creative), x.now, k) > 0
  }

  /** The creative carries the limits that hold throughout the run. */
  ghost predicate Fixed(subscription: string, c: Creative, now: int, limit: Caps.Key -> int) {
    forall k :: CountsUnder(Sent(subscription, c, now), k) ==>
      Caps.LimitFor(CapInput(subscription, c), now, k) == limit(k)
  }

  ghost predicate Ready(s: State, step: Step, limit: Caps.Key -> int) {
    |s.calls| == |s.caps.workers| &&
    match step
    case Take(w, _, list) => w < |s.calls| && s.calls[w].Resting? && list != []
    case Check(w, now) =>
      && w < |s.calls| && s.calls[w].Trying? && s.calls[w].next < |s.calls[w].list|
      && s.caps.workers[w].Idle?
      && Fixed(s.calls[w].subscription, s.calls[w].list[s.calls[w].next], now, limit)
    case Command(c) =>
      && c.worker < |s.calls| && s.calls[c.worker].Checking? && s.calls[c.worker].next < |s.calls[c.worker].list|
      && !c.Begin? && C.Ready(s.caps, c, limit)
    case Expose(w, _, _, _) => w < |s.calls| && s.calls[w].Recording?
    case Decide(w, _) => w < |s.calls| && s.calls[w].Deciding?
  }

  /** Where a call stands when its cap check has ended with this command. */
  function Ended(p: Phase, step: C.Step): Phase
    requires p.Checking? && p.next < |p.list|
  {
    match step
    case Return(_) => Recording(Sent(p.subscription, p.list[p.next], p.now))
    case Get(_, true) => if p.next + 1 < |p.list| then Trying(p.subscription, p.list, p.next + 1) else Resting
    case _ => Resting
  }

  /** The command of the cap store that a step runs, if any. */
  ghost function CommandOf(s: State, step: Step, limit: Caps.Key -> int): Option<C.Step>
    requires Ready(s, step, limit)
  {
    match step
    case Check(w, now) => Some(C.Begin(w, RequestOf(s.calls[w].subscription, s.calls[w].list[s.calls[w].next], now)))
    case Command(c) => Some(c)
    case _ => None
  }

  ghost function Do(s: State, step: Step, limit: Caps.Key -> int): State
    requires Ready(s, step, limit)
  {
    match step
    case Take(w, subscription, list) => s.(calls := s.calls[w := Trying(subscription, list, 0)])
    case Check(w, now) =>
      var p := s.calls[w];
      CheckReady(s, w, now, limit);
      s.(caps := C.Do(s.caps, CommandOf(s, step, limit).value, limit),
         calls := s.calls[w := Checking(p.subscription, p.list, p.next, now)])
    case Command(c) =>
      var caps := C.Do(s.caps, c, limit);
      var p := s.calls[c.worker];
      s.(caps := caps, calls := s.calls[c.worker := if caps.workers[c.worker].Idle? then Ended(p, c) else p])
    case Expose(w, source, at, reply) =>
      var x := s.calls[w].sent;
      s.(calls := s.calls[w := if reply == Answered then Deciding(x) else Resting],
         exposures := if reply == NotSent then s.exposures else s.exposures + [ExposureOf(x, source, at)])
    case Decide(w, reply) =>
      s.(calls := s.calls[w := Resting], sent := if reply == Answered then s.sent + [s.calls[w].sent] else s.sent)
  }

  function ExposureOf(x: Sent, source: string, at: int): Exposure {
    Exposure(x.subscription, source, x.creative.campaign, x.creative.id, at)
  }

  lemma CheckReady(s: State, w: nat, now: int, limit: Caps.Key -> int)
    requires Ready(s, Check(w, now), limit)
    ensures C.Ready(s.caps, CommandOf(s, Check(w, now), limit).value, limit)
  {
    var p := s.calls[w];
    RequestMeaning(p.subscription, p.list[p.next], now);
    forall k | k in RequestOf(p.subscription, p.list[p.next], now) ensures limit(k) > 0 {
      assert CountsUnder(Sent(p.subscription, p.list[p.next], now), k);
    }
  }

  /** Some enabled check has this key. */
  predicate Enables(checks: seq<Caps.CapLimit>, k: Caps.Key) {
    exists i :: 0 <= i < |checks| && checks[i].key == k && checks[i].limit > 0
  }

  lemma EnablesMore(front: seq<Caps.CapLimit>, last: Caps.CapLimit, k: Caps.Key)
    ensures Enables(front + [last], k) <==> Enables(front, k) || (last.key == k && last.limit > 0)
  {
    var checks := front + [last];
    assert checks[|front|] == last;
    if Enables(front, k) {
      var i :| 0 <= i < |front| && front[i].key == k && front[i].limit > 0;
      assert checks[i] == front[i];
    }
  }

  lemma {:induction false} EnabledKeysMeaning(checks: seq<Caps.CapLimit>)
    requires forall i, j :: 0 <= i < j < |checks| ==> checks[i].key != checks[j].key
    ensures C.Distinct(EnabledKeys(checks))
    ensures forall k :: k in EnabledKeys(checks) <==> Enables(checks, k)
  {
    if checks == [] {
    } else {
      var front, last := checks[..|checks| - 1], checks[|checks| - 1];
      EnabledKeysMeaning(front);
      assert checks == front + [last] && !Enables(front, last.key);
      hide Enables;
      forall k { EnablesMore(front, last, k); }
    }
  }

  lemma RequestMeaning(subscription: string, c: Creative, now: int)
    ensures C.Distinct(RequestOf(subscription, c, now))
    ensures forall k :: k in RequestOf(subscription, c, now) <==> CountsUnder(Sent(subscription, c, now), k)
  {
    hide EnabledKeys;
    var input := CapInput(subscription, c);
    var checks := Caps.Checks(input, now);
    EnabledKeysMeaning(checks);
    forall k ensures k in RequestOf(subscription, c, now) <==> CountsUnder(Sent(subscription, c, now), k) {
      if CountsUnder(Sent(subscription, c, now), k) {
        var j := Caps.PositionOf(input, now, k);
        assert Enables(checks, k);
      } else {
        forall i | 0 <= i < |checks| && checks[i].key == k ensures checks[i].limit <= 0 {
          assert i in {0, 1, 2, 3};
        }
      }
    }
  }

  ghost function Start(workers: nat): State {
    State(C.Start(workers), seq(workers, _ => Resting), [], [])
  }

  ghost function Run(from: State, steps: seq<Step>, limit: Caps.Key -> int): Option<State> {
    if steps == [] then Some(from)
    else
      match Run(from, steps[..|steps| - 1], limit)
      case Some(s) =>
        if Ready(s, steps[|steps| - 1], limit) then Some(Do(s, steps[|steps| - 1], limit)) else None
      case None => None
  }

  // ----- the cap checks of a run are a run of the cap store -----

  /** The commands that the steps of a run send to the cap store. */
  ghost function Commands(from: State, steps: seq<Step>, limit: Caps.Key -> int): seq<C.Step>
    requires Run(from, steps, limit).Some?
  {
    if steps == [] then []
    else
      var c := CommandOf(Run(from, steps[..|steps| - 1], limit).value, steps[|steps| - 1], limit);
      Commands(from, steps[..|steps| - 1], limit) + if c.Some? then [c.value] else []
  }

  lemma StepCommands(s: State, step: Step, limit: Caps.Key -> int)
    requires Ready(s, step, limit)
    ensures match CommandOf(s, step, limit)
            case None => Do(s, step, limit).caps == s.caps
            case Some(c) => C.Ready(s.caps, c, limit) && Do(s, step, limit).caps == C.Do(s.caps, c, limit)
  {
    hide C.Ready, C.Do, Fixed;
    if step.Check? { CheckReady(s, step.worker, step.now, limit); }
  }

  lemma {:induction false} CommandsRun(from: State, steps: seq<Step>, limit: Caps.Key -> int)
    requires Run(from, steps, limit).Some?
    ensures C.Run(from.caps, Commands(from, steps, limit), limit) == Some(Run(from, steps, limit).value.caps)
  {
    hide Ready, Do, C.Ready, C.Do;
    if steps == [] {
    } else {
      CommandsRun(from, steps[..|steps| - 1], limit);
      var s := Run(from, steps[..|steps| - 1], limit).value;
      StepCommands(s, steps[|steps| - 1], limit);
      var base := Commands(from, steps[..|steps| - 1], limit);
      var c := CommandOf(s, steps[|steps| - 1], limit);
      if c.Some? { assert (base + [c.value])[..|base|] == base; } else { assert base + [] == base; }
    }
  }

  // ----- payloads and grants -----

  predicate Promised(p: Phase, k: Caps.Key) {
    (p.Recording? || p.Deciding?) && CountsUnder(p.sent, k)
  }

  /** The payloads that count under `k`. */
  function SentUnder(s: State, k: Caps.Key): nat {
    CountIf(s.sent, x => CountsUnder(x, k))
  }

  function PromisedUnder(s: State, k: Caps.Key): nat {
    CountIf(s.calls, p => Promised(p, k))
  }

  /** A cap check runs exactly while its call waits for it, for the creative the call has reached. */
  predicate InStep(p: Phase, w: C.Phase) {
    if p.Checking? then !w.Idle? && p.next < |p.list| && w.request == RequestOf(p.subscription, p.list[p.next], p.now)
    else w.Idle?
  }

  ghost predicate Inv(s: State, k: Caps.Key) {
    && |s.calls| == |s.caps.workers|
    && (forall w :: 0 <= w < |s.calls| ==> InStep(s.calls[w], s.caps.workers[w]))
    && SentUnder(s, k) + PromisedUnder(s, k) <= C.CounterOf(s.caps.granted, k)
  }

  lemma StepKeepsInv(s: State, step: Step, limit: Caps.Key -> int, k: Caps.Key)
    requires Ready(s, step, limit) && Inv(s, k)
    ensures Inv(Do(s, step, limit), k)
  {
    hide CountsUnder, RequestOf, Fixed, C.Ready, C.Do;
    var t := Do(s, step, limit);
    var w := if step.Command? then step.step.worker else step.worker;
    StepCommands(s, step, limit);
    CountUpdated(s.calls, w, t.calls[w], p => Promised(p, k));
    match step
    case Take(_, _, _) =>
    case Check(_, now) => CheckMove(s, w, now, limit);
    case Command(c) => CommandMove(s, c, limit, k);
    case Expose(_, _, _, _) =>
    case Decide(_, reply) =>
      if reply == Answered { CountAppend(s.sent, s.calls[w].sent, x => CountsUnder(x, k)); }
  }

  lemma CheckMove(s: State, w: nat, now: int, limit: Caps.Key -> int)
    requires Ready(s, Check(w, now), limit)
    ensures var c := CommandOf(s, Check(w, now), limit).value;
            && C.Ready(s.caps, c, limit)
            && var after := C.Do(s.caps, c, limit);
               && after.granted == s.caps.granted && |after.workers| == |s.caps.workers|
               && !after.workers[w].Idle? && after.workers[w].request == c.request
               && forall v :: 0 <= v < |s.caps.workers| && v != w ==> after.workers[v] == s.caps.workers[v]
  {
    hide Fixed, RequestOf;
    CheckReady(s, w, now, limit);
  }

  /** What one command of a cap check does to the grants and to its worker. */
  lemma CommandMove(s: State, c: C.Step, limit: Caps.Key -> int, k: Caps.Key)
    requires Ready(s, Command(c), limit) && InStep(s.calls[c.worker], s.caps.workers[c.worker])
    ensures var after := C.Do(s.caps, c, limit);
            var p := s.calls[c.worker];
            && |after.workers| == |s.caps.workers|
            && (!after.workers[c.worker].Idle? ==>
                  after.workers[c.worker].request == s.caps.workers[c.worker].request && !c.Return?)
            && (c.Return? ==> after.workers[c.worker].Idle?)
            && (forall v :: 0 <= v < |s.caps.workers| && v != c.worker ==> after.workers[v] == s.caps.workers[v])
            && C.CounterOf(after.granted, k) ==
               C.CounterOf(s.caps.granted, k) +
               if c.Return? && CountsUnder(Sent(p.subscription, p.list[p.next], p.now), k) then 1 else 0
  {
    hide RequestOf, CountsUnder, C.CounterOf;
    var p := s.calls[c.worker];
    RequestMeaning(p.subscription, p.list[p.next], p.now);
  }

  lemma {:induction false} InvHolds(from: State, steps: seq<Step>, limit: Caps.Key -> int, k: Caps.Key)
    requires Inv(from, k) && Run(from, steps, limit).Some?
    ensures Inv(Run(from, steps, limit).value, k)
  {
    hide Inv, Ready, Do;
    if steps == [] {
    } else {
      InvHolds(from, steps[..|steps| - 1], limit, k);
      StepKeepsInv(Run(from, steps[..|steps| - 1], limit).value, steps[|steps| - 1], limit, k);
    }
  }

  /** With that many calls in flight, whatever interleaving and whatever fails, the payloads that
      count under a capped key exceed its limit by less than the number of calls. */
  lemma PayloadsWithinCap(workers: nat, steps: seq<Step>, limit: Caps.Key -> int, k: Caps.Key)
    requires workers > 0 && limit(k) > 0 && Run(Start(workers), steps, limit).Some?
    ensures SentUnder(Run(Start(workers), steps, limit).value, k) <= limit(k) + workers - 1
  {
    hide Run, C.Run, Commands;
    CountNone(Start(workers).calls, p => Promised(p, k));
    InvHolds(Start(workers), steps, limit, k);
    CommandsRun(Start(workers), steps, limit);
    C.OvershootBound(workers, Commands(Start(workers), steps, limit), limit, k);
  }

  // ----- the bound is met -----

  lemma {:induction false} RunAppend(from: State, a: seq<Step>, b: seq<Step>, limit: Caps.Key -> int)
    requires Run(from, a, limit).Some?
    ensures Run(from, a + b, limit) == Run(Run(from, a, limit).value, b, limit)
  {
    hide Ready, Do;
    if b == [] {
      assert a + b == a;
    } else {
      RunAppend(from, a, b[..|b| - 1], limit);
      assert (a + b)[..|a + b| - 1] == a + b[..|b| - 1];
    }
  }

  lemma One(s: State, step: Step, limit: Caps.Key -> int)
    requires Ready(s, step, limit)
    ensures Run(s, [step], limit) == Some(Do(s, step, limit))
  {
    hide Ready, Do;
    assert [step][..0] == [];
    assert Run(s, [step][..0], limit) == Some(s);
  }

  lemma Two(s: State, one: Step, two: Step, limit: Caps.Key -> int)
    requires Ready(s, one, limit) && Ready(Do(s, one, limit), two, limit)
    ensures Run(s, [one, two], limit) == Some(Do(Do(s, one, limit), two, limit))
  {
    hide Ready, Do;
    assert [one, two][..1] == [one];
    One(s, one, limit);
  }

  /** Every call tries the creative `c` alone; a call that does not check caps rests. */
  ghost predicate Alone(s: State, caps: C.State, subscription: string, c: Creative, now: int, k: Caps.Key) {
    && s.caps == caps && |s.calls| == |caps.workers|
    && (forall w :: 0 <= w < |s.calls| ==>
          if caps.workers[w].Idle? then s.calls[w] == Resting
          else s.calls[w] == Checking(subscription, [c], 0, now) && caps.workers[w].request == [k])
    && SentUnder(s, k) == C.CounterOf(caps.granted, k)
  }

  /** Every command of a cap check of `k` alone is part of a payload call. */
  lemma LiftStep(s: State, step: C.Step, limit: Caps.Key -> int, subscription: string, c: Creative, now: int,
                 k: Caps.Key)
    returns (steps: seq<Step>)
    requires RequestOf(subscription, c, now) == [k] && Fixed(subscription, c, now, limit)
    requires Alone(s, s.caps, subscription, c, now, k) && C.Ready(s.caps, step, limit)
    requires step.Begin? ==> step.request == [k]
    ensures Run(s, steps, limit).Some?
    ensures Alone(Run(s, steps, limit).value, C.Do(s.caps, step, limit), subscription, c, now, k)
  {
    hide Run, RequestOf, CountsUnder, Fixed;
    var w := step.worker;
    if step.Begin? {
      var one := Do(s, Take(w, subscription, [c]), limit);
      assert one.calls[w] == Trying(subscription, [c], 0);
      steps := [Take(w, subscription, [c]), Check(w, now)];
      Two(s, steps[0], steps[1], limit);
    } else if step.Return? {
      steps := Recorded(step);
      LiftReturn(s, step, limit, subscription, c, now, k);
    } else {
      steps := [Command(step)];
      One(s, steps[0], limit);
    }
  }

  /** The steps from the end of a cap check to the payload. */
  function Recorded(step: C.Step): seq<Step> {
    [Command(step), Expose(step.worker, "", 0, Answered)] + [Decide(step.worker, Answered)]
  }

  lemma RecordedState(s: State, step: C.Step, limit: Caps.Key -> int)
    requires step.Return? && Ready(s, Command(step), limit)
    ensures var p := s.calls[step.worker];
            var x := Sent(p.subscription, p.list[p.next], p.now);
            Run(s, Recorded(step), limit) ==
            Some(State(C.Do(s.caps, step, limit), s.calls[step.worker := Resting],
                       s.exposures + [ExposureOf(x, "", 0)], s.sent + [x]))
  {
    hide Run;
    var w := step.worker;
    var returned := Do(s, Command(step), limit);
    var exposed := Do(returned, Expose(w, "", 0, Answered), limit);
    Two(s, Command(step), Expose(w, "", 0, Answered), limit);
    One(exposed, Decide(w, Answered), limit);
    RunAppend(s, [Command(step), Expose(w, "", 0, Answered)], [Decide(w, Answered)], limit);
    assert Do(exposed, Decide(w, Answered), limit).calls == s.calls[w := Resting];
  }

  lemma LiftReturn(s: State, step: C.Step, limit: Caps.Key -> int, subscription: string, c: Creative, now: int,
                   k: Caps.Key)
    requires RequestOf(subscription, c, now) == [k] && step.Return?
    requires Alone(s, s.caps, subscription, c, now, k) && C.Ready(s.caps, step, limit)
    ensures var t := Run(s, Recorded(step), limit);
            t.Some? && Alone(t.value, C.Do(s.caps, step, limit), subscription, c, now, k)
  {
    hide Run, RequestOf, CountsUnder, Fixed, Recorded;
    var x := Sent(subscription, c, now);
    RequestMeaning(subscription, c, now);
    assert k in [k] && CountsUnder(x, k);
    RecordedState(s, step, limit);
    hide C.Do, C.Ready, Do;
    CountAppend(s.sent, x, y => CountsUnder(y, k));
  }

  lemma {:induction false} Lift(workers: nat, commands: seq<C.Step>, limit: Caps.Key -> int, subscription: string,
                                c: Creative, now: int, k: Caps.Key)
    returns (steps: seq<Step>)
    requires RequestOf(subscription, c, now) == [k] && Fixed(subscription, c, now, limit)
    requires C.Run(C.Start(workers), commands, limit).Some? && C.OnlyAsks(commands, k)
    ensures Run(Start(workers), steps, limit).Some?
    ensures Alone(Run(Start(workers), steps, limit).value, C.Run(C.Start(workers), commands, limit).value,
                  subscription, c, now, k)
  {
    hide Run, Alone, C.Ready, C.Do, RequestOf, Fixed;
    if commands == [] {
      steps := [];
      StartAlone(workers, limit, subscription, c, now, k);
    } else {
      var n := |commands| - 1;
      var a := Lift(workers, commands[..n], limit, subscription, c, now, k);
      var s := Run(Start(workers), a, limit).value;
      AloneCaps(s, C.Run(C.Start(workers), commands[..n], limit).value, subscription, c, now, k);
      var b := LiftStep(s, commands[n], limit, subscription, c, now, k);
      RunAppend(Start(workers), a, b, limit);
      steps := a + b;
    }
  }

  lemma StartAlone(workers: nat, limit: Caps.Key -> int, subscription: string, c: Creative, now: int, k: Caps.Key)
    ensures Run(Start(workers), [], limit) == Some(Start(workers))
    ensures Alone(Start(workers), C.Start(workers), subscription, c, now, k)
  {}

  lemma AloneCaps(s: State, caps: C.State, subscription: string, c: Creative, now: int, k: Caps.Key)
    requires Alone(s, caps, subscription, c, now, k)
    ensures s.caps == caps && Alone(s, s.caps, subscription, c, now, k)
  {}

  /** The bound is exact: calls that all try a creative whose only cap is `k` can return that many
      payloads. */
  lemma PayloadBoundReached(workers: nat, limit: Caps.Key -> int, subscription: string, c: Creative, now: int,
                            k: Caps.Key)
    returns (steps: seq<Step>)
    requires workers > 0 && RequestOf(subscription, c, now) == [k] && Fixed(subscription, c, now, limit)
    ensures Run(Start(workers), steps, limit).Some?
    ensures SentUnder(Run(Start(workers), steps, limit).value, k) == limit(k) + workers - 1
  {
    hide Run, C.Run, RequestOf, Caps.LimitFor;
    RequestMeaning(subscription, c, now);
    assert k in [k] && CountsUnder(Sent(subscription, c, now), k);
    var commands := C.OvershootReached(workers, limit, k);
    steps := Lift(workers, commands, limit, subscription, c, now, k);
  }
}
