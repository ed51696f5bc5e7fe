/** RedisCapStore.Allow run by P workers at once (packages/go/subscribers/redis_cap_store.go:70-96).

    Only a single Redis command is atomic: every GET, INCR and EXPIRE is a step of its own, and
    the steps of the workers interleave in any order.  Counters do not expire here. */
module CapConcurrency {
  import opened Wrappers
  import opened Caps
  import opened Counting

  /** The enabled checks of one call, in the order in which Allow visits them. */
  type Request = seq<Key>

  datatype Phase =
    | Idle
    | Reading(request: Request, next: nat)
    | Adding(request: Request, next: nat)
    | Expiring(request: Request, next: nat)

  /** Counters, workers, and per key the number of calls that returned true. */
  datatype State = State(counts: map<Key, nat>, workers: seq<Phase>, granted: map<Key, nat>)

  datatype Step =
    | Begin(worker: nat, request: Request)
    | Get(worker: nat, answered: bool)
    | Increment(worker: nat, reply: Reply)
    | SetExpiry(worker: nat, answered: bool)
    | Return(worker: nat)

  function CounterOf(m: map<Key, nat>, k: Key): nat {
    if k in m then m[k] else 0
  }

  function Plus(m: map<Key, nat>, k: Key): (r: map<Key, nat>)
    ensures CounterOf(r, k) == CounterOf(m, k) + 1
    ensures forall j :: j != k ==> CounterOf(r, j) == CounterOf(m, j)
  {
    m[k := CounterOf(m, k) + 1]
  }

  function PlusAll(m: map<Key, nat>, ks: seq<Key>): (r: map<Key, nat>)
    requires Distinct(ks)
    ensures forall k :: CounterOf(r, k) == CounterOf(m, k) + if k in ks then 1 else 0
  {
    if ks == [] then m
    else
      var front := ks[..|ks| - 1];
      assert ks == front + [ks[|ks| - 1]];
      Plus(PlusAll(m, front), ks[|ks| - 1])
  }

  predicate Distinct(ks: seq<Key>) {
    forall i, j :: 0 <= i < j < |ks| ==> ks[i] != ks[j]
  }

  /** The limits are fixed; a request names enabled keys, each once. */
  ghost predicate GoodRequest(request: Request, limit: Key -> int) {
    Distinct(request) && forall k :: k in request ==> limit(k) > 0
  }

  ghost predicate Ready(s: State, step: Step, limit: Key -> int) {
    && step.worker < |s.workers|
    && var p := s.workers[step.worker];
       match step
       case Begin(_, request) => p.Idle? && GoodRequest(request, limit)
       case Get(_, _) => p.Reading? && p.next < |p.request|
       case Increment(_, _) => p.Adding? && p.next < |p.request|
       case SetExpiry(_, _) => p.Expiring? && p.next < |p.request|
       case Return(_) => p.Adding? && p.next == |p.request| && Distinct(p.request)
  }

  /** After check `next - 1` was read: the next check, or the incrementing loop. */
  function ReadOn(request: Request, next: nat): Phase {
    if next < |request| then Reading(request, next) else Adding(request, 0)
  }

  ghost function Do(s: State, step: Step, limit: Key -> int): State
    requires Ready(s, step, limit)
  {
    var w := step.worker;
    var p := s.workers[w];
    match step
    case Begin(_, request) => s.(workers := s.workers[w := ReadOn(request, 0)])
    case Get(_, answered) =>
      if !answered || CounterOf(s.counts, p.request[p.next]) >= limit(p.request[p.next])
      then s.(workers := s.workers[w := Idle])
      else s.(workers := s.workers[w := ReadOn(p.request, p.next + 1)])
    case Increment(_, reply) =>
      if reply == NotSent then s.(workers := s.workers[w := Idle])
      else
        var k := p.request[p.next];
        var counts := Plus(s.counts, k);
        State(counts,
              s.workers[w := if reply == AnswerLost then Idle
                             else if counts[k] == 1 && Daily(k) then Expiring(p.request, p.next)
                             else Adding(p.request, p.next + 1)],
              s.granted)
    case SetExpiry(_, answered) =>
      s.(workers := s.workers[w := if answered then Adding(p.request, p.next + 1) else Idle])
    case Return(_) =>
      s.(workers := s.workers[w := Idle], granted := PlusAll(s.granted, p.request))
  }

  ghost function Start(workers: nat): State {
    State(map[], seq(workers, _ => Idle), map[])
  }

  /** The state after `steps`, if each of them could be taken. */
  ghost function Run(from: State, steps: seq<Step>, limit: Key -> int): Option<State> {
    if steps == [] then Some(from)
    else
      match Run(from, steps[..|steps| - 1], limit)
      case Some(s) =>
        if Ready(s, steps[|steps| - 1], limit) then Some(Do(s, steps[|steps| - 1], limit)) else None
      case None => None
  }

  // ----- the invariant -----

  /** This worker saw room under `k` and has not incremented it yet. */
  predicate Pending(p: Phase, k: Key) {
    match p
    case Idle => false
    case Reading(request, next) => next <= |request| && k in request[..next]
    case Adding(request, next) => next <= |request| && k in request[next..]
    case Expiring(request, next) => next < |request| && k in request[next + 1..]
  }

  /** This worker has incremented `k` in a call that is still running. */
  predicate Added(p: Phase, k: Key) {
    match p
    case Idle => false
    case Reading(request, next) => false
    case Adding(request, next) => next <= |request| && k in request[..next]
    case Expiring(request, next) => next < |request| && k in request[..next + 1]
  }

  ghost predicate GoodPhase(p: Phase, limit: Key -> int) {
    p.Idle? || (GoodRequest(p.request, limit) && p.next <= |p.request| &&
                (p.Adding? || p.next < |p.request|))
  }

  function PendingOn(s: State, k: Key): nat {
    CountIf(s.workers, p => Pending(p, k))
  }

  function AddedOn(s: State, k: Key): nat {
    CountIf(s.workers, p => Added(p, k))
  }

  /** One key's share of the invariant. */
  ghost predicate KeyInv(s: State, limit: Key -> int, k: Key) {
    && (limit(k) > 0 ==> CounterOf(s.counts, k) + PendingOn(s, k) <= limit(k) + |s.workers| - 1)
    && (limit(k) <= 0 ==> CounterOf(s.counts, k) == 0)
    && CounterOf(s.granted, k) + AddedOn(s, k) <= CounterOf(s.counts, k)
  }

  ghost predicate Inv(s: State, limit: Key -> int) {
    && (forall w :: 0 <= w < |s.workers| ==> GoodPhase(s.workers[w], limit))
    && (forall k :: KeyInv(s, limit, k))
  }

  lemma StepKeepsKeyInv(s: State, step: Step, limit: Key -> int, k: Key)
    requires Ready(s, step, limit) && Inv(s, limit)
    ensures KeyInv(Do(s, step, limit), limit, k)
  {
    assert KeyInv(s, limit, k);
    var t := Do(s, step, limit);
    var w := step.worker;
    CountUpdated(s.workers, w, t.workers[w], p => Pending(p, k));
    CountUpdated(s.workers, w, t.workers[w], p => Added(p, k));
    assert t.workers == s.workers[w := t.workers[w]];
    StepAtWorker(s, step, limit, k);
  }

  /** How a step moves one worker's part in `k` against the counter of `k`. */
  ghost predicate WorkerMove(s: State, t: State, p: Phase, q: Phase, limit: Key -> int, k: Key) {
    && GoodPhase(q, limit)
    && CounterOf(s.counts, k) <= CounterOf(t.counts, k) <= CounterOf(s.counts, k) + 1
    && (CounterOf(t.counts, k) > CounterOf(s.counts, k) ==>
          limit(k) > 0 && Pending(p, k) && !Pending(q, k) && !Added(p, k))
    && (Pending(q, k) && !Pending(p, k) ==>
          CounterOf(s.counts, k) < limit(k) && CounterOf(t.counts, k) == CounterOf(s.counts, k))
    && (Added(q, k) && !Added(p, k) ==> CounterOf(t.counts, k) == CounterOf(s.counts, k) + 1)
    && CounterOf(s.granted, k) <= CounterOf(t.granted, k) <= CounterOf(s.granted, k) + 1
    && (CounterOf(t.granted, k) > CounterOf(s.granted, k) ==> Added(p, k) && !Added(q, k))
  }

  lemma StepAtWorker(s: State, step: Step, limit: Key -> int, k: Key)
    requires Ready(s, step, limit) && GoodPhase(s.workers[step.worker], limit)
    ensures WorkerMove(s, Do(s, step, limit), s.workers[step.worker], Do(s, step, limit).workers[step.worker], limit, k)
  {
    match step
    case Begin(_, _) =>
    case Get(_, _) =>
      var p := s.workers[step.worker];
      assert p.request[..p.next + 1] == p.request[..p.next] + [p.request[p.next]];
    case Increment(_, _) => IncrementMove(s, step, limit, k);
    case SetExpiry(_, _) =>
    case Return(_) =>
      var p := s.workers[step.worker];
      assert p.request[..p.next] == p.request;
  }

  lemma IncrementMove(s: State, step: Step, limit: Key -> int, k: Key)
    requires step.Increment? && Ready(s, step, limit) && GoodPhase(s.workers[step.worker], limit)
    ensures WorkerMove(s, Do(s, step, limit), s.workers[step.worker], Do(s, step, limit).workers[step.worker], limit, k)
  {
    hide Pending, Added, Distinct;
    var p := s.workers[step.worker];
    AddingMove(p.request, p.next, k);
  }

  /** What incrementing check `n` of a request does to the phase. */
  lemma AddingMove(r: Request, n: nat, k: Key)
    requires Distinct(r) && n < |r|
    ensures Pending(Adding(r, n), k) <==> k == r[n] || Pending(Adding(r, n + 1), k)
    ensures Added(Adding(r, n + 1), k) <==> k == r[n] || Added(Adding(r, n), k)
    ensures !Pending(Idle, k) && !Added(Idle, k)
    ensures !Pending(Adding(r, n + 1), r[n]) && !Added(Adding(r, n), r[n])
    ensures Pending(Expiring(r, n), k) == Pending(Adding(r, n + 1), k)
    ensures Added(Expiring(r, n), k) == Added(Adding(r, n + 1), k)
  {
    assert r[..n + 1] == r[..n] + [r[n]];
    assert r[n..] == [r[n]] + r[n + 1..];
    assert r[n] !in r[n + 1..] && r[n] !in r[..n];
  }

  lemma {:induction false} InvHolds(from: State, steps: seq<Step>, limit: Key -> int)
    requires Inv(from, limit) && Run(from, steps, limit).Some?
    ensures Inv(Run(from, steps, limit).value, limit)
    ensures |Run(from, steps, limit).value.workers| == |from.workers|
  {
    if steps == [] {
    } else {
      var step := steps[|steps| - 1];
      InvHolds(from, steps[..|steps| - 1], limit);
      var before := Run(from, steps[..|steps| - 1], limit).value;
      forall k ensures KeyInv(Do(before, step, limit), limit, k) { StepKeepsKeyInv(before, step, limit, k); }
      StepAtWorker(before, step, limit, CampaignTotal("", ""));
    }
  }

  /** In every reachable state a capped counter exceeds its limit by less than the number of
      workers, and no key was granted more often than its counter says. */
  lemma OvershootBound(workers: nat, steps: seq<Step>, limit: Key -> int, k: Key)
    requires workers > 0 && Run(Start(workers), steps, limit).Some? && limit(k) > 0
    ensures var s := Run(Start(workers), steps, limit).value;
            CounterOf(s.granted, k) <= CounterOf(s.counts, k) <= limit(k) + workers - 1
  {
    forall k ensures KeyInv(Start(workers), limit, k) {
      CountNone(Start(workers).workers, p => Pending(p, k));
      CountNone(Start(workers).workers, p => Added(p, k));
    }
    InvHolds(Start(workers), steps, limit);
    assert KeyInv(Run(Start(workers), steps, limit).value, limit, k);
  }

  // ----- whose increments the counters hold -----

  /** This step moves the counter of `k`. */
  ghost predicate Moves(s: State, step: Step, limit: Key -> int, k: Key)
    requires Ready(s, step, limit)
  {
    step.Increment? && step.reply != NotSent && s.workers[step.worker].request[s.workers[step.worker].next] == k
  }

  /** How often the workers in `who` moved the counter of `k` in this run. */
  ghost function Increments(from: State, steps: seq<Step>, limit: Key -> int, who: nat -> bool, k: Key): nat
    requires Run(from, steps, limit).Some?
  {
    if steps == [] then 0
    else
      var step := steps[|steps| - 1];
      var s := Run(from, steps[..|steps| - 1], limit).value;
      Increments(from, steps[..|steps| - 1], limit, who, k) +
      if who(step.worker) && Moves(s, step, limit, k) then 1 else 0
  }

  /** In every run a counter has moved by exactly the increments of the steps, whoever took them. */
  lemma {:induction false} CounterIsIncrements(from: State, steps: seq<Step>, limit: Key -> int, w: nat, k: Key)
    requires Run(from, steps, limit).Some?
    ensures CounterOf(Run(from, steps, limit).value.counts, k) ==
            CounterOf(from.counts, k) + Increments(from, steps, limit, v => v == w, k) +
            Increments(from, steps, limit, v => v != w, k)
  {
    if steps == [] {
    } else {
      CounterIsIncrements(from, steps[..|steps| - 1], limit, w, k);
    }
  }

  /** No worker `w` begins another call in `steps`. */
  predicate NoBegin(steps: seq<Step>, w: nat) {
    forall i :: 0 <= i < |steps| && steps[i].worker == w ==> !steps[i].Begin?
  }

  /** Worker `w` went through the call it began: what it incremented is what its phase says. */
  ghost predicate InCall(from: State, steps: seq<Step>, limit: Key -> int, w: nat, request: Request, k: Key)
    requires Run(from, steps, limit).Some?
  {
    var s := Run(from, steps, limit).value;
    && w < |s.workers|
    && (!s.workers[w].Idle? ==>
          && s.workers[w].request == request
          && GoodPhase(s.workers[w], limit)
          && Increments(from, steps, limit, v => v == w, k) == if Added(s.workers[w], k) then 1 else 0)
  }

  lemma BeginsCall(s: State, w: nat, request: Request, limit: Key -> int, k: Key)
    requires Ready(s, Begin(w, request), limit)
    ensures Run(s, [Begin(w, request)], limit).Some? && InCall(s, [Begin(w, request)], limit, w, request, k)
  {
    var step := Begin(w, request);
    assert [step][..0] == [];
    assert Increments(s, [step][..0], limit, v => v == w, k) == 0;
  }

  lemma {:induction false} CallIncrements(
    s: State, w: nat, request: Request, rest: seq<Step>, limit: Key -> int, k: Key)
    requires Ready(s, Begin(w, request), limit) && NoBegin(rest, w)
    requires Run(s, [Begin(w, request)] + rest, limit).Some?
    ensures InCall(s, [Begin(w, request)] + rest, limit, w, request, k)
  {
    hide Moves, Increments, Do, Ready, GoodPhase, Added;
    var steps := [Begin(w, request)] + rest;
    if rest == [] {
      assert steps == [Begin(w, request)];
      BeginsCall(s, w, request, limit, k);
    } else {
      var front := rest[..|rest| - 1];
      assert steps[..|steps| - 1] == [Begin(w, request)] + front;
      CallIncrements(s, w, request, front, limit, k);
      StaysInCall(s, steps, limit, w, request, k);
    }
  }

  lemma StaysInCall(from: State, steps: seq<Step>, limit: Key -> int, w: nat, request: Request, k: Key)
    requires steps != [] && Run(from, steps, limit).Some?
    requires steps[|steps| - 1].worker == w ==> !steps[|steps| - 1].Begin?
    requires InCall(from, steps[..|steps| - 1], limit, w, request, k)
    ensures InCall(from, steps, limit, w, request, k)
  {
    hide Added, GoodPhase, Run, Do, CounterOf;
    LastStep(from, steps, limit);
    var step := steps[|steps| - 1];
    var s := Run(from, steps[..|steps| - 1], limit).value;
    if step.worker == w {
      StepAdds(s, step, limit, k);
    } else {
      OtherWorkers(s, step, limit, w);
    }
  }

  lemma LastStep(from: State, steps: seq<Step>, limit: Key -> int)
    requires steps != [] && Run(from, steps, limit).Some?
    ensures Run(from, steps[..|steps| - 1], limit).Some?
    ensures var s := Run(from, steps[..|steps| - 1], limit).value;
            && Ready(s, steps[|steps| - 1], limit)
            && Run(from, steps, limit).value == Do(s, steps[|steps| - 1], limit)
  {
    hide Ready, Do;
  }

  lemma OtherWorkers(s: State, step: Step, limit: Key -> int, w: nat)
    requires Ready(s, step, limit) && step.worker != w && w < |s.workers|
    ensures w < |Do(s, step, limit).workers| && Do(s, step, limit).workers[w] == s.workers[w]
  {}

  /** A step inside a call increments `k` exactly when it makes `k` an added key of the call. */
  lemma StepAdds(s: State, step: Step, limit: Key -> int, k: Key)
    requires Ready(s, step, limit) && !step.Begin? && GoodPhase(s.workers[step.worker], limit)
    ensures |Do(s, step, limit).workers| == |s.workers| && !s.workers[step.worker].Idle?
    ensures var p := s.workers[step.worker];
            var q := Do(s, step, limit).workers[step.worker];
            !q.Idle? ==>
              && q.request == p.request && GoodPhase(q, limit)
              && (Moves(s, step, limit, k) ==> !Added(p, k) && Added(q, k))
              && (!Moves(s, step, limit, k) ==> (Added(p, k) <==> Added(q, k)))
  {
    var p := s.workers[step.worker];
    if step.Get? {
    } else if step.Increment? {
      assert p.request[..p.next + 1] == p.request[..p.next] + [p.request[p.next]];
      assert p.request[p.next] !in p.request[..p.next];
    }
  }

  /** The run `before`, a call that worker `w` begins, steps of all workers, and `last`. */
  function CallRun(before: seq<Step>, w: nat, request: Request, between: seq<Step>, last: Step): seq<Step> {
    before + (([Begin(w, request)] + between) + [last])
  }

  lemma SplitCall(from: State, before: seq<Step>, w: nat, request: Request, between: seq<Step>, last: Step,
                  limit: Key -> int, k: Key)
    requires Run(from, CallRun(before, w, request, between, last), limit).Some? && NoBegin(between, w)
    ensures Run(from, before, limit).Some?
    ensures var s := Run(from, before, limit).value;
            && Run(s, [Begin(w, request)] + between, limit).Some?
            && InCall(s, [Begin(w, request)] + between, limit, w, request, k)
            && Ready(Run(s, [Begin(w, request)] + between, limit).value, last, limit)
            && Run(s, ([Begin(w, request)] + between) + [last], limit) ==
               Run(from, CallRun(before, w, request, between, last), limit)
  {
    hide Ready, Do, Moves, Increments, GoodPhase, Added, InCall;
    var call := [Begin(w, request)] + between;
    RunPrefix(from, before, call + [last], limit);
    var s := Run(from, before, limit).value;
    RunAppend(from, before, call + [last], limit);
    RunPrefix(s, call, [last], limit);
    assert (call + [last])[..|call|] == call;
    LastStep(s, call + [last], limit);
    assert [call[0]] + call[1..] == call;
    RunPrefix(s, [call[0]], call[1..], limit);
    assert [call[0]][..0] == [];
    LastStep(s, [call[0]], limit);
    CallIncrements(s, w, request, between, limit, k);
  }

  lemma {:induction false} RunPrefix(from: State, a: seq<Step>, b: seq<Step>, limit: Key -> int)
    requires Run(from, a + b, limit).Some?
    ensures Run(from, a, limit).Some?
  {
    hide Ready, Do;
    if b == [] {
      assert a + b == a;
    } else {
      assert (a + b)[..|a + b| - 1] == a + b[..|b| - 1];
      RunPrefix(from, a, b[..|b| - 1], limit);
    }
  }

  /** A call that ends with a read, because it found a spent limit or the store did not answer,
      has incremented nothing: whatever the other workers did meanwhile, every counter moved by
      their increments alone. */
  lemma RefusedCallAddsNothing(from: State, before: seq<Step>, w: nat, request: Request, between: seq<Step>,
                               answered: bool, limit: Key -> int, k: Key)
    requires Run(from, CallRun(before, w, request, between, Get(w, answered)), limit).Some? && NoBegin(between, w)
    ensures Run(from, before, limit).Some?
    ensures var s := Run(from, before, limit).value;
            var call := ([Begin(w, request)] + between) + [Get(w, answered)];
            && Run(s, call, limit).Some?
            && Run(s, call, limit) == Run(from, CallRun(before, w, request, between, Get(w, answered)), limit)
            && Increments(s, call, limit, v => v == w, k) == 0
            && CounterOf(Run(s, call, limit).value.counts, k) ==
               CounterOf(s.counts, k) + Increments(s, call, limit, v => v != w, k)
  {
    SplitCall(from, before, w, request, between, Get(w, answered), limit, k);
    CallWithEnd(Run(from, before, limit).value, [Begin(w, request)] + between, Get(w, answered), limit, w, k);
  }

  /** A call that returned true has incremented each of its keys once and no other key. */
  lemma AllowedCallAddsOne(from: State, before: seq<Step>, w: nat, request: Request, between: seq<Step>,
                           limit: Key -> int, k: Key)
    requires Run(from, CallRun(before, w, request, between, Return(w)), limit).Some? && NoBegin(between, w)
    ensures Run(from, before, limit).Some?
    ensures var s := Run(from, before, limit).value;
            var call := ([Begin(w, request)] + between) + [Return(w)];
            && Run(s, call, limit).Some?
            && Run(s, call, limit) == Run(from, CallRun(before, w, request, between, Return(w)), limit)
            && Increments(s, call, limit, v => v == w, k) == (if k in request then 1 else 0)
            && CounterOf(Run(s, call, limit).value.counts, k) ==
               CounterOf(s.counts, k) + (if k in request then 1 else 0) + Increments(s, call, limit, v => v != w, k)
  {
    SplitCall(from, before, w, request, between, Return(w), limit, k);
    CallWithEnd(Run(from, before, limit).value, [Begin(w, request)] + between, Return(w), limit, w, k);
    assert request[..|request|] == request;
  }

  /** A last step that increments nothing leaves what worker `w` incremented as it was. */
  lemma CallWithEnd(s: State, call: seq<Step>, last: Step, limit: Key -> int, w: nat, k: Key)
    requires Run(s, call, limit).Some? && Ready(Run(s, call, limit).value, last, limit) && !last.Increment?
    ensures Run(s, call + [last], limit).Some?
    ensures Increments(s, call + [last], limit, v => v == w, k) == Increments(s, call, limit, v => v == w, k)
    ensures CounterOf(Run(s, call + [last], limit).value.counts, k) ==
            CounterOf(s.counts, k) + Increments(s, call, limit, v => v == w, k) +
            Increments(s, call + [last], limit, v => v != w, k)
  {
    hide Ready, Do;
    assert (call + [last])[..|call + [last]| - 1] == call;
    assert Run(s, call + [last], limit).Some?;
    CounterIsIncrements(s, call + [last], limit, w, k);
  }

  // ----- the bound is met -----

  /** Every call asks for the key `k` alone, and every command that changes the store is answered. */
  predicate OnlyAsks(steps: seq<Step>, k: Key) {
    forall i :: 0 <= i < |steps| ==>
      match steps[i]
      case Begin(_, request) => request == [k]
      case Increment(_, reply) => reply == Answered
      case SetExpiry(_, answered) => answered
      case _ => true
  }

  lemma {:induction false} RunAppend(from: State, a: seq<Step>, b: seq<Step>, limit: Key -> int)
    requires Run(from, a, limit).Some?
    ensures Run(from, a + b, limit) == Run(Run(from, a, limit).value, b, limit)
  {
    hide Ready, Do;
    if b == [] {
      assert a + b == a;
    } else {
      RunAppend(from, a, b[..|b| - 1], limit);
      assert (a + b)[..|a + b| - 1] == a + b[..|b| - 1];
    }
  }

  /** Worker `w` begins a call on the key `k` alone and finds room. */
  lemma ReadsRoom(s: State, w: nat, limit: Key -> int, k: Key) returns (steps: seq<Step>)
    requires w < |s.workers| && s.workers[w] == Idle && limit(k) > CounterOf(s.counts, k)
    ensures Run(s, steps, limit) == Some(s.(workers := s.workers[w := Adding([k], 0)])) && OnlyAsks(steps, k)
  {
    var a := Do(s, Begin(w, [k]), limit);
    assert a.workers[w] == Reading([k], 0);
    assert Do(a, Get(w, true), limit) == s.(workers := s.workers[w := Adding([k], 0)]);
    steps := [Begin(w, [k])] + [Get(w, true)];
    Two(s, Begin(w, [k]), [Get(w, true)], limit);
  }

  /** It increments `k`, with an expiry where the counter is new and daily, and returns. */
  lemma AddsAndReturns(s: State, w: nat, limit: Key -> int, k: Key) returns (steps: seq<Step>)
    requires w < |s.workers| && s.workers[w] == Adding([k], 0)
    ensures Run(s, steps, limit) ==
            Some(State(Plus(s.counts, k), s.workers[w := Idle], Plus(s.granted, k)))
    ensures OnlyAsks(steps, k)
  {
    hide Run, PlusAll, Distinct;
    var a := Do(s, Increment(w, Answered), limit);
    if a.workers[w].Expiring? {
      var b := Do(a, SetExpiry(w, true), limit);
      Returns(b, w, limit, k);
      Two(a, SetExpiry(w, true), [Return(w)], limit);
      steps := [Increment(w, Answered)] + ([SetExpiry(w, true)] + [Return(w)]);
      Two(s, Increment(w, Answered), [SetExpiry(w, true)] + [Return(w)], limit);
      assert b.workers[w := Idle] == s.workers[w := Idle];
    } else {
      Returns(a, w, limit, k);
      steps := [Increment(w, Answered)] + [Return(w)];
      Two(s, Increment(w, Answered), [Return(w)], limit);
      assert a.workers[w := Idle] == s.workers[w := Idle];
    }
  }

  lemma Returns(s: State, w: nat, limit: Key -> int, k: Key)
    requires w < |s.workers| && s.workers[w] == Adding([k], 1)
    ensures Run(s, [Return(w)], limit) == Some(State(s.counts, s.workers[w := Idle], Plus(s.granted, k)))
  {
    assert [k][..0] == [];
    assert PlusAll(s.granted, [k]) == Plus(PlusAll(s.granted, [k][..0]), k);
  }

  /** A call of worker `w` on `k` alone, when there is room. */
  lemma WholeCall(s: State, w: nat, limit: Key -> int, k: Key) returns (steps: seq<Step>)
    requires w < |s.workers| && s.workers[w] == Idle && limit(k) > CounterOf(s.counts, k)
    ensures Run(s, steps, limit) == Some(State(Plus(s.counts, k), s.workers, Plus(s.granted, k)))
    ensures OnlyAsks(steps, k)
  {
    hide Run, Plus;
    var reading := s.(workers := s.workers[w := Adding([k], 0)]);
    var a := ReadsRoom(s, w, limit, k);
    var b := AddsAndReturns(reading, w, limit, k);
    RunAppend(s, a, b, limit);
    steps := a + b;
    assert reading.workers[w := Idle] == s.workers;
  }

  lemma Two(s: State, step: Step, rest: seq<Step>, limit: Key -> int)
    requires Ready(s, step, limit)
    ensures Run(s, [step] + rest, limit) == Run(Do(s, step, limit), rest, limit)
  {
    RunAppend(s, [step], rest, limit);
  }

  lemma {:induction false} FillUp(s: State, n: nat, limit: Key -> int, k: Key) returns (steps: seq<Step>)
    requires |s.workers| > 0 && s.workers[0] == Idle
    requires CounterOf(s.counts, k) + n <= limit(k)
    ensures Run(s, steps, limit).Some? && OnlyAsks(steps, k)
    ensures var t := Run(s, steps, limit).value;
            && t.workers == s.workers
            && CounterOf(t.counts, k) == CounterOf(s.counts, k) + n
            && CounterOf(t.granted, k) == CounterOf(s.granted, k) + n
  {
    if n == 0 {
      steps := [];
    } else {
      var a := FillUp(s, n - 1, limit, k);
      var b := WholeCall(Run(s, a, limit).value, 0, limit, k);
      RunAppend(s, a, b, limit);
      steps := a + b;
    }
  }

  /** Workers `w..` read the counter one after the other and all find room. */
  lemma {:induction false} AllRead(s: State, w: nat, limit: Key -> int, k: Key) returns (steps: seq<Step>)
    requires w <= |s.workers| && limit(k) > CounterOf(s.counts, k)
    requires forall i :: w <= i < |s.workers| ==> s.workers[i] == Idle
    ensures Run(s, steps, limit).Some? && OnlyAsks(steps, k)
    ensures var t := Run(s, steps, limit).value;
            && t.counts == s.counts && t.granted == s.granted && |t.workers| == |s.workers|
            && (forall i :: 0 <= i < |s.workers| ==>
                  t.workers[i] == if i < w then s.workers[i] else Adding([k], 0))
    decreases |s.workers| - w
  {
    if w == |s.workers| {
      steps := [];
    } else {
      hide Run;
      var a := ReadsRoom(s, w, limit, k);
      var t := Run(s, a, limit).value;
      var rest := AllRead(t, w + 1, limit, k);
      RunAppend(s, a, rest, limit);
      steps := a + rest;
    }
  }

  /** Then they all increment it and return. */
  lemma {:induction false} AllAdd(s: State, w: nat, limit: Key -> int, k: Key) returns (steps: seq<Step>)
    requires w <= |s.workers|
    requires forall i :: w <= i < |s.workers| ==> s.workers[i] == Adding([k], 0)
    ensures Run(s, steps, limit).Some? && OnlyAsks(steps, k)
    ensures var t := Run(s, steps, limit).value;
            && CounterOf(t.counts, k) == CounterOf(s.counts, k) + (|s.workers| - w)
            && CounterOf(t.granted, k) == CounterOf(s.granted, k) + (|s.workers| - w)
            && |t.workers| == |s.workers|
            && (forall i :: 0 <= i < |s.workers| ==> t.workers[i] == if i < w then s.workers[i] else Idle)
    decreases |s.workers| - w
  {
    hide Run;
    if w == |s.workers| {
      steps := [];
      NoSteps(s, limit);
    } else {
      var a := AddsAndReturns(s, w, limit, k);
      var t := Run(s, a, limit).value;
      var rest := AllAdd(t, w + 1, limit, k);
      RunAppend(s, a, rest, limit);
      steps := a + rest;
    }
  }

  lemma NoSteps(s: State, limit: Key -> int)
    ensures Run(s, [], limit) == Some(s)
  {}

  /** Fills `k` up to the limit but one, lets all workers read, and then all increment: from any state
      at rest that has no counter for `k`. */
  lemma Overshoots(start: State, limit: Key -> int, k: Key) returns (steps: seq<Step>)
    requires |start.workers| > 0 && limit(k) > 0 && CounterOf(start.counts, k) == 0
    requires forall w :: 0 <= w < |start.workers| ==> start.workers[w] == Idle
    ensures Run(start, steps, limit).Some? && OnlyAsks(steps, k)
    ensures var t := Run(start, steps, limit).value;
            var most := limit(k) + |start.workers| - 1;
            && CounterOf(t.counts, k) == most && CounterOf(t.granted, k) == CounterOf(start.granted, k) + most
            && t.workers == start.workers
  {
    hide Run;
    var a := FillUp(start, limit(k) - 1, limit, k);
    var s := Run(start, a, limit).value;
    var b := AllRead(s, 0, limit, k);
    var t := Run(s, b, limit).value;
    var c := AllAdd(t, 0, limit, k);
    RunAppend(start, a, b, limit);
    RunAppend(start, a + b, c, limit);
    steps := a + b + c;
  }

  /** The overshoot bound is exact: for every limit and every number of workers some interleaving
      lets that many calls return true. */
  lemma OvershootReached(workers: nat, limit: Key -> int, k: Key) returns (steps: seq<Step>)
    requires workers > 0 && limit(k) > 0
    ensures Run(Start(workers), steps, limit).Some? && OnlyAsks(steps, k)
    ensures var s := Run(Start(workers), steps, limit).value;
            CounterOf(s.counts, k) == CounterOf(s.granted, k) == limit(k) + workers - 1
  {
    hide Run;
    steps := Overshoots(Start(workers), limit, k);
  }
}
