/** The delivery topics, their consumer and its bounded worker pool: apps/sender/main.go:82-137
    and packages/go/redpanda/delivery.go:143-168, around Sender.Process.

    A step hands one record to a free worker and commits it, or lets one worker finish its task.
    The consumer commits a record as soon as a worker has it: a worker that dies loses its task,
    and a record whose commit fails is handed out again.  The dead-letter topic has no consumer. */
module SenderPool {
  import opened Wrappers
  import opened Enqueue
  import opened Sender
  import opened Counting

  /** A task whose delivery is over: dead tasks are the contents of the dead-letter topic. */
  datatype Ended = Ended(task: DeliveryTask, fate: Fate)

  /** `again` holds the ids of records that were handed out without being committed. */
  datatype State = State(
    arrived: seq<string>,
    again: seq<string>,
    queued: seq<Queued>,
    working: seq<DeliveryTask>,
    ended: seq<Ended>,
    pushes: seq<string>,
    sent: seq<string>)

  datatype Step =
    | Arrive(task: DeliveryTask)
    | Consume(record: nat)
    | Redeliver(record: nat)
    | Vanish(worker: nat, pushed: bool)
    | Finish(worker: nat, env: Env)

  /** Attempts a task can be consumed at: MaxAttempts, and one even when that is not positive. */
  function Attempts(max: int): nat {
    if max < 1 then 1 else max
  }

  predicate Ready(s: State, step: Step, concurrency: nat) {
    match step
    case Arrive(task) => task.attempt == 0
    case Consume(record) => record < |s.queued| && |s.working| < concurrency
    case Redeliver(record) => record < |s.queued| && |s.working| < concurrency
    case Vanish(worker, _) => worker < |s.working|
    case Finish(worker, _) => worker < |s.working|
  }

  function Do(s: State, step: Step, max: int, concurrency: nat): State
    requires Ready(s, step, concurrency)
  {
    match step
    case Arrive(task) =>
      s.(arrived := s.arrived + [task.delivery], queued := s.queued + [Queued(DeliveryTasks, task)])
    case Consume(record) =>
      s.(queued := Without(s.queued, record), working := s.working + [s.queued[record].task])
    case Redeliver(record) =>
      s.(again := s.again + [s.queued[record].task.delivery], working := s.working + [s.queued[record].task])
    case Vanish(worker, pushed) =>
      var t := s.working[worker];
      s.(working := Without(s.working, worker), ended := s.ended + [Ended(t, FateLost)],
         pushes := s.pushes + if pushed then [t.delivery] else [])
    case Finish(worker, env) =>
      var t := s.working[worker];
      var o := Process(t, max, env);
      var fate := FateOf(t, max, env);
      var left := s.(working := Without(s.working, worker),
                     pushes := s.pushes + if o.pushed then [t.delivery] else [],
                     sent := s.sent + if fate == FateSent then [t.delivery] else []);
      if fate == FateRetry then left.(queued := s.queued + o.queued)
      else left.(ended := s.ended + [Ended(EndedTask(t, max, env), fate)])
  }

  /** A dead task carries its last attempt number. */
  function EndedTask(t: DeliveryTask, max: int, env: Env): DeliveryTask {
    if FateOf(t, max, env) == FateDead then Requeued(t, max).task else t
  }

  lemma RetryQueued(t: DeliveryTask, max: int, env: Env)
    ensures FateOf(t, max, env) == FateRetry ==>
              && Process(t, max, env).queued == [Requeued(t, max)]
              && t.attempt + 1 < max
    ensures Requeued(t, max).task.delivery == t.delivery && Requeued(t, max).task.attempt == t.attempt + 1
    ensures EndedTask(t, max, env).delivery == t.delivery
  {
    hide ValidTask, Process;
    AtMostOneEnqueue(t, max, env);
  }

  /** A worker that finishes has pushed exactly if nothing failed before the push, and reports a task
      sent exactly if its last event says so. */
  lemma FinishMeaning(s: State, worker: nat, env: Env, max: int, concurrency: nat)
    requires Ready(s, Finish(worker, env), concurrency)
    ensures var t, u := s.working[worker], Do(s, Finish(worker, env), max, concurrency);
            var events := Process(t, max, env).events;
            && u.pushes == s.pushes +
                 (if !HasBlank(t) && env.record(0) && env.record(1) && env.key && env.trigger && env.throttle
                  then [t.delivery] else [])
            && u.sent == s.sent +
                 (if Process(t, max, env).queued == [] && events != [] && events[|events| - 1].kind == Sent
                  then [t.delivery] else [])
            && |u.working| == |s.working| - 1
            && |u.queued| + |u.ended| == |s.queued| + |s.ended| + 1
  {
    hide Process, HasBlank;
    AttemptMeaning(s.working[worker], max, env);
    RetryQueued(s.working[worker], max, env);
  }

  // ----- what every step keeps -----

  /** The topic a task waits in is fixed by its attempt. */
  function TopicAt(attempt: int): Topic {
    if attempt == 0 then DeliveryTasks else RetryTopic(attempt)
  }

  ghost predicate Inv(s: State, max: int, concurrency: nat) {
    && |s.working| <= concurrency
    && (forall i :: 0 <= i < |s.queued| ==> QueuedWell(s.queued[i], max))
    && (forall i :: 0 <= i < |s.working| ==> 0 <= s.working[i].attempt < Attempts(max))
  }

  predicate QueuedWell(q: Queued, max: int) {
    0 <= q.task.attempt < Attempts(max) && q.topic == TopicAt(q.task.attempt)
  }

  lemma StepKeepsInv(s: State, step: Step, max: int, concurrency: nat)
    requires Inv(s, max, concurrency) && Ready(s, step, concurrency)
    ensures Inv(Do(s, step, max, concurrency), max, concurrency)
  {
    hide Process, ValidTask;
    if step.Finish? { AtMostOneEnqueue(s.working[step.worker], max, step.env); }
  }

  /** How often a delivery id occurs among the places a task can be in. */
  function Places(s: State, id: string): nat {
    CountIf(s.queued, (q: Queued) => q.task.delivery == id)
    + CountIf(s.working, (t: DeliveryTask) => t.delivery == id)
    + CountIf(s.ended, (e: Ended) => e.task.delivery == id)
  }

  /** How often a delivery came in: produced, or handed out again. */
  function Entries(s: State, id: string): nat {
    CountIf(s.arrived, (d: string) => d == id) + CountIf(s.again, (d: string) => d == id)
  }

  /** Conservation: every entry of a task is in exactly one place, and none leaves the books. */
  lemma StepConserves(s: State, step: Step, max: int, concurrency: nat, id: string)
    requires Ready(s, step, concurrency) && Places(s, id) == Entries(s, id)
    ensures var t := Do(s, step, max, concurrency);
            Places(t, id) == Entries(t, id)
  {
    hide Process, FateOf, EndedTask, Requeued, CountIf;
    var q := (q: Queued) => q.task.delivery == id;
    var w := (t: DeliveryTask) => t.delivery == id;
    match step
    case Arrive(task) =>
      CountAppend(s.arrived, task.delivery, (d: string) => d == id);
      CountAppend(s.queued, Queued(DeliveryTasks, task), q);
    case Consume(record) =>
      CountWithout(s.queued, record, q);
      CountAppend(s.working, s.queued[record].task, w);
    case Redeliver(record) =>
      CountAppend(s.again, s.queued[record].task.delivery, (d: string) => d == id);
      CountAppend(s.working, s.queued[record].task, w);
    case Vanish(worker, _) =>
      CountWithout(s.working, worker, w);
      CountAppend(s.ended, Ended(s.working[worker], FateLost), (e: Ended) => e.task.delivery == id);
    case Finish(worker, env) =>
      var t := s.working[worker];
      RetryQueued(t, max, env);
      CountWithout(s.working, worker, w);
      CountAppend(s.queued, Requeued(t, max), q);
      CountAppend(s.ended, Ended(EndedTask(t, max, env), FateOf(t, max, env)), (e: Ended) => e.task.delivery == id);
  }

  // ----- termination -----

  function WaitingWork(max: int): Queued -> int {
    (q: Queued) => 2 * (Attempts(max) - q.task.attempt)
  }

  function WorkerWork(max: int): DeliveryTask -> int {
    (t: DeliveryTask) => 2 * (Attempts(max) - t.attempt) - 1
  }

  /** The steps that are left at most. */
  function Measure(s: State, max: int): int {
    SumOf(s.queued, WaitingWork(max)) + SumOf(s.working, WorkerWork(max))
  }

  /** Without entries every step uses up some of the work. */
  lemma StepDescends(s: State, step: Step, max: int, concurrency: nat)
    requires Inv(s, max, concurrency) && Ready(s, step, concurrency) && !step.Arrive? && !step.Redeliver?
    ensures Measure(Do(s, step, max, concurrency), max) < Measure(s, max)
  {
    hide Process, ValidTask;
    match step
    case Consume(record) =>
      SumWithout(s.queued, record, WaitingWork(max));
      SumAppend(s.working, s.queued[record].task, WorkerWork(max));
    case Vanish(worker, _) => SumWithout(s.working, worker, WorkerWork(max));
    case Finish(worker, env) =>
      var t := s.working[worker];
      var o := Process(t, max, env);
      AtMostOneEnqueue(t, max, env);
      SumWithout(s.working, worker, WorkerWork(max));
      if FateOf(t, max, env) == FateRetry {
        assert o.queued == [o.queued[0]];
        SumAppend(s.queued, o.queued[0], WaitingWork(max));
      }
  }

  // ----- runs -----

  const EMPTY := State([], [], [], [], [], [], [])

  ghost predicate CanRun(s: State, steps: seq<Step>, max: int, concurrency: nat)
    decreases |steps|
  {
    steps == [] ||
    (Ready(s, steps[0], concurrency) && CanRun(Do(s, steps[0], max, concurrency), steps[1..], max, concurrency))
  }

  function Run(s: State, steps: seq<Step>, max: int, concurrency: nat): State
    requires CanRun(s, steps, max, concurrency)
    decreases |steps|
  {
    if steps == [] then s else Run(Do(s, steps[0], max, concurrency), steps[1..], max, concurrency)
  }

  /** Any schedule of deliveries is finite: its length is bounded by the work at its start. */
  lemma {:induction false} RunsEnd(s: State, steps: seq<Step>, max: int, concurrency: nat)
    requires Inv(s, max, concurrency) && CanRun(s, steps, max, concurrency)
    requires forall i :: 0 <= i < |steps| ==> !steps[i].Arrive? && !steps[i].Redeliver?
    ensures |steps| <= Measure(s, max)
    ensures Inv(Run(s, steps, max, concurrency), max, concurrency)
    decreases |steps|
  {
    if steps == [] {
      SumNonNegative(s.queued, WaitingWork(max));
      SumNonNegative(s.working, WorkerWork(max));
    } else {
      StepKeepsInv(s, steps[0], max, concurrency);
      StepDescends(s, steps[0], max, concurrency);
      RunsEnd(Do(s, steps[0], max, concurrency), steps[1..], max, concurrency);
    }
  }

  lemma {:induction false} RunConserves(s: State, steps: seq<Step>, max: int, concurrency: nat, id: string)
    requires CanRun(s, steps, max, concurrency) && Places(s, id) == Entries(s, id)
    ensures Places(Run(s, steps, max, concurrency), id) == Entries(Run(s, steps, max, concurrency), id)
    decreases |steps|
  {
    if steps == [] {
    } else {
      StepConserves(s, steps[0], max, concurrency, id);
      RunConserves(Do(s, steps[0], max, concurrency), steps[1..], max, concurrency, id);
    }
  }

  /** When no worker can take a record and none can finish, nothing waits, and every entry of a
      task has ended exactly once. */
  lemma QuietMeansEnded(steps: seq<Step>, max: int, concurrency: nat, id: string)
    requires concurrency >= 1 && CanRun(EMPTY, steps, max, concurrency)
    requires forall step: Step :: Ready(Run(EMPTY, steps, max, concurrency), step, concurrency) ==> step.Arrive?
    ensures var s := Run(EMPTY, steps, max, concurrency);
            && s.queued == [] && s.working == []
            && CountIf(s.ended, (e: Ended) => e.task.delivery == id) == Entries(s, id)
  {
    var s := Run(EMPTY, steps, max, concurrency);
    RunConserves(EMPTY, steps, max, concurrency, id);
    assert Ready(s, Finish(0, SomeEnv()), concurrency) <==> |s.working| > 0;
    assert Ready(s, Consume(0), concurrency) <==> |s.queued| > 0 && |s.working| < concurrency;
  }

  function SomeEnv(): Env {
    Env((n: nat) => true, true, true, true, Push(None, false), Answered)
  }

  // ----- pushes -----

  function QueuedSpent(id: string): Queued -> int {
    (q: Queued) => if q.task.delivery == id then q.task.attempt else 0
  }

  function WorkingSpent(id: string): DeliveryTask -> int {
    (t: DeliveryTask) => if t.delivery == id then t.attempt else 0
  }

  /** Attempts that tasks with this delivery id have behind them. */
  function Spent(s: State, id: string, max: int): int {
    SumOf(s.queued, QueuedSpent(id)) + SumOf(s.working, WorkingSpent(id))
    + Attempts(max) * CountIf(s.ended, (e: Ended) => e.task.delivery == id)
  }

  ghost predicate PushInv(s: State, id: string, max: int) {
    && CountIf(s.pushes, (d: string) => d == id) <= Spent(s, id, max)
    && CountIf(s.sent, (d: string) => d == id) <= CountIf(s.ended, (e: Ended) => e.task.delivery == id)
  }

  lemma StepKeepsPushInv(s: State, step: Step, max: int, concurrency: nat, id: string)
    requires Inv(s, max, concurrency) && Ready(s, step, concurrency) && PushInv(s, id, max)
    ensures PushInv(Do(s, step, max, concurrency), id, max)
  {
    hide Process, ValidTask;
    match step
    case Arrive(task) => SumAppend(s.queued, Queued(DeliveryTasks, task), QueuedSpent(id));
    case Consume(record) =>
      SumWithout(s.queued, record, QueuedSpent(id));
      SumAppend(s.working, s.queued[record].task, WorkingSpent(id));
    case Redeliver(_) =>
    case Vanish(worker, pushed) => VanishKeepsPushInv(s, worker, pushed, max, concurrency, id);
    case Finish(worker, env) => FinishKeepsPushInv(s, worker, env, max, concurrency, id);
  }

  lemma VanishKeepsPushInv(s: State, worker: nat, pushed: bool, max: int, concurrency: nat, id: string)
    requires Inv(s, max, concurrency) && worker < |s.working| && PushInv(s, id, max)
    ensures PushInv(Do(s, Vanish(worker, pushed), max, concurrency), id, max)
  {
    hide CountIf, SumOf, Attempts;
    var t := s.working[worker];
    var e := (e: Ended) => e.task.delivery == id;
    SumWithout(s.working, worker, WorkingSpent(id));
    CountAppend(s.ended, Ended(t, FateLost), e);
    CountAppend(s.pushes, t.delivery, (d: string) => d == id);
    assert s.pushes + [] == s.pushes;
    Distribute(Attempts(max), CountIf(s.ended, e), if t.delivery == id then 1 else 0, 0);
  }

  lemma FinishKeepsPushInv(s: State, worker: nat, env: Env, max: int, concurrency: nat, id: string)
    requires Inv(s, max, concurrency) && worker < |s.working| && PushInv(s, id, max)
    ensures PushInv(Do(s, Finish(worker, env), max, concurrency), id, max)
  {
    hide Process, ValidTask, Spent, Do;
    FinishSpends(s, worker, env, max, concurrency, id);
    FinishPushes(s, worker, env, max, concurrency, id);
    FinishSends(s, worker, env, max, concurrency, id);
  }

  lemma FinishPushes(s: State, worker: nat, env: Env, max: int, concurrency: nat, id: string)
    requires worker < |s.working|
    ensures var own := (d: string) => d == id;
            CountIf(Do(s, Finish(worker, env), max, concurrency).pushes, own) <=
            CountIf(s.pushes, own) + if s.working[worker].delivery == id then 1 else 0
  {
    hide Process, FateOf, CountIf, EndedTask;
    CountAppend(s.pushes, s.working[worker].delivery, (d: string) => d == id);
    assert s.pushes + [] == s.pushes;
  }

  /** A task is reported sent only when it ends. */
  lemma FinishSends(s: State, worker: nat, env: Env, max: int, concurrency: nat, id: string)
    requires worker < |s.working|
    ensures var t := Do(s, Finish(worker, env), max, concurrency);
            var own := (d: string) => d == id;
            var e := (e: Ended) => e.task.delivery == id;
            CountIf(t.sent, own) - CountIf(s.sent, own) <= CountIf(t.ended, e) - CountIf(s.ended, e)
  {
    hide Process, FateOf, EndedTask, CountIf;
    var t := s.working[worker];
    var fate := FateOf(t, max, env);
    RetryQueued(t, max, env);
    CountAppend(s.sent, t.delivery, (d: string) => d == id);
    assert s.sent + [] == s.sent;
    CountAppend(s.ended, Ended(EndedTask(t, max, env), fate), (e: Ended) => e.task.delivery == id);
  }

  /** A finished attempt is accounted for. */
  lemma FinishSpends(s: State, worker: nat, env: Env, max: int, concurrency: nat, id: string)
    requires Inv(s, max, concurrency) && worker < |s.working|
    ensures Spent(Do(s, Finish(worker, env), max, concurrency), id, max) >=
            Spent(s, id, max) + if s.working[worker].delivery == id then 1 else 0
  {
    hide Process, FateOf, EndedTask, Requeued, CountIf, SumOf, Attempts;
    var e := (e: Ended) => e.task.delivery == id;
    var t := s.working[worker];
    RetryQueued(t, max, env);
    SumWithout(s.working, worker, WorkingSpent(id));
    SumAppend(s.queued, Requeued(t, max), QueuedSpent(id));
    var x := Ended(EndedTask(t, max, env), FateOf(t, max, env));
    CountAppend(s.ended, x, e);
    Distribute(Attempts(max), CountIf(s.ended, e), if e(x) then 1 else 0, 0);
  }

  lemma {:induction false} SumAtMost<T>(s: seq<T>, f: T -> int, p: T -> bool, c: nat)
    requires forall i :: 0 <= i < |s| ==> f(s[i]) <= if p(s[i]) then c else 0
    ensures SumOf(s, f) <= c * CountIf(s, p)
  {
    if s == [] {
    } else {
      SumAtMost(s[..|s| - 1], f, p, c);
    }
  }

  lemma {:induction false} RunKeepsPushInv(s: State, steps: seq<Step>, max: int, concurrency: nat, id: string)
    requires CanRun(s, steps, max, concurrency) && Inv(s, max, concurrency) && PushInv(s, id, max)
    ensures PushInv(Run(s, steps, max, concurrency), id, max) && Inv(Run(s, steps, max, concurrency), max, concurrency)
    decreases |steps|
  {
    if steps == [] {
    } else {
      StepKeepsPushInv(s, steps[0], max, concurrency, id);
      StepKeepsInv(s, steps[0], max, concurrency);
      RunKeepsPushInv(Do(s, steps[0], max, concurrency), steps[1..], max, concurrency, id);
    }
  }

  /** What the books say of the pushes of one delivery. */
  lemma PushesInBooks(s: State, max: int, concurrency: nat, id: string)
    requires Inv(s, max, concurrency) && PushInv(s, id, max) && Places(s, id) == Entries(s, id)
    ensures CountIf(s.pushes, (d: string) => d == id) <= Attempts(max) * Entries(s, id)
    ensures CountIf(s.sent, (d: string) => d == id) <= Entries(s, id)
  {
    var c := Attempts(max);
    var q := (q: Queued) => q.task.delivery == id;
    var w := (t: DeliveryTask) => t.delivery == id;
    var e := (e: Ended) => e.task.delivery == id;
    SumAtMost(s.queued, QueuedSpent(id), q, c);
    SumAtMost(s.working, WorkingSpent(id), w, c);
    Distribute(c, CountIf(s.queued, q), CountIf(s.working, w), CountIf(s.ended, e));
  }

  /** At any moment of any run a delivery has been pushed at most once per entry and allowed attempt,
      and reported sent at most once per entry. */
  lemma PushesBounded(steps: seq<Step>, max: int, concurrency: nat, id: string)
    requires CanRun(EMPTY, steps, max, concurrency)
    ensures var s := Run(EMPTY, steps, max, concurrency);
            && CountIf(s.pushes, (d: string) => d == id) <= (if max > 0 then max else 1) * Entries(s, id)
            && CountIf(s.sent, (d: string) => d == id) <= Entries(s, id)
  {
    hide Run, CanRun;
    RunConserves(EMPTY, steps, max, concurrency, id);
    RunKeepsPushInv(EMPTY, steps, max, concurrency, id);
    PushesInBooks(Run(EMPTY, steps, max, concurrency), max, concurrency, id);
  }

  lemma Distribute(c: int, x: int, y: int, z: int)
    ensures c * (x + y + z) == c * x + c * y + c * z
  {}
}
