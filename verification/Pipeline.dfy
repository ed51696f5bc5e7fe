/** From a scheduled slot to the pushes: the schedulers of SchedulerPool feeding the delivery
    topics and workers of SenderPool.  Producing a task is its arrival at the sender. */
module Pipeline {
  import opened Counting
  import opened Enqueue
  import opened Paging
  import opened Schedule
  import opened Sorting
  import Sched = SchedulerPool
  import Pool = SenderPool

  datatype State = State(sched: Sched.State, pool: Pool.State)

  datatype Step = Schedule(step: Sched.Step) | Deliver(move: Pool.Step)

  datatype Setup = Setup(zoneOf: string -> string, max: int, concurrency: nat)

  function Start(processes: nat): State {
    State(Sched.Start(processes), Pool.EMPTY)
  }

  ghost predicate Ready(s: State, step: Step, setup: Setup) {
    match step
    case Schedule(step) => Sched.Ready(s.sched, step, setup.zoneOf)
    case Deliver(move) => !move.Arrive? && Pool.Ready(s.pool, move, setup.concurrency)
  }

  /** The task that a Produce step puts on the delivery topic. */
  ghost function NextTask(s: Sched.State, step: Sched.Step, zoneOf: string -> string): DeliveryTask
    requires step.Produce? && Sched.Ready(s, step, zoneOf)
  {
    TaskOf(s.procs[step.p].rows[s.procs[step.p].next], step.delivery)
  }

  ghost function Do(s: State, step: Step, setup: Setup): State
    requires Ready(s, step, setup)
  {
    match step
    case Schedule(step) =>
      State(Sched.Do(s.sched, step, setup.zoneOf),
            if step.Produce?
            then Pool.Do(s.pool, Pool.Arrive(NextTask(s.sched, step, setup.zoneOf)), setup.max, setup.concurrency)
            else s.pool)
    case Deliver(move) => s.(pool := Pool.Do(s.pool, move, setup.max, setup.concurrency))
  }

  ghost predicate CanRun(s: State, steps: seq<Step>, setup: Setup)
    decreases |steps|
  {
    steps == [] || (Ready(s, steps[0], setup) && CanRun(Do(s, steps[0], setup), steps[1..], setup))
  }

  ghost function Run(s: State, steps: seq<Step>, setup: Setup): State
    requires CanRun(s, steps, setup)
    decreases |steps|
  {
    if steps == [] then s else Run(Do(s, steps[0], setup), steps[1..], setup)
  }

  // ----- what every step keeps -----

  /** What arrived at the sender is what the schedulers produced, in order. */
  ghost predicate Fed(s: State) {
    && |s.pool.arrived| == |s.sched.made|
    && forall i :: 0 <= i < |s.sched.made| ==> s.pool.arrived[i] == s.sched.made[i].task.delivery
  }

  ghost predicate Books(s: Pool.State, max: int, id: string) {
    Pool.Places(s, id) == Pool.Entries(s, id) && Pool.PushInv(s, id, max)
  }

  ghost predicate Inv(s: State, setup: Setup, id: string) {
    && Sched.Inv(s.sched, setup.zoneOf) && Sched.Progress(s.sched)
    && Pool.Inv(s.pool, setup.max, setup.concurrency)
    && Fed(s) && Books(s.pool, setup.max, id)
  }

  lemma PoolStep(s: Pool.State, step: Pool.Step, max: int, concurrency: nat, id: string)
    requires Pool.Inv(s, max, concurrency) && Books(s, max, id) && Pool.Ready(s, step, concurrency)
    ensures Pool.Inv(Pool.Do(s, step, max, concurrency), max, concurrency)
    ensures Books(Pool.Do(s, step, max, concurrency), max, id)
  {
    hide Pool.Inv, Pool.PushInv, Pool.Places, Pool.Entries, Pool.Do;
    Pool.StepKeepsInv(s, step, max, concurrency);
    Pool.StepConserves(s, step, max, concurrency, id);
    Pool.StepKeepsPushInv(s, step, max, concurrency, id);
  }

  lemma StepKeepsInv(s: State, step: Step, setup: Setup, id: string)
    requires Inv(s, setup, id) && Ready(s, step, setup)
    ensures Inv(Do(s, step, setup), setup, id)
  {
    hide Pool.Inv, Books, Sched.Inv, Sched.Progress;
    match step
    case Schedule(step) =>
      Sched.StepKeepsInv(s.sched, step, setup.zoneOf);
      Sched.StepKeepsProgress(s.sched, step, setup.zoneOf);
      if step.Produce? {
        PoolStep(s.pool, Pool.Arrive(NextTask(s.sched, step, setup.zoneOf)), setup.max, setup.concurrency, id);
      }
    case Deliver(move) => PoolStep(s.pool, move, setup.max, setup.concurrency, id);
  }

  lemma {:induction false} RunKeepsInv(s: State, steps: seq<Step>, setup: Setup, id: string)
    requires Inv(s, setup, id) && CanRun(s, steps, setup)
    ensures Inv(Run(s, steps, setup), setup, id)
    decreases |steps|
  {
    hide Inv, Do, Ready;
    if steps == [] {
    } else {
      StepKeepsInv(s, steps[0], setup, id);
      RunKeepsInv(Do(s, steps[0], setup), steps[1..], setup, id);
    }
  }

  lemma StartInv(processes: nat, setup: Setup, id: string)
    ensures Inv(Start(processes), setup, id)
  {
    Sched.StartInv(processes, setup.zoneOf);
  }

  // ----- deliveries of one subscription, slot and date -----

  lemma {:induction false} ArrivedAtMostOnce(arrived: seq<string>, id: string)
    requires forall i, j :: 0 <= i < j < |arrived| ==> arrived[i] != arrived[j]
    ensures CountIf(arrived, (d: string) => d == id) == if id in arrived then 1 else 0
  {
    if arrived == [] {
    } else {
      var n := |arrived| - 1;
      ArrivedAtMostOnce(arrived[..n], id);
      assert arrived == arrived[..n] + [arrived[n]];
    }
  }

  /** How often a delivery was handed out again. */
  function Again(s: State, id: string): nat {
    CountIf(s.pool.again, (d: string) => d == id)
  }

  /** Conservation for one delivery id: it is in one place per entry, pushed at most once per
      entry and allowed attempt, and reported sent at most once per entry. */
  lemma OneDelivery(s: State, setup: Setup, id: string)
    requires Inv(s, setup, id)
    ensures var entries := (if id in s.pool.arrived then 1 else 0) + Again(s, id);
            && Pool.Places(s.pool, id) == entries
            && CountIf(s.pool.pushes, (d: string) => d == id) <= Pool.Attempts(setup.max) * entries
            && CountIf(s.pool.sent, (d: string) => d == id) <= entries
  {
    hide Pool.Inv, Pool.PushInv, Pool.Places, Sched.Procs, Sched.Completions, CountIf;
    ArrivedAtMostOnce(s.pool.arrived, id);
    Pool.PushesInBooks(s.pool, setup.max, setup.concurrency, id);
  }

  lemma {:induction false} SameCount<T>(s: seq<T>, p: T -> bool, q: T -> bool)
    requires forall i :: 0 <= i < |s| ==> (p(s[i]) <==> q(s[i]))
    ensures CountIf(s, p) == CountIf(s, q)
  {
    if s == [] {
    } else {
      SameCount(s[..|s| - 1], p, q);
    }
  }

  /** The deliveries made for a subscription, slot and local date, in any timezone. */
  ghost function ForSlot(s: State, subscription: string, schedule: string, slot: string, date: int): string -> bool {
    (d: string) => exists i :: 0 <= i < |s.sched.made| && s.sched.made[i].task.delivery == d &&
                               Sched.SameSlot(s.sched.made[i], subscription, schedule, slot, date)
  }

  /** Safety of the whole chain: however schedulers, workers, failures and restarts interleave, a
      subscription is pushed at most once per allowed attempt for one slot and local date, and at
      most one of these pushes is reported sent; every record that is handed out again for want of
      a commit allows for as much once more. */
  lemma SlotPushesBounded(
    processes: nat, steps: seq<Step>, setup: Setup, subscription: string, schedule: string, slot: string, date: int)
    requires CanRun(Start(processes), steps, setup)
    ensures var s := Run(Start(processes), steps, setup);
            var mine := ForSlot(s, subscription, schedule, slot, date);
            var entries := 1 + CountIf(s.pool.again, mine);
            && CountIf(s.pool.pushes, mine) <= Pool.Attempts(setup.max) * entries
            && CountIf(s.pool.sent, mine) <= entries
  {
    hide Pool.Attempts, Inv, Run, CanRun;
    var s := Run(Start(processes), steps, setup);
    var mine := ForSlot(s, subscription, schedule, slot, date);
    var made := s.sched.made;
    if i :| 0 <= i < |made| && Sched.SameSlot(made[i], subscription, schedule, slot, date) {
      var id := made[i].task.delivery;
      StartInv(processes, setup, id);
      RunKeepsInv(Start(processes), steps, setup, id);
      OneDelivery(s, setup, id);
      OnlyDelivery(s, setup, i, subscription, schedule, slot, date);
      var own := (d: string) => d == id;
      SameCount(s.pool.pushes, mine, own);
      SameCount(s.pool.sent, mine, own);
      SameCount(s.pool.again, mine, own);
      AtLeastOnce(Pool.Attempts(setup.max), if id in s.pool.arrived then 1 else 0, Again(s, id));
    } else {
      CountNone(s.pool.pushes, mine);
      CountNone(s.pool.sent, mine);
      CountNone(s.pool.again, mine);
    }
  }

  lemma AtLeastOnce(c: nat, x: nat, y: nat)
    requires x <= 1
    ensures c * (x + y) <= c * (1 + y)
  {}

  lemma OnlyDelivery(
    s: State, setup: Setup, i: nat, subscription: string, schedule: string, slot: string, date: int)
    requires i < |s.sched.made| && Inv(s, setup, s.sched.made[i].task.delivery)
    requires Sched.SameSlot(s.sched.made[i], subscription, schedule, slot, date)
    ensures forall d :: ForSlot(s, subscription, schedule, slot, date)(d) <==> d == s.sched.made[i].task.delivery
  {
    hide Pool.Inv, Books, Sched.Procs, Sched.Completions;
    Sched.OneTaskPerSlot(s.sched, setup.zoneOf, subscription, schedule, slot, date);
  }

  /** Once the workers are idle and the topics empty, every task the schedulers produced has
      ended, exactly once per entry. */
  lemma QuietMeansEnded(processes: nat, steps: seq<Step>, setup: Setup, i: nat)
    requires CanRun(Start(processes), steps, setup)
    requires Run(Start(processes), steps, setup).pool.queued == []
    requires Run(Start(processes), steps, setup).pool.working == []
    requires i < |Run(Start(processes), steps, setup).sched.made|
    ensures var s := Run(Start(processes), steps, setup);
            var id := s.sched.made[i].task.delivery;
            CountIf(s.pool.ended, (e: Pool.Ended) => e.task.delivery == id) == 1 + Again(s, id)
  {
    hide Run, CanRun;
    var s := Run(Start(processes), steps, setup);
    var id := s.sched.made[i].task.delivery;
    StartInv(processes, setup, id);
    RunKeepsInv(Start(processes), steps, setup, id);
    OneDelivery(s, setup, id);
    assert s.pool.arrived[i] == id;
  }

  /** A completed run, once the workers are idle and the topics empty: every row of its audience got
      one delivery of its own, and that delivery has ended, once per entry. */
  lemma CompletedRunsEnd(processes: nat, steps: seq<Step>, setup: Setup, k: RunKey) returns (rows: seq<AudienceRow>)
    requires CanRun(Start(processes), steps, setup)
    requires var s := Run(Start(processes), steps, setup);
             && s.pool.queued == [] && s.pool.working == []
             && k in s.sched.runs && s.sched.runs[k] == RunCompleted
    ensures var s := Run(Start(processes), steps, setup);
            var mine := Sched.MadeFor(s.sched.made, k);
            && Sched.Completion(k, true, rows) in s.sched.completions
            && Sched.OneEach(mine, rows)
            && forall r :: 0 <= r < |rows| ==>
                 CountIf(s.pool.ended, (e: Pool.Ended) => e.task.delivery == mine[r].task.delivery) ==
                 1 + Again(s, mine[r].task.delivery)
  {
    hide Run, CanRun, Inv, Sched.MadeFor, Sched.OneEach, Again, CountIf;
    var s := Run(Start(processes), steps, setup);
    StartInv(processes, setup, "");
    RunKeepsInv(Start(processes), steps, setup, "");
    rows := CompletedRows(s, setup, "", k);
    var mine := Sched.MadeFor(s.sched.made, k);
    forall r | 0 <= r < |mine|
      ensures CountIf(s.pool.ended, (e: Pool.Ended) => e.task.delivery == mine[r].task.delivery) ==
              1 + Again(s, mine[r].task.delivery)
    {
      var i := PlaceOf(s.sched.made, k, r);
      QuietMeansEnded(processes, steps, setup, i);
    }
  }

  lemma CompletedRows(s: State, setup: Setup, id: string, k: RunKey) returns (rows: seq<AudienceRow>)
    requires Inv(s, setup, id) && k in s.sched.runs && s.sched.runs[k] == RunCompleted
    ensures Sched.Completion(k, true, rows) in s.sched.completions
    ensures Sched.OneEach(Sched.MadeFor(s.sched.made, k), rows) && |Sched.MadeFor(s.sched.made, k)| == |rows|
  {
    hide Sched.MadeFor, Sched.Procs, Sched.Tasks, Pool.Inv, Books;
    var i :| 0 <= i < |s.sched.completions| && s.sched.completions[i].key == k;
    rows := s.sched.completions[i].rows;
  }

  lemma PlaceOf(made: seq<Sched.Made>, k: RunKey, r: nat) returns (i: nat)
    requires r < |Sched.MadeFor(made, k)|
    ensures i < |made| && made[i] == Sched.MadeFor(made, k)[r]
  {
    FilterMembers(made, (m: Sched.Made) => m.key == k);
    assert Sched.MadeFor(made, k)[r] in Sched.MadeFor(made, k);
    i :| 0 <= i < |made| && made[i] == Sched.MadeFor(made, k)[r];
  }
}
