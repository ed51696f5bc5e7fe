/** Scheduler processes working side by side on one store: the steps of ProcessDueSchedules,
    processScheduleRun and enqueueAudience (packages/go/inventory/service.go:974-1064, 1182-1231),
    interleaved in any order, with processes that may stop at any point and start afresh. */
module SchedulerPool {
  import opened Wrappers
  import opened Schedule
  import opened Enqueue
  import opened Paging
  import opened Sorting
  import Text

  datatype Proc =
    | Resting
    | Launching(key: RunKey)
    | Enqueuing(key: RunKey, rows: seq<AudienceRow>, next: nat)
    | Finishing(key: RunKey, ok: bool, rows: seq<AudienceRow>)

  /** A task on the delivery topic, and the run it was made for. */
  datatype Made = Made(task: DeliveryTask, key: RunKey)

  /** A run whose end was stored, whether it went well, and the audience it had gone through. */
  datatype Completion = Completion(key: RunKey, ok: bool, rows: seq<AudienceRow>)

  datatype State = State(
    runs: map<RunKey, RunStatus>,
    procs: seq<Proc>,
    completions: seq<Completion>,
    made: seq<Made>)

  datatype Step =
    | TryRun(p: nat, due: RunKey, readBack: bool)
    | Build(p: nat, audience: Option<seq<AudienceRow>>)
    | Produce(p: nat, delivery: string)
    | Stop(p: nat, ok: bool)
    | Complete(p: nat, stored: bool)
    | Crash(p: nat)

  function Start(processes: nat): State {
    State(map[], seq(processes, i => Resting), [], [])
  }

  /** Blank timezones are never in use: the audience's are filtered and the fallback is set when a
      schedule is stored.  A name with a space around it does not load. */
  predicate ZoneName(timezone: string) {
    timezone != "" && Text.Trim(timezone) == timezone
  }

  /** The snapshot of a scheduled launch: no subscription twice, all of them in the timezone. */
  ghost predicate GoodAudience(rows: seq<AudienceRow>, timezone: string, zoneOf: string -> string) {
    && (forall i, j :: 0 <= i < j < |rows| ==> rows[i].subscription != rows[j].subscription)
    && (forall i :: 0 <= i < |rows| ==> zoneOf(rows[i].subscription) == timezone)
  }

  ghost predicate Ready(s: State, step: Step, zoneOf: string -> string) {
    && step.p < |s.procs|
    && var proc := s.procs[step.p];
       match step
       case TryRun(_, due, _) => proc.Resting? && ZoneName(due.timezone)
       case Build(_, audience) =>
         proc.Launching? && (audience.Some? ==> GoodAudience(audience.value, proc.key.timezone, zoneOf))
       case Produce(_, delivery) =>
         proc.Enqueuing? && proc.next < |proc.rows| && Unused(s, delivery)
       case Stop(_, ok) => proc.Enqueuing? && (ok ==> proc.next == |proc.rows|)
       case Complete(_, _) => proc.Finishing?
       case Crash(_) => true
  }

  /** generateDeliveryID draws an id that was not drawn before. */
  ghost predicate Unused(s: State, delivery: string) {
    forall i :: 0 <= i < |s.made| ==> s.made[i].task.delivery != delivery
  }

  ghost function Do(s: State, step: Step, zoneOf: string -> string): State
    requires Ready(s, step, zoneOf)
  {
    var p := step.p;
    var proc := s.procs[p];
    match step
    case TryRun(_, due, readBack) =>
      if due in s.runs then s
      else s.(runs := s.runs[due := RunPending], procs := s.procs[p := if readBack then Launching(due) else Resting])
    case Build(_, audience) =>
      s.(procs := s.procs[p := if audience.Some? then Proc.Enqueuing(proc.key, audience.value, 0)
                                                 else Finishing(proc.key, false, [])])
    case Produce(_, delivery) =>
      s.(made := s.made + [Made(TaskOf(proc.rows[proc.next], delivery), proc.key)],
         procs := s.procs[p := proc.(next := proc.next + 1)])
    case Stop(_, ok) => s.(procs := s.procs[p := Finishing(proc.key, ok, proc.rows)])
    case Complete(_, stored) =>
      var rested := s.(procs := s.procs[p := Resting]);
      if !stored then rested
      else rested.(runs := s.runs[proc.key := if proc.ok then RunCompleted else RunFailed],
                   completions := s.completions + [Completion(proc.key, proc.ok, proc.rows)])
    case Crash(_) => s.(procs := s.procs[p := Resting])
  }

  // ----- what every step keeps -----

  predicate Holds(proc: Proc, k: RunKey) {
    !proc.Resting? && proc.key == k
  }

  predicate Completed(s: State, k: RunKey) {
    exists i :: 0 <= i < |s.completions| && s.completions[i].key == k
  }

  /** What a process holding a run may rely on: nobody else holds it, it is not completed, and
      its tasks so far are those of the rows already gone through. */
  ghost predicate Alone(s: State, p: nat)
    requires p < |s.procs| && !s.procs[p].Resting?
  {
    var proc := s.procs[p];
    && proc.key in s.runs && !Completed(s, proc.key) && ZoneName(proc.key.timezone)
    && (forall q :: 0 <= q < |s.procs| && q != p ==> !Holds(s.procs[q], proc.key))
    && (proc.Launching? ==> forall i :: 0 <= i < |s.made| ==> s.made[i].key != proc.key)
  }

  ghost predicate Ahead(s: State, p: nat, zoneOf: string -> string)
    requires p < |s.procs| && s.procs[p].Enqueuing?
  {
    var proc := s.procs[p];
    && proc.next <= |proc.rows| && GoodAudience(proc.rows, proc.key.timezone, zoneOf)
    && (forall i, r :: 0 <= i < |s.made| && s.made[i].key == proc.key && proc.next <= r < |proc.rows| ==>
          s.made[i].task.subscription != proc.rows[r].subscription)
  }

  ghost predicate Procs(s: State, zoneOf: string -> string) {
    && (forall p :: 0 <= p < |s.procs| && !s.procs[p].Resting? ==> Alone(s, p))
    && (forall p :: 0 <= p < |s.procs| && s.procs[p].Enqueuing? ==> Ahead(s, p, zoneOf))
  }

  ghost predicate Completions(s: State) {
    && (forall i :: 0 <= i < |s.completions| ==>
          s.completions[i].key in s.runs && (s.completions[i].ok <==> s.runs[s.completions[i].key] == RunCompleted))
    && (forall i, j :: 0 <= i < j < |s.completions| ==> s.completions[i].key != s.completions[j].key)
    && (forall k :: k in s.runs && s.runs[k] == RunCompleted ==> Completed(s, k))
  }

  ghost predicate Tasks(s: State, zoneOf: string -> string) {
    && (forall i :: 0 <= i < |s.made| ==>
          s.made[i].key in s.runs && zoneOf(s.made[i].task.subscription) == s.made[i].key.timezone)
    && (forall i, j :: 0 <= i < j < |s.made| ==>
          && s.made[i].task.delivery != s.made[j].task.delivery
          && (s.made[i].key == s.made[j].key ==> s.made[i].task.subscription != s.made[j].task.subscription))
  }

  ghost predicate Inv(s: State, zoneOf: string -> string) {
    Procs(s, zoneOf) && Completions(s) && Tasks(s, zoneOf)
  }

  lemma StepKeepsInv(s: State, step: Step, zoneOf: string -> string)
    requires Inv(s, zoneOf) && Ready(s, step, zoneOf)
    ensures Inv(Do(s, step, zoneOf), zoneOf)
  {
    StepKeepsAlone(s, step, zoneOf);
    StepKeepsAhead(s, step, zoneOf);
    StepKeepsCompletions(s, step, zoneOf);
  }

  lemma StepKeepsAlone(s: State, step: Step, zoneOf: string -> string)
    requires Inv(s, zoneOf) && Ready(s, step, zoneOf)
    ensures var t := Do(s, step, zoneOf);
            forall p :: 0 <= p < |t.procs| && !t.procs[p].Resting? ==> Alone(t, p)
  {
    hide ZoneName, GoodAudience, Unused, Ahead;
    var t := Do(s, step, zoneOf);
    forall p | 0 <= p < |t.procs| && !t.procs[p].Resting? ensures Alone(t, p) {
      assert !s.procs[p].Resting? ==> Alone(s, p);
    }
  }

  lemma StepKeepsAhead(s: State, step: Step, zoneOf: string -> string)
    requires Inv(s, zoneOf) && Ready(s, step, zoneOf)
    ensures var t := Do(s, step, zoneOf);
            forall p :: 0 <= p < |t.procs| && t.procs[p].Enqueuing? ==> Ahead(t, p, zoneOf)
  {
    hide ZoneName, Unused, Completions;
    var t := Do(s, step, zoneOf);
    forall p | 0 <= p < |t.procs| && t.procs[p].Enqueuing? ensures Ahead(t, p, zoneOf) {
      assert !s.procs[p].Resting? ==> Alone(s, p);
      assert s.procs[p].Enqueuing? ==> Ahead(s, p, zoneOf);
    }
  }

  lemma StepKeepsCompletions(s: State, step: Step, zoneOf: string -> string)
    requires Inv(s, zoneOf) && Ready(s, step, zoneOf)
    ensures Completions(Do(s, step, zoneOf))
  {
    hide ZoneName, GoodAudience, Unused, Tasks;
    var t := Do(s, step, zoneOf);
    if step.Complete? { assert Alone(s, step.p); }
    forall k | k in t.runs && t.runs[k] == RunCompleted ensures Completed(t, k) {
      if step.Complete? && step.stored && k == s.procs[step.p].key {
        assert t.completions[|s.completions|].key == k;
      } else {
        var i :| 0 <= i < |s.completions| && s.completions[i].key == k;
        assert t.completions[i] == s.completions[i];
      }
    }
  }

  // ----- runs -----

  ghost predicate CanRun(s: State, steps: seq<Step>, zoneOf: string -> string)
    decreases |steps|
  {
    steps == [] || (Ready(s, steps[0], zoneOf) && CanRun(Do(s, steps[0], zoneOf), steps[1..], zoneOf))
  }

  ghost function Run(s: State, steps: seq<Step>, zoneOf: string -> string): State
    requires CanRun(s, steps, zoneOf)
    decreases |steps|
  {
    if steps == [] then s else Run(Do(s, steps[0], zoneOf), steps[1..], zoneOf)
  }

  lemma {:induction false} RunKeepsInv(s: State, steps: seq<Step>, zoneOf: string -> string)
    requires Inv(s, zoneOf) && CanRun(s, steps, zoneOf)
    ensures Inv(Run(s, steps, zoneOf), zoneOf)
    decreases |steps|
  {
    if steps == [] {
    } else {
      StepKeepsInv(s, steps[0], zoneOf);
      RunKeepsInv(Do(s, steps[0], zoneOf), steps[1..], zoneOf);
    }
  }

  /** The tasks of one subscription for one slot on one local date, in whatever timezone. */
  predicate SameSlot(a: Made, subscription: string, schedule: string, slot: string, date: int) {
    a.task.subscription == subscription && a.key.schedule == schedule && a.key.slot == slot && a.key.date == date
  }

  ghost predicate OneTaskAtMost(s: State, subscription: string, schedule: string, slot: string, date: int) {
    forall i, j :: 0 <= i < j < |s.made| && SameSlot(s.made[i], subscription, schedule, slot, date) ==>
                     !SameSlot(s.made[j], subscription, schedule, slot, date)
  }

  lemma OneTaskPerSlot(
    s: State, zoneOf: string -> string, subscription: string, schedule: string, slot: string, date: int)
    requires Tasks(s, zoneOf)
    ensures OneTaskAtMost(s, subscription, schedule, slot, date)
  {}

  /** Whatever the interleaving, the ticks and the crashes: a run is completed at most once, and a
      subscription gets at most one task per slot and local date. */
  lemma AtMostOnce(
    processes: nat, steps: seq<Step>, zoneOf: string -> string, subscription: string, schedule: string, slot: string,
    date: int)
    requires CanRun(Start(processes), steps, zoneOf)
    ensures var s := Run(Start(processes), steps, zoneOf);
            && OneTaskAtMost(s, subscription, schedule, slot, date)
            && (forall i, j :: 0 <= i < j < |s.completions| ==> s.completions[i].key != s.completions[j].key)
  {
    hide Tasks, Procs, SameSlot;
    assert Inv(Start(processes), zoneOf) by { StartInv(processes, zoneOf); }
    RunKeepsInv(Start(processes), steps, zoneOf);
    OneTaskPerSlot(Run(Start(processes), steps, zoneOf), zoneOf, subscription, schedule, slot, date);
  }

  lemma StartInv(processes: nat, zoneOf: string -> string)
    ensures Inv(Start(processes), zoneOf)
  {}

  // ----- completed runs -----

  /** The tasks made for a run, in order. */
  function MadeFor(made: seq<Made>, k: RunKey): seq<Made> {
    Filter(made, (m: Made) => m.key == k)
  }

  /** One task for every row, in order. */
  predicate OneEach(made: seq<Made>, rows: seq<AudienceRow>) {
    && |made| == |rows|
    && forall r :: 0 <= r < |rows| ==> made[r].task == TaskOf(rows[r], made[r].task.delivery)
  }

  /** A process has made the tasks of the rows it went through, and a run that went well all. */
  ghost predicate Progress(s: State) {
    && (forall p :: 0 <= p < |s.procs| ==> ProcProgress(s.made, s.procs[p]))
    && (forall i :: 0 <= i < |s.completions| && s.completions[i].ok ==>
          OneEach(MadeFor(s.made, s.completions[i].key), s.completions[i].rows))
  }

  predicate ProcProgress(made: seq<Made>, proc: Proc) {
    match proc
    case Resting => true
    case Launching(k) => MadeFor(made, k) == []
    case Enqueuing(k, rows, next) => next <= |rows| && OneEach(MadeFor(made, k), rows[..next])
    case Finishing(k, ok, rows) => ok ==> OneEach(MadeFor(made, k), rows)
  }

  lemma OneMoreMade(made: seq<Made>, m: Made, k: RunKey)
    ensures MadeFor(made + [m], k) == if m.key == k then MadeFor(made, k) + [m] else MadeFor(made, k)
  {
    assert (made + [m])[..|made|] == made;
    assert MadeFor(made, k) + [] == MadeFor(made, k);
  }

  lemma {:induction false} NoneMade(made: seq<Made>, k: RunKey)
    requires forall i :: 0 <= i < |made| ==> made[i].key != k
    ensures MadeFor(made, k) == []
  {
    if made == [] {
    } else {
      NoneMade(made[..|made| - 1], k);
    }
  }

  lemma ProduceProgress(s: State, step: Step, zoneOf: string -> string)
    requires step.Produce? && Procs(s, zoneOf) && Progress(s) && Ready(s, step, zoneOf)
    ensures Progress(Do(s, step, zoneOf))
  {
    hide Unused, GoodAudience, ZoneName, MadeFor, Ahead;
    var t := Do(s, step, zoneOf);
    var proc := s.procs[step.p];
    assert Alone(s, step.p) && ProcProgress(s.made, proc);
    var m := t.made[|s.made|];
    forall q | 0 <= q < |t.procs| ensures ProcProgress(t.made, t.procs[q]) {
      assert ProcProgress(s.made, s.procs[q]);
      if q == step.p {
        OneMoreMade(s.made, m, proc.key);
        assert proc.rows[..proc.next + 1] == proc.rows[..proc.next] + [proc.rows[proc.next]];
      } else if !s.procs[q].Resting? {
        assert !Holds(s.procs[q], proc.key);
        OneMoreMade(s.made, m, s.procs[q].key);
      }
    }
    forall i | 0 <= i < |s.completions|
      ensures MadeFor(t.made, s.completions[i].key) == MadeFor(s.made, s.completions[i].key)
    {
      OneMoreMade(s.made, m, s.completions[i].key);
    }
  }

  lemma StepKeepsProgress(s: State, step: Step, zoneOf: string -> string)
    requires Inv(s, zoneOf) && Progress(s) && Ready(s, step, zoneOf)
    ensures Progress(Do(s, step, zoneOf))
  {
    hide Unused, GoodAudience, ZoneName, MadeFor, OneEach, Ahead, Completions;
    if step.Produce? {
      ProduceProgress(s, step, zoneOf);
    } else {
      var proc := s.procs[step.p];
      assert ProcProgress(s.made, proc);
      if step.TryRun? && step.due !in s.runs {
        forall i | 0 <= i < |s.made| ensures s.made[i].key != step.due { assert s.made[i].key in s.runs; }
        NoneMade(s.made, step.due);
      }
      StopProgress(s.made, proc);
    }
  }

  lemma StopProgress(made: seq<Made>, proc: Proc)
    requires ProcProgress(made, proc)
    ensures proc.Enqueuing? ==>
              forall ok :: (ok ==> proc.next == |proc.rows|) ==> ProcProgress(made, Finishing(proc.key, ok, proc.rows))
    ensures proc.Launching? ==> forall rows :: ProcProgress(made, Proc.Enqueuing(proc.key, rows, 0))
  {
    if proc.Enqueuing? && proc.next == |proc.rows| { assert proc.rows[..proc.next] == proc.rows; }
  }

  lemma {:induction false} RunKeepsProgress(s: State, steps: seq<Step>, zoneOf: string -> string)
    requires Inv(s, zoneOf) && Progress(s) && CanRun(s, steps, zoneOf)
    ensures Progress(Run(s, steps, zoneOf))
    decreases |steps|
  {
    hide Inv, Progress, Do, Ready;
    if steps == [] {
    } else {
      StepKeepsInv(s, steps[0], zoneOf);
      StepKeepsProgress(s, steps[0], zoneOf);
      RunKeepsProgress(Do(s, steps[0], zoneOf), steps[1..], zoneOf);
    }
  }

  /** A run that is stored as completed has made exactly one task for every row of its audience, in
      the order of the rows, and no other. */
  lemma CompletedMeansAllMade(processes: nat, steps: seq<Step>, zoneOf: string -> string, k: RunKey)
    returns (rows: seq<AudienceRow>)
    requires CanRun(Start(processes), steps, zoneOf)
    requires var s := Run(Start(processes), steps, zoneOf);
             k in s.runs && s.runs[k] == RunCompleted
    ensures var s := Run(Start(processes), steps, zoneOf);
            Completion(k, true, rows) in s.completions && OneEach(MadeFor(s.made, k), rows)
  {
    hide Procs, Tasks, MadeFor, OneEach, Run;
    var s := Run(Start(processes), steps, zoneOf);
    StartInv(processes, zoneOf);
    RunKeepsInv(Start(processes), steps, zoneOf);
    RunKeepsProgress(Start(processes), steps, zoneOf);
    var i :| 0 <= i < |s.completions| && s.completions[i].key == k;
    rows := s.completions[i].rows;
  }

  // ----- the audience of a scheduled launch -----

  /** The snapshot that enqueueAudience reads is an audience of the kind Build expects: the
      timezone filter of the audience query and one row per subscription see to that. */
  lemma SnapshotIsGoodAudience(
    table: seq<AudienceRow>, subs: seq<Subscriber>, c: Campaign, launch: string, timezone: string,
    shardOf: string -> nat, before: IdOrder, zoneOf: string -> string)
    requires ZoneName(timezone) && OneRowEach(subs) && TotalIdOrder(before)
    requires forall s :: s in subs ==> zoneOf(s.subscription) == s.timezone
    requires forall r :: r in table ==> r.launch != launch
    ensures GoodAudience(Snapshot(table + AudienceRows(subs, c, launch, timezone, shardOf), launch, before),
                         timezone, zoneOf)
  {
    hide AudienceRows, ComesFrom, TotalIdOrder, OneRowEach, Snapshot, DistinctKeys, Ordered, ZoneName;
    var rows := AudienceRows(subs, c, launch, timezone, shardOf);
    AudienceMeaning(subs, c, launch, timezone, shardOf);
    NewRowsOnly(table, rows, launch, before);
    SnapshotMeaning(rows, launch, before);
    var snapshot := Snapshot(rows, launch, before);
    forall i | 0 <= i < |snapshot|
      ensures zoneOf(snapshot[i].subscription) == timezone && snapshot[i].shard == shardOf(snapshot[i].subscription)
    {
      assert snapshot[i] in rows;
      RowInZone(subs, c, launch, timezone, shardOf, zoneOf, snapshot[i]);
    }
    DistinctSnapshot(snapshot, shardOf, before);
  }

  lemma RowInZone(
    subs: seq<Subscriber>, c: Campaign, launch: string, timezone: string, shardOf: string -> nat,
    zoneOf: string -> string, row: AudienceRow)
    requires ZoneName(timezone) && forall s :: s in subs ==> zoneOf(s.subscription) == s.timezone
    requires ComesFrom(row, subs, c, launch, timezone, shardOf)
    ensures zoneOf(row.subscription) == timezone && row.shard == shardOf(row.subscription)
  {
    var s :| s in subs && Addressed(c, timezone, s) && Carries(row, s, launch, c.id, shardOf(s.subscription));
  }

  lemma DistinctSnapshot(snapshot: seq<AudienceRow>, shardOf: string -> nat, before: IdOrder)
    requires TotalIdOrder(before) && Ordered(RowOrder(before), snapshot)
    requires forall i :: 0 <= i < |snapshot| ==> snapshot[i].shard == shardOf(snapshot[i].subscription)
    ensures forall i, j :: 0 <= i < j < |snapshot| ==> snapshot[i].subscription != snapshot[j].subscription
  {
    forall i, j | 0 <= i < j < |snapshot| ensures snapshot[i].subscription != snapshot[j].subscription {
      assert RowOrder(before)(snapshot[i], snapshot[j]);
    }
  }

  lemma NewRowsOnly(table: seq<AudienceRow>, rows: seq<AudienceRow>, launch: string, before: IdOrder)
    requires forall r :: r in table ==> r.launch != launch
    requires forall i :: 0 <= i < |rows| ==> rows[i].launch == launch
    ensures Snapshot(table + rows, launch, before) == Snapshot(rows, launch, before)
  {
    CountNewLaunch(table, rows, launch);
    CountNewLaunch([], rows, launch);
    assert [] + rows == rows;
  }
}
