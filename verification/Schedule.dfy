/** When a schedule slot is due, and one scheduler tick: packages/go/inventory/service.go:974-1114,
    apps/scheduler/main.go:63-81.  Instants and local wall times are nanoseconds since the epoch. */
module Schedule {
  import opened Clock
  import opened Wrappers
  import opened Counting

  /** A loaded timezone: its offset at an instant, and the instant time.Date finds for a local time. */
  datatype Zone = Zone(offsetAt: int -> int, instantOf: int -> int)

  function FixedZone(offset: int): Zone {
    Zone((t: int) => offset, (local: int) => local - offset)
  }

  /** `clock` is the parsed local time of the slot; it is None when it does not parse. */
  datatype Slot = Slot(id: string, clock: Option<nat>, days: seq<int>)

  datatype CampaignSchedule = CampaignSchedule(
    id: string,
    campaign: string,
    fallbackTimezone: string,
    graceMinutes: int,
    slots: seq<Slot>)

  datatype Due = Due(date: int, at: int)

  /** ISO weekday of a local day: the epoch was a Thursday. */
  function IsoWeekday(day: int): int {
    var weekday := (day + 4) % 7;
    if weekday == 0 then 7 else weekday
  }

  /** Weekdays run from Monday, 1, to Sunday, 7, and day 0 was a Thursday. */
  lemma WeekdaysInOrder(day: int)
    ensures 1 <= IsoWeekday(day) <= 7 && IsoWeekday(0) == 4
    ensures IsoWeekday(day + 1) == if IsoWeekday(day) == 7 then 1 else IsoWeekday(day) + 1
  {}

  function GraceOf(minutes: int): int {
    (if minutes <= 0 then 10 else minutes) * MINUTE
  }

  /** scheduleSlotDue. */
  function SlotDue(now: int, zone: Option<Zone>, slot: Slot, graceMinutes: int): Option<Due> {
    if zone.None? then None
    else
      var z := zone.value;
      var today := (now + z.offsetAt(now)) / DAY;
      if IsoWeekday(today) !in slot.days || slot.clock.None? then None
      else
        var at := z.instantOf(today * DAY + slot.clock.value);
        if now < at || now >= at + GraceOf(graceMinutes) then None
        else Some(Due((at + z.offsetAt(at)) / DAY, at))
  }

  // ----- the window of a slot, in a zone with a fixed offset -----

  predicate ClockTime(clock: int) {
    0 <= clock < DAY
  }

  /** The instant at which the slot of local day `day` comes up. */
  function WindowStart(day: int, offset: int, clock: int): int {
    day * 86_400_000_000_000 + clock - offset
  }

  /** The grace, ten minutes unless it is positive, or the rest of the local day if that is shorter. */
  function WindowLength(clock: int, graceMinutes: int): int {
    var grace := if graceMinutes > 0 then graceMinutes * 60_000_000_000 else 600_000_000_000;
    if grace <= 86_400_000_000_000 - clock then grace else 86_400_000_000_000 - clock
  }

  /** The slot has come up, its grace is not over, and the local midnight has not come. */
  predicate InWindow(now: int, day: int, offset: int, clock: int, graceMinutes: int) {
    && day * 86_400_000_000_000 + clock <= now + offset < (day + 1) * 86_400_000_000_000
    && now + offset < day * 86_400_000_000_000 + clock +
                      (if graceMinutes > 0 then graceMinutes * 60_000_000_000 else 600_000_000_000)
  }

  /** A slot is due exactly in the window of an enabled day, under the date of that day. */
  lemma DueExactlyInWindow(now: int, offset: int, slot: Slot, clock: nat, graceMinutes: int, day: int)
    requires slot.clock == Some(clock) && ClockTime(clock)
    ensures SlotDue(now, Some(FixedZone(offset)), slot, graceMinutes) == Some(Due(day, WindowStart(day, offset, clock)))
            <==> IsoWeekday(day) in slot.days && InWindow(now, day, offset, clock, graceMinutes)
    ensures SlotDue(now, Some(FixedZone(offset)), slot, graceMinutes).Some? ==>
              exists d :: SlotDue(now, Some(FixedZone(offset)), slot, graceMinutes) ==
                          Some(Due(d, WindowStart(d, offset, clock)))
  {
    var today := (now + offset) / DAY;
    DayBounds(now + offset, today);
    DayBounds(now + offset, day);
    DayBounds(today * DAY + clock, today);
    assert SlotDue(now, Some(FixedZone(offset)), slot, graceMinutes).Some? ==>
             SlotDue(now, Some(FixedZone(offset)), slot, graceMinutes) ==
             Some(Due(today, WindowStart(today, offset, clock)));
  }

  lemma DayBounds(t: int, day: int)
    ensures t / DAY == day <==> day * DAY <= t < (day + 1) * DAY
  {}

  /** Windows of different dates do not meet. */
  lemma WindowsDisjoint(now: int, offset: int, clock: nat, graceMinutes: int, d: int, e: int)
    requires ClockTime(clock) && InWindow(now, d, offset, clock, graceMinutes)
    requires InWindow(now, e, offset, clock, graceMinutes)
    ensures d == e
  {
    DayBounds(now + offset, d);
    DayBounds(now + offset, e);
  }

  // ----- coverage by ticks -----

  ghost predicate GapsAtMost(ticks: seq<int>, gap: int) {
    forall i :: 0 <= i < |ticks| - 1 ==> ticks[i] <= ticks[i + 1] <= ticks[i] + gap
  }

  /** Ticks that begin no later than `start`, go on at least to `start`, and never pause longer
      than `gap`. */
  ghost predicate Ticking(ticks: seq<int>, start: int, gap: int) {
    && ticks != [] && ticks[0] <= start <= ticks[|ticks| - 1]
    && GapsAtMost(ticks, gap)
  }

  ghost predicate Hits(ticks: seq<int>, start: int, length: int) {
    exists i :: 0 <= i < |ticks| && start <= ticks[i] < start + length
  }

  lemma {:induction false} TicksHit(ticks: seq<int>, start: int, length: int)
    requires length > 0 && Ticking(ticks, start, length)
    ensures Hits(ticks, start, length)
  {
    if ticks[0] == start {
    } else {
      var rest := ticks[1..];
      assert |ticks| > 1;
      if ticks[1] >= start {
        assert ticks[1] <= ticks[0] + length;
      } else {
        assert GapsAtMost(rest, length) by {
          forall i | 0 <= i < |rest| - 1 ensures rest[i] <= rest[i + 1] <= rest[i] + length {
            assert rest[i] == ticks[i + 1] && rest[i + 1] == ticks[i + 2];
          }
        }
        TicksHit(rest, start, length);
        var i :| 0 <= i < |rest| && start <= rest[i] < start + length;
        assert ticks[i + 1] == rest[i];
      }
    }
  }

  // ----- one tick -----

  datatype RunKey = RunKey(schedule: string, slot: string, date: int, timezone: string)

  datatype RunStatus = RunPending | RunCompleted | RunFailed

  datatype TickResult = TickResult(created: nat, completed: nat, failed: nat)

  /** What becomes of the launch of a run, and of the update that completes the run and reads it back. */
  datatype RunFate = RunFate(launched: bool, enqueued: bool, stored: Reply)

  /** What becomes of the insert of a run, whose row is read back as well, and of the run. */
  datatype Env = Env(insert: RunKey -> Reply, fate: RunKey -> RunFate)

  function ZonesFor(s: CampaignSchedule, timezones: seq<string>): seq<string> {
    if timezones == [] then [s.fallbackTimezone] else timezones
  }

  function DueKey(now: int, load: string -> Option<Zone>, s: CampaignSchedule, slot: Slot, timezone: string):
    Option<RunKey>
  {
    var due := SlotDue(now, load(timezone), slot, s.graceMinutes);
    if due.None? then None else Some(RunKey(s.id, slot.id, due.value.date, timezone))
  }

  // The keys that are due, in the order of the three loops.

  function ZoneKeys(now: int, load: string -> Option<Zone>, s: CampaignSchedule, slot: Slot, zones: seq<string>):
    (keys: seq<RunKey>)
    ensures zones == [] ==> keys == []
  {
    if zones == [] then []
    else
      var n := |zones| - 1;
      var key := DueKey(now, load, s, slot, zones[n]);
      ZoneKeys(now, load, s, slot, zones[..n]) + if key.None? then [] else [key.value]
  }

  function SlotKeys(now: int, load: string -> Option<Zone>, s: CampaignSchedule, slots: seq<Slot>, zones: seq<string>):
    (keys: seq<RunKey>)
    ensures slots == [] ==> keys == []
  {
    if slots == [] then []
    else
      var n := |slots| - 1;
      SlotKeys(now, load, s, slots[..n], zones) + ZoneKeys(now, load, s, slots[n], zones)
  }

  function DueKeys(now: int, load: string -> Option<Zone>, schedules: seq<CampaignSchedule>, timezones: seq<string>):
    (keys: seq<RunKey>)
    ensures schedules == [] ==> keys == []
  {
    if schedules == [] then []
    else
      var n := |schedules| - 1;
      var s := schedules[n];
      DueKeys(now, load, schedules[..n], timezones) + SlotKeys(now, load, s, s.slots, ZonesFor(s, timezones))
  }

  lemma {:induction false} ZoneKeysMeaning(
    now: int, load: string -> Option<Zone>, s: CampaignSchedule, slot: Slot, zones: seq<string>, k: RunKey)
    ensures k in ZoneKeys(now, load, s, slot, zones) <==>
            exists i :: 0 <= i < |zones| && DueKey(now, load, s, slot, zones[i]) == Some(k)
  {
    hide DueKey;
    if zones == [] {
    } else {
      var n := |zones| - 1;
      ZoneKeysMeaning(now, load, s, slot, zones[..n], k);
      assert forall i :: 0 <= i < n ==> zones[..n][i] == zones[i];
    }
  }

  lemma {:induction false} SlotKeysMeaning(
    now: int, load: string -> Option<Zone>, s: CampaignSchedule, slots: seq<Slot>, zones: seq<string>, k: RunKey)
    ensures k in SlotKeys(now, load, s, slots, zones) <==>
            exists j, i :: 0 <= j < |slots| && 0 <= i < |zones| && DueKey(now, load, s, slots[j], zones[i]) == Some(k)
  {
    hide DueKey;
    if slots == [] {
    } else {
      var n := |slots| - 1;
      SlotKeysMeaning(now, load, s, slots[..n], zones, k);
      ZoneKeysMeaning(now, load, s, slots[n], zones, k);
      assert forall j :: 0 <= j < n ==> slots[..n][j] == slots[j];
    }
  }

  ghost predicate OwnDue(now: int, load: string -> Option<Zone>, s: CampaignSchedule, zones: seq<string>, k: RunKey) {
    exists slot, zone :: slot in s.slots && zone in zones && DueKey(now, load, s, slot, zone) == Some(k)
  }

  lemma OwnKeysMeaning(now: int, load: string -> Option<Zone>, s: CampaignSchedule, zones: seq<string>, k: RunKey)
    ensures k in SlotKeys(now, load, s, s.slots, zones) <==> OwnDue(now, load, s, zones, k)
  {
    hide DueKey, SlotKeys;
    SlotKeysMeaning(now, load, s, s.slots, zones, k);
    if OwnDue(now, load, s, zones, k) {
      var slot, zone :| slot in s.slots && zone in zones && DueKey(now, load, s, slot, zone) == Some(k);
      var j, i :| 0 <= j < |s.slots| && 0 <= i < |zones| && s.slots[j] == slot && zones[i] == zone;
      assert DueKey(now, load, s, s.slots[j], zones[i]) == Some(k);
    }
  }

  /** A key is due when some slot of an active schedule is due in one of the timezones in use. */
  ghost predicate IsDue(
    now: int, load: string -> Option<Zone>, schedules: seq<CampaignSchedule>, timezones: seq<string>, k: RunKey)
  {
    exists s :: s in schedules && OwnDue(now, load, s, ZonesFor(s, timezones), k)
  }

  lemma {:induction false} DueKeysMeaning(
    now: int, load: string -> Option<Zone>, schedules: seq<CampaignSchedule>, timezones: seq<string>, k: RunKey)
    ensures k in DueKeys(now, load, schedules, timezones) <==> IsDue(now, load, schedules, timezones, k)
  {
    hide DueKey, ZonesFor, OwnDue, SlotKeys;
    if schedules == [] {
    } else {
      var n := |schedules| - 1;
      var s := schedules[n];
      DueKeysMeaning(now, load, schedules[..n], timezones, k);
      OwnKeysMeaning(now, load, s, ZonesFor(s, timezones), k);
      assert schedules == schedules[..n] + [s];
    }
  }

  // What is due grows with what has been gone through.

  lemma {:induction false} ZoneKeysGrow(
    now: int, load: string -> Option<Zone>, s: CampaignSchedule, slot: Slot, zones: seq<string>, l: nat)
    requires l <= |zones|
    ensures ZoneKeys(now, load, s, slot, zones[..l]) <= ZoneKeys(now, load, s, slot, zones)
  {
    hide DueKey;
    var n := |zones| - 1;
    if l == |zones| {
      assert zones[..l] == zones;
    } else {
      ZoneKeysGrow(now, load, s, slot, zones[..n], l);
      assert zones[..n][..l] == zones[..l];
    }
  }

  lemma {:induction false} SlotKeysGrow(
    now: int, load: string -> Option<Zone>, s: CampaignSchedule, slots: seq<Slot>, zones: seq<string>, j: nat)
    requires j <= |slots|
    ensures SlotKeys(now, load, s, slots[..j], zones) <= SlotKeys(now, load, s, slots, zones)
  {
    hide DueKey, ZoneKeys;
    var n := |slots| - 1;
    if j == |slots| {
      assert slots[..j] == slots;
    } else {
      SlotKeysGrow(now, load, s, slots[..n], zones, j);
      assert slots[..n][..j] == slots[..j];
    }
  }

  lemma {:induction false} DueKeysGrow(
    now: int, load: string -> Option<Zone>, schedules: seq<CampaignSchedule>, timezones: seq<string>, i: nat)
    requires i <= |schedules|
    ensures DueKeys(now, load, schedules[..i], timezones) <= DueKeys(now, load, schedules, timezones)
  {
    hide DueKey, SlotKeys;
    var n := |schedules| - 1;
    if i == |schedules| {
      assert schedules[..i] == schedules;
    } else {
      DueKeysGrow(now, load, schedules[..n], timezones, i);
      assert schedules[..n][..i] == schedules[..i];
    }
  }

  /** One round of the innermost loop. */
  lemma NextZone(now: int, load: string -> Option<Zone>, s: CampaignSchedule, slot: Slot, zones: seq<string>, l: nat)
    requires l < |zones|
    ensures ZoneKeys(now, load, s, slot, zones[..l + 1]) ==
            ZoneKeys(now, load, s, slot, zones[..l]) +
            (var key := DueKey(now, load, s, slot, zones[l]); if key.None? then [] else [key.value])
  {
    hide DueKey;
    assert zones[..l + 1][..l] == zones[..l];
  }

  lemma NextSlot(
    now: int, load: string -> Option<Zone>, s: CampaignSchedule, slots: seq<Slot>, zones: seq<string>, j: nat)
    requires j < |slots|
    ensures SlotKeys(now, load, s, slots[..j + 1], zones) ==
            SlotKeys(now, load, s, slots[..j], zones) + ZoneKeys(now, load, s, slots[j], zones)
  {
    hide DueKey, ZoneKeys;
    assert slots[..j + 1][..j] == slots[..j];
  }

  lemma NextSchedule(
    now: int, load: string -> Option<Zone>, all: seq<CampaignSchedule>, timezones: seq<string>, i: nat)
    requires i < |all|
    ensures DueKeys(now, load, all[..i + 1], timezones) ==
            DueKeys(now, load, all[..i], timezones) +
            SlotKeys(now, load, all[i], all[i].slots, ZonesFor(all[i], timezones))
  {
    hide DueKey, SlotKeys;
    assert all[..i + 1][..i] == all[..i];
  }

  /** The key at hand in the innermost loop is the next due key of the tick. */
  lemma NextKeyIsDue(
    now: int, load: string -> Option<Zone>, all: seq<CampaignSchedule>, timezones: seq<string>,
    i: nat, j: nat, l: nat, done: seq<RunKey>, key: RunKey)
    requires i < |all| && j < |all[i].slots| && l < |ZonesFor(all[i], timezones)|
    requires DueKey(now, load, all[i], all[i].slots[j], ZonesFor(all[i], timezones)[l]) == Some(key)
    requires done == DueKeys(now, load, all[..i], timezones) +
                     SlotKeys(now, load, all[i], all[i].slots[..j], ZonesFor(all[i], timezones)) +
                     ZoneKeys(now, load, all[i], all[i].slots[j], ZonesFor(all[i], timezones)[..l])
    ensures done + [key] <= DueKeys(now, load, all, timezones)
  {
    hide DueKey, DueKeys, SlotKeys, ZoneKeys, ZonesFor;
    var s, zones := all[i], ZonesFor(all[i], timezones);
    NextZone(now, load, s, s.slots[j], zones, l);
    ZoneKeysGrow(now, load, s, s.slots[j], zones, l + 1);
    NextSlot(now, load, s, s.slots, zones, j);
    SlotKeysGrow(now, load, s, s.slots, zones, j + 1);
    NextSchedule(now, load, all, timezones, i);
    DueKeysGrow(now, load, all, timezones, i + 1);
  }

  function StatusOf(fate: RunFate): RunStatus {
    if fate.stored == NotSent then RunPending
    else if fate.launched && fate.enqueued then RunCompleted
    else RunFailed
  }

  /** The run is reported completed. */
  predicate Succeeds(fate: RunFate) {
    fate.launched && fate.enqueued && fate.stored == Answered
  }

  /** The runs that a tick added and completed. */
  function NewlyCompleted(before: map<RunKey, RunStatus>, after: map<RunKey, RunStatus>): set<RunKey> {
    set k | k in after && k !in before && after[k] == RunCompleted
  }

  /** The runs that a tick added and reports completed. */
  function NewlySucceeded(before: map<RunKey, RunStatus>, after: map<RunKey, RunStatus>, env: Env): set<RunKey> {
    set k | k in after && k !in before && Succeeds(env.fate(k))
  }

  /** What a tick has done to the runs once it has gone through the due keys `done`. */
  ghost predicate Ticked(
    before: map<RunKey, RunStatus>, after: map<RunKey, RunStatus>, done: seq<RunKey>, result: TickResult, env: Env)
  {
    && (forall k :: k in after <==> k in before || k in done)
    && (forall k :: k in after ==> after[k] == if k in before then before[k] else StatusOf(env.fate(k)))
    && |after| == |before| + result.created
    && result.created == result.completed + result.failed
    && result.completed == |NewlySucceeded(before, after, env)|
  }

  lemma TickedOld(
    before: map<RunKey, RunStatus>, after: map<RunKey, RunStatus>, done: seq<RunKey>, result: TickResult, env: Env,
    k: RunKey)
    requires Ticked(before, after, done, result, env) && k in after
    ensures Ticked(before, after, done + [k], result, env)
  {}

  lemma TickedNew(
    before: map<RunKey, RunStatus>, after: map<RunKey, RunStatus>, done: seq<RunKey>, result: TickResult, env: Env,
    k: RunKey, next: TickResult)
    requires Ticked(before, after, done, result, env) && k !in after
    requires next == if Succeeds(env.fate(k))
                     then TickResult(result.created + 1, result.completed + 1, result.failed)
                     else TickResult(result.created + 1, result.completed, result.failed + 1)
    ensures Ticked(before, after[k := StatusOf(env.fate(k))], done + [k], next, env)
  {
    hide StatusOf, Succeeds;
    var status := StatusOf(env.fate(k));
    OneMoreSucceeded(before, after, k, status, env);
  }

  lemma OneMoreSucceeded(
    before: map<RunKey, RunStatus>, after: map<RunKey, RunStatus>, k: RunKey, status: RunStatus, env: Env)
    requires k !in after && k !in before
    ensures |NewlySucceeded(before, after[k := status], env)| ==
            |NewlySucceeded(before, after, env)| + if Succeeds(env.fate(k)) then 1 else 0
  {
    assert NewlySucceeded(before, after[k := status], env) ==
           NewlySucceeded(before, after, env) + if Succeeds(env.fate(k)) then {k} else {};
  }

  lemma NothingTicked(before: map<RunKey, RunStatus>, env: Env)
    ensures Ticked(before, before, [], TickResult(0, 0, 0), env)
  {
    assert NewlySucceeded(before, before, env) == {};
  }

  /** How a tick ends: it went through every due key, or it stopped at the insert that failed,
      and that insert may have left a run which nobody processes. */
  ghost predicate TickOutcome(
    before: map<RunKey, RunStatus>, after: map<RunKey, RunStatus>, due: seq<RunKey>, done: seq<RunKey>,
    result: TickResult, err: bool, env: Env)
  {
    && done <= due
    && (!err ==> done == due && Ticked(before, after, done, result, env))
    && (err ==>
          && |done| < |due| && env.insert(due[|done|]) != Answered
          && (Ticked(before, after, done, result, env) || Orphaned(before, after, due[|done|], done, result, env)))
  }

  ghost predicate Orphaned(
    before: map<RunKey, RunStatus>, after: map<RunKey, RunStatus>, k: RunKey, done: seq<RunKey>, result: TickResult,
    env: Env)
  {
    && env.insert(k) == AnswerLost && k !in before && k !in done
    && k in after && after[k] == RunPending
    && Ticked(before, after - {k}, done, result, env)
  }

  class Scheduler {
    var runs: map<RunKey, RunStatus>
    /** The runs that CompleteScheduleRun updated, one entry per update. */
    var completions: seq<RunKey>

    constructor ()
      ensures Valid() && runs == map[] && completions == []
    {
      runs, completions := map[], [];
    }

    /** Only recorded runs are completed, each at most once. */
    ghost predicate Valid()
      reads this
    {
      && (forall i :: 0 <= i < |completions| ==> completions[i] in runs)
      && (forall i, j :: 0 <= i < j < |completions| ==> completions[i] != completions[j])
    }

    /** INSERT ... ON CONFLICT (schedule_id, slot_id, local_date, timezone) DO NOTHING. */
    method CreateScheduleRun(k: RunKey, reply: Reply) returns (created: bool, err: bool)
      requires Valid()
      modifies this`runs
      ensures err <==> reply == NotSent || (reply == AnswerLost && k !in old(runs))
      ensures created <==> k !in old(runs) && reply == Answered
      ensures runs == if reply == NotSent || k in old(runs) then old(runs) else old(runs)[k := RunPending]
      ensures Valid()
    {
      if reply == NotSent { return false, true; }
      if k in runs { return false, false; }
      runs := runs[k := RunPending];
      return reply == Answered, reply == AnswerLost;
    }

    /** processScheduleRun: launch, enqueue, and complete the run with what came of them. */
    method ProcessScheduleRun(k: RunKey, fate: RunFate) returns (ok: bool)
      requires Valid() && k in runs && runs[k] == RunPending && k !in completions
      modifies this
      ensures Valid()
      ensures ok <==> Succeeds(fate)
      ensures runs == old(runs)[k := StatusOf(fate)]
      ensures completions == old(completions) + if fate.stored == NotSent then [] else [k]
    {
      var status := if fate.launched && fate.enqueued then RunCompleted else RunFailed;
      if fate.stored != NotSent {
        runs := runs[k := status];
        completions := completions + [k];
      }
      ok := fate.launched && fate.enqueued && fate.stored == Answered;
    }

    /** The body of the innermost loop, from CreateScheduleRun on, for a due key. */
    method ProcessDueKey(
      k: RunKey, result: TickResult, env: Env, ghost before: map<RunKey, RunStatus>, ghost done: seq<RunKey>)
      returns (next: TickResult, err: bool)
      requires Valid() && Ticked(before, runs, done, result, env)
      modifies this
      ensures Valid()
      ensures !err ==> Ticked(before, runs, done + [k], next, env)
      ensures err ==> next == result && env.insert(k) != Answered
      ensures err ==> Ticked(before, runs, done, next, env) || Orphaned(before, runs, k, done, next, env)
    {
      hide StatusOf, Succeeds, Ticked, NewlySucceeded;
      next := result;
      ghost var was := runs;
      var created, insertErr := CreateScheduleRun(k, env.insert(k));
      if insertErr {
        if runs != was {
          assert runs - {k} == was;
          TickedKeys(before, was, done, result, env);
        }
        return next, true;
      }
      if !created {
        TickedOld(before, runs, done, result, env, k);
        return next, false;
      }
      next := next.(created := next.created + 1);
      var ok := ProcessScheduleRun(k, env.fate(k));
      if ok { next := next.(completed := next.completed + 1); } else { next := next.(failed := next.failed + 1); }
      assert runs == was[k := StatusOf(env.fate(k))];
      TickedNew(before, was, done, result, env, k, next);
      return next, false;
    }

    /** ProcessDueSchedules.  `schedules` and `timezones` are None when they cannot be read;
        `done` are the due keys the tick went through. */
    method ProcessDueSchedules(
      now: int, load: string -> Option<Zone>, schedules: Option<seq<CampaignSchedule>>,
      timezones: Option<seq<string>>, env: Env)
      returns (result: TickResult, err: bool, ghost done: seq<RunKey>)
      requires Valid()
      modifies this
      ensures Valid()
      ensures schedules.None? || timezones.None? ==> err && result == TickResult(0, 0, 0) && runs == old(runs)
      ensures schedules.Some? && timezones.Some? ==>
                TickOutcome(
                  old(runs), runs, DueKeys(now, load, schedules.value, timezones.value), done, result, err, env)
    {
      hide DueKey, DueKeys, SlotKeys, ZoneKeys, Ticked, Orphaned, Valid;
      result, done := TickResult(0, 0, 0), [];
      if schedules.None? || timezones.None? { return result, true, done; }
      var all := schedules.value;
      ghost var before := runs;
      NothingTicked(before, env);
      for i := 0 to |all|
        invariant Valid() && Ticked(before, runs, done, result, env)
        invariant done == DueKeys(now, load, all[..i], timezones.value)
      {
        ghost var done1 := done;
        var zones := if timezones.value == [] then [all[i].fallbackTimezone] else timezones.value;
        for j := 0 to |all[i].slots|
          invariant Valid() && Ticked(before, runs, done, result, env)
          invariant done == done1 + SlotKeys(now, load, all[i], all[i].slots[..j], zones)
        {
          ghost var done2 := done;
          var slot := all[i].slots[j];
          for l := 0 to |zones|
            invariant Valid() && Ticked(before, runs, done, result, env)
            invariant done == done2 + ZoneKeys(now, load, all[i], slot, zones[..l])
          {
            NextZone(now, load, all[i], slot, zones, l);
            var key := DueKey(now, load, all[i], slot, zones[l]);
            if key.Some? {
              NextKeyIsDue(now, load, all, timezones.value, i, j, l, done, key.value);
              var next, insertErr := ProcessDueKey(key.value, result, env, before, done);
              if insertErr { return next, true, done; }
              result, done := next, done + [key.value];
            }
          }
          NextSlot(now, load, all[i], all[i].slots, zones, j);
          assert zones[..|zones|] == zones;
        }
        NextSchedule(now, load, all, timezones.value, i);
        assert all[i].slots[..|all[i].slots|] == all[i].slots;
      }
      assert all[..|all|] == all;
      err := false;
    }
  }

  lemma TickedKeys(
    before: map<RunKey, RunStatus>, after: map<RunKey, RunStatus>, done: seq<RunKey>, result: TickResult, env: Env)
    requires Ticked(before, after, done, result, env)
    ensures forall k :: k in after <==> k in before || k in done
  {}

  /** A tick adds runs for due keys only, counts every run it processed as completed or failed,
      leaves no due key without a run unless it failed, and orphans at most one run. */
  lemma TickMeaning(
    now: int, load: string -> Option<Zone>, schedules: seq<CampaignSchedule>, timezones: seq<string>,
    before: map<RunKey, RunStatus>, after: map<RunKey, RunStatus>, done: seq<RunKey>, result: TickResult, err: bool,
    env: Env, k: RunKey)
    requires TickOutcome(before, after, DueKeys(now, load, schedules, timezones), done, result, err, env)
    ensures k in before ==> k in after && after[k] == before[k]
    ensures k in after && k !in before ==> IsDue(now, load, schedules, timezones, k)
    ensures !err && IsDue(now, load, schedules, timezones, k) ==> k in after
    ensures result.created == result.completed + result.failed
    ensures |after| - |before| - result.created == 0 || (|after| - |before| - result.created == 1 && err)
    ensures result.completed <= |NewlyCompleted(before, after)|
    ensures (forall j :: j in done ==> env.fate(j).stored != AnswerLost) ==>
              result.completed == |NewlyCompleted(before, after)|
  {
    hide IsDue, StatusOf;
    ReportedAreCompleted(before, after, done, result, err, env, DueKeys(now, load, schedules, timezones));
    var due := DueKeys(now, load, schedules, timezones);
    DueKeysMeaning(now, load, schedules, timezones, k);
    assert k in done ==> k in due;
    if err && !Ticked(before, after, done, result, env) {
      var orphan := due[|done|];
      assert (after - {orphan})[orphan := RunPending] == after;
    }
  }

  /** Every run that is reported completed is, and the converse fails only where the answer of a
      completion is lost. */
  lemma ReportedAreCompleted(
    before: map<RunKey, RunStatus>, after: map<RunKey, RunStatus>, done: seq<RunKey>, result: TickResult, err: bool,
    env: Env, due: seq<RunKey>)
    requires TickOutcome(before, after, due, done, result, err, env)
    ensures result.completed <= |NewlyCompleted(before, after)|
    ensures (forall j :: j in done ==> env.fate(j).stored != AnswerLost) ==>
              result.completed == |NewlyCompleted(before, after)|
  {
    if Ticked(before, after, done, result, env) {
      SucceededAreCompleted(before, after, done, result, env);
    } else {
      var orphan := due[|done|];
      SucceededAreCompleted(before, after - {orphan}, done, result, env);
      assert NewlyCompleted(before, after) == NewlyCompleted(before, after - {orphan});
    }
  }

  lemma SucceededAreCompleted(
    before: map<RunKey, RunStatus>, after: map<RunKey, RunStatus>, done: seq<RunKey>, result: TickResult, env: Env)
    requires Ticked(before, after, done, result, env)
    ensures result.completed <= |NewlyCompleted(before, after)|
    ensures (forall j :: j in done ==> env.fate(j).stored != AnswerLost) ==>
              result.completed == |NewlyCompleted(before, after)|
  {
    var succeeded, completed := NewlySucceeded(before, after, env), NewlyCompleted(before, after);
    hide Ticked, NewlySucceeded, NewlyCompleted;
    EachSucceeded(before, after, done, result, env);
    SubsetSize(succeeded, completed);
    if forall j :: j in done ==> env.fate(j).stored != AnswerLost {
      forall k | k in completed ensures k in succeeded { assert k in completed - succeeded <==> k !in succeeded; }
      assert succeeded == completed;
    }
  }

  lemma EachSucceeded(
    before: map<RunKey, RunStatus>, after: map<RunKey, RunStatus>, done: seq<RunKey>, result: TickResult, env: Env)
    requires Ticked(before, after, done, result, env)
    ensures result.completed == |NewlySucceeded(before, after, env)|
    ensures NewlySucceeded(before, after, env) <= NewlyCompleted(before, after)
    ensures forall k :: k in NewlyCompleted(before, after) - NewlySucceeded(before, after, env) ==>
              k in done && env.fate(k).stored == AnswerLost
  {}

  // ----- runs of ticks -----

  ghost predicate AnyTick(
    now: int, load: string -> Option<Zone>, schedules: seq<CampaignSchedule>, timezones: seq<string>,
    before: map<RunKey, RunStatus>, after: map<RunKey, RunStatus>, err: bool)
  {
    exists done, result, env ::
      TickOutcome(before, after, DueKeys(now, load, schedules, timezones), done, result, err, env)
  }

  lemma AnyTickMeaning(
    now: int, load: string -> Option<Zone>, schedules: seq<CampaignSchedule>, timezones: seq<string>,
    before: map<RunKey, RunStatus>, after: map<RunKey, RunStatus>, err: bool, k: RunKey)
    requires AnyTick(now, load, schedules, timezones, before, after, err)
    ensures k in before ==> k in after
    ensures k in after ==> k in before || IsDue(now, load, schedules, timezones, k)
    ensures !err && IsDue(now, load, schedules, timezones, k) ==> k in after
  {
    hide TickOutcome, IsDue, NewlyCompleted;
    var done, result, env :|
      TickOutcome(before, after, DueKeys(now, load, schedules, timezones), done, result, err, env);
    TickMeaning(now, load, schedules, timezones, before, after, done, result, err, env, k);
  }

  /** A slot of a stored schedule: ids are primary keys. */
  ghost predicate StoredSlot(schedules: seq<CampaignSchedule>, s: CampaignSchedule, slot: Slot) {
    && s in schedules && slot in s.slots
    && forall t, other :: t in schedules && other in t.slots && t.id == s.id && other.id == slot.id ==>
         t == s && other == slot
  }

  /** The runs over a sequence of ticks; only ticks from `start` on for `length` have to end
      without error. */
  ghost predicate TickRun(
    ticks: seq<int>, states: seq<map<RunKey, RunStatus>>, load: string -> Option<Zone>,
    schedules: seq<CampaignSchedule>, timezones: seq<string>, start: int, length: int)
  {
    && |states| == |ticks| + 1
    && forall i :: 0 <= i < |ticks| ==>
         || AnyTick(ticks[i], load, schedules, timezones, states[i], states[i + 1], false)
         || (AnyTick(ticks[i], load, schedules, timezones, states[i], states[i + 1], true) &&
             !(start <= ticks[i] < start + length))
  }

  /** The timezone is in use, loads, and has a fixed offset. */
  ghost predicate FixedZoneInUse(
    load: string -> Option<Zone>, s: CampaignSchedule, timezones: seq<string>, zone: string, offset: int)
  {
    && (zone in timezones || (timezones == [] && zone == s.fallbackTimezone))
    && load(zone) == Some(FixedZone(offset))
  }

  /** The key of a slot's day is due exactly in its window. */
  lemma DueInWindow(
    now: int, load: string -> Option<Zone>, schedules: seq<CampaignSchedule>, timezones: seq<string>,
    s: CampaignSchedule, slot: Slot, clock: nat, zone: string, offset: int, day: int)
    requires StoredSlot(schedules, s, slot) && FixedZoneInUse(load, s, timezones, zone, offset)
    requires slot.clock == Some(clock) && ClockTime(clock) && IsoWeekday(day) in slot.days
    ensures IsDue(now, load, schedules, timezones, RunKey(s.id, slot.id, day, zone)) <==>
            InWindow(now, day, offset, clock, s.graceMinutes)
  {
    assert zone in ZonesFor(s, timezones);
    hide SlotDue, ZonesFor, InWindow;
    var k := RunKey(s.id, slot.id, day, zone);
    DueExactlyInWindow(now, offset, slot, clock, s.graceMinutes, day);
    if InWindow(now, day, offset, clock, s.graceMinutes) {
      assert DueKey(now, load, s, slot, zone) == Some(k);
      assert OwnDue(now, load, s, ZonesFor(s, timezones), k);
    }
    if IsDue(now, load, schedules, timezones, k) {
      var t :| t in schedules && OwnDue(now, load, t, ZonesFor(t, timezones), k);
      var other, z :| other in t.slots && z in ZonesFor(t, timezones) && DueKey(now, load, t, other, z) == Some(k);
      assert t == s && other == slot && z == zone;
    }
  }

  lemma {:induction false} RunsStay(
    ticks: seq<int>, states: seq<map<RunKey, RunStatus>>, load: string -> Option<Zone>,
    schedules: seq<CampaignSchedule>, timezones: seq<string>, start: int, length: int, i: nat, k: RunKey)
    requires TickRun(ticks, states, load, schedules, timezones, start, length) && i <= |ticks| && k in states[i]
    ensures k in states[|ticks|]
    decreases |ticks| - i
  {
    hide AnyTick, IsDue;
    if i == |ticks| {
    } else {
      var err := !AnyTick(ticks[i], load, schedules, timezones, states[i], states[i + 1], false);
      AnyTickMeaning(ticks[i], load, schedules, timezones, states[i], states[i + 1], err, k);
      RunsStay(ticks, states, load, schedules, timezones, start, length, i + 1, k);
    }
  }

  /** Ticks that never pause longer than the window give an enabled day of a slot its run, as long
      as those inside the window end without error; the run map holds one run per key, so it is
      exactly one. */
  lemma EnabledDayRuns(
    ticks: seq<int>, states: seq<map<RunKey, RunStatus>>, load: string -> Option<Zone>,
    schedules: seq<CampaignSchedule>, timezones: seq<string>, s: CampaignSchedule, slot: Slot, clock: nat,
    zone: string, offset: int, day: int)
    requires StoredSlot(schedules, s, slot) && FixedZoneInUse(load, s, timezones, zone, offset)
    requires slot.clock == Some(clock) && ClockTime(clock) && IsoWeekday(day) in slot.days
    requires var start, length := WindowStart(day, offset, clock), WindowLength(clock, s.graceMinutes);
             && Ticking(ticks, start, length)
             && TickRun(ticks, states, load, schedules, timezones, start, length)
    ensures RunKey(s.id, slot.id, day, zone) in states[|ticks|]
  {
    hide AnyTick, IsDue, StoredSlot, FixedZoneInUse, IsoWeekday;
    var start, length := WindowStart(day, offset, clock), WindowLength(clock, s.graceMinutes);
    var k := RunKey(s.id, slot.id, day, zone);
    TicksHit(ticks, start, length);
    var i :| 0 <= i < |ticks| && start <= ticks[i] < start + length;
    DueInWindow(ticks[i], load, schedules, timezones, s, slot, clock, zone, offset, day);
    AnyTickMeaning(ticks[i], load, schedules, timezones, states[i], states[i + 1], false, k);
    RunsStay(ticks, states, load, schedules, timezones, start, length, i + 1, k);
  }

  /** Some tick without error goes through the given keys. */
  lemma {:induction false} SomeTick(before: map<RunKey, RunStatus>, due: seq<RunKey>, env: Env)
    returns (after: map<RunKey, RunStatus>, result: TickResult)
    ensures Ticked(before, after, due, result, env)
  {
    if due == [] {
      NothingTicked(before, env);
      after, result := before, TickResult(0, 0, 0);
    } else {
      hide Ticked, StatusOf, Succeeds;
      var n := |due| - 1;
      var m, r := SomeTick(before, due[..n], env);
      assert due == due[..n] + [due[n]];
      if due[n] in m {
        TickedOld(before, m, due[..n], r, env, due[n]);
        after, result := m, r;
      } else {
        result := if Succeeds(env.fate(due[n])) then TickResult(r.created + 1, r.completed + 1, r.failed)
                  else TickResult(r.created + 1, r.completed, r.failed + 1);
        TickedNew(before, m, due[..n], r, env, due[n], result);
        after := m[due[n] := StatusOf(env.fate(due[n]))];
      }
    }
  }

  lemma SomeAnyTick(
    now: int, load: string -> Option<Zone>, schedules: seq<CampaignSchedule>, timezones: seq<string>,
    before: map<RunKey, RunStatus>)
    returns (after: map<RunKey, RunStatus>)
    ensures AnyTick(now, load, schedules, timezones, before, after, false)
  {
    hide Ticked, DueKeys;
    var env := Env((k: RunKey) => Answered, (k: RunKey) => RunFate(true, true, Answered));
    var due := DueKeys(now, load, schedules, timezones);
    var m, result := SomeTick(before, due, env);
    after := m;
    assert TickOutcome(before, after, due, due, result, false, env);
  }

  /** An enabled day of a slot gets its run under every way of ticking with pauses up to `gap`, if
      and only if no pause can be longer than the window. */
  lemma EnabledDayRunsExactlyWhen(
    load: string -> Option<Zone>, schedules: seq<CampaignSchedule>, timezones: seq<string>, s: CampaignSchedule,
    slot: Slot, clock: nat, zone: string, offset: int, day: int, gap: int)
    requires StoredSlot(schedules, s, slot) && FixedZoneInUse(load, s, timezones, zone, offset) && gap > 0
    requires slot.clock == Some(clock) && ClockTime(clock) && IsoWeekday(day) in slot.days
    ensures var start, length := WindowStart(day, offset, clock), WindowLength(clock, s.graceMinutes);
            (forall ticks, states ::
               (Ticking(ticks, start, gap) && TickRun(ticks, states, load, schedules, timezones, start, length)) ==>
                 RunKey(s.id, slot.id, day, zone) in states[|ticks|])
            <==> && gap <= (if s.graceMinutes > 0 then s.graceMinutes else 10) * 60_000_000_000
                 && clock + gap <= 86_400_000_000_000
  {
    hide AnyTick, IsDue, StoredSlot, FixedZoneInUse, IsoWeekday, DueKeys;
    var start, length := WindowStart(day, offset, clock), WindowLength(clock, s.graceMinutes);
    if gap <= length {
      forall ticks, states | Ticking(ticks, start, gap) &&
                             TickRun(ticks, states, load, schedules, timezones, start, length)
        ensures RunKey(s.id, slot.id, day, zone) in states[|ticks|]
      {
        EnabledDayRuns(ticks, states, load, schedules, timezones, s, slot, clock, zone, offset, day);
      }
    } else {
      var ticks, states :=
        MissedWindow(load, schedules, timezones, s, slot, clock, zone, offset, day, gap);
    }
  }

  /** Two ticks on either side of the window, both without error: the day has no run. */
  lemma MissedWindow(
    load: string -> Option<Zone>, schedules: seq<CampaignSchedule>, timezones: seq<string>, s: CampaignSchedule,
    slot: Slot, clock: nat, zone: string, offset: int, day: int, gap: int)
    returns (ticks: seq<int>, states: seq<map<RunKey, RunStatus>>)
    requires StoredSlot(schedules, s, slot) && FixedZoneInUse(load, s, timezones, zone, offset)
    requires slot.clock == Some(clock) && ClockTime(clock) && IsoWeekday(day) in slot.days
    requires gap > WindowLength(clock, s.graceMinutes)
    ensures var start, length := WindowStart(day, offset, clock), WindowLength(clock, s.graceMinutes);
            && Ticking(ticks, start, gap)
            && TickRun(ticks, states, load, schedules, timezones, start, length)
            && RunKey(s.id, slot.id, day, zone) !in states[|ticks|]
  {
    hide AnyTick, IsDue, StoredSlot, FixedZoneInUse, IsoWeekday, DueKeys;
    var start := WindowStart(day, offset, clock);
    var k := RunKey(s.id, slot.id, day, zone);
    var a, b := start - 1, start - 1 + gap;
    var first := SomeAnyTick(a, load, schedules, timezones, map[]);
    var second := SomeAnyTick(b, load, schedules, timezones, first);
    DueInWindow(a, load, schedules, timezones, s, slot, clock, zone, offset, day);
    DueInWindow(b, load, schedules, timezones, s, slot, clock, zone, offset, day);
    AnyTickMeaning(a, load, schedules, timezones, map[], first, false, k);
    AnyTickMeaning(b, load, schedules, timezones, first, second, false, k);
    ticks, states := [a, b], [map[], first, second];
  }
}
