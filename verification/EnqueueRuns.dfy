/** EnqueueCampaignLaunch called again and at the same time for one launch:
    packages/go/inventory/service.go:1124-1231.

    A call checks the enqueue status, marks the launch, produces the rows from the first on, and
    stores how that went; nothing between the check and the mark keeps another call out. */
module EnqueueRuns {
  import opened Wrappers
  import opened Counting
  import opened Enqueue
  import Paging

  datatype Phase = Resting | Marking | Producing(next: nat) | Ending(ok: bool)

  /** `topic` holds the positions of the rows whose tasks were produced, and `passes` counts the calls
      that got past the status check. */
  datatype State = State(status: EnqueueStatus, calls: seq<Phase>, topic: seq<nat>, passes: nat)

  /** `Fail` is a page that cannot be read, or a delivery id that cannot be drawn. */
  datatype Step =
    | Check(call: nat)
    | Mark(call: nat, reply: Reply)
    | Produce(call: nat, reply: Reply)
    | Fail(call: nat)
    | End(call: nat)
    | Finish(call: nat, reply: Reply)

  /** Whether calls may overlap, and whether something in them may fail. */
  datatype Mode = Mode(overlap: bool, faults: bool)

  ghost predicate Ready(s: State, step: Step, rows: nat, mode: Mode) {
    && step.call < |s.calls|
    && var p := s.calls[step.call];
       match step
       case Check(w) =>
         p.Resting? && (mode.overlap || forall v :: 0 <= v < |s.calls| ==> s.calls[v].Resting?)
       case Mark(_, reply) => p.Marking? && (mode.faults || reply == Answered)
       case Produce(_, reply) => p.Producing? && p.next < rows && (mode.faults || reply == Answered)
       case Fail(_) => p.Producing? && mode.faults
       case End(_) => p.Producing? && p.next == rows
       case Finish(_, reply) => p.Ending? && (mode.faults || reply == Answered)
  }

  ghost function Do(s: State, step: Step, rows: nat, mode: Mode): State
    requires Ready(s, step, rows, mode)
  {
    var w := step.call;
    var p := s.calls[w];
    match step
    case Check(_) =>
      if s.status == EnqueueCompleted then s
      else s.(calls := s.calls[w := Marking], passes := s.passes + 1)
    case Mark(_, reply) =>
      s.(status := if reply == NotSent then s.status else Enqueuing,
         calls := s.calls[w := if reply == Answered then Producing(0) else Resting])
    case Produce(_, reply) =>
      s.(topic := if reply == NotSent then s.topic else s.topic + [p.next],
         calls := s.calls[w := if reply == Answered then Producing(p.next + 1) else Ending(false)])
    case Fail(_) => s.(calls := s.calls[w := Ending(false)])
    case End(_) => s.(calls := s.calls[w := Ending(true)])
    case Finish(_, reply) =>
      s.(status := if reply == NotSent then s.status else if p.ok then EnqueueCompleted else EnqueueFailed,
         calls := s.calls[w := Resting])
  }

  ghost function Start(calls: nat): State {
    State(EnqueuePending, seq(calls, _ => Resting), [], 0)
  }

  ghost function Run(from: State, steps: seq<Step>, rows: nat, mode: Mode): Option<State> {
    if steps == [] then Some(from)
    else
      match Run(from, steps[..|steps| - 1], rows, mode)
      case Some(s) =>
        if Ready(s, steps[|steps| - 1], rows, mode) then Some(Do(s, steps[|steps| - 1], rows, mode)) else None
      case None => None
  }

  /** How often the row at position `j` was produced. */
  function Times(s: State, j: nat): nat {
    multiset(s.topic)[j]
  }

  // ----- at most once per call -----

  /** The call has yet to come to row `j`. */
  predicate Before(p: Phase, j: nat) {
    p.Marking? || (p.Producing? && p.next <= j)
  }

  ghost predicate PassInv(s: State, j: nat) {
    Times(s, j) + CountIf(s.calls, p => Before(p, j)) <= s.passes
  }

  lemma StepKeepsPasses(s: State, step: Step, rows: nat, mode: Mode, j: nat)
    requires Ready(s, step, rows, mode) && PassInv(s, j)
    ensures PassInv(Do(s, step, rows, mode), j)
  {
    var w, t := step.call, Do(s, step, rows, mode);
    CountUpdated(s.calls, w, t.calls[w], p => Before(p, j));
    assert t.calls == s.calls[w := t.calls[w]];
  }

  /** Whatever fails and overlaps, a row is produced at most once per call that got past the check. */
  lemma {:induction false} OncePerPass(calls: nat, steps: seq<Step>, rows: nat, mode: Mode, j: nat)
    requires Run(Start(calls), steps, rows, mode).Some?
    ensures PassInv(Run(Start(calls), steps, rows, mode).value, j)
    ensures Times(Run(Start(calls), steps, rows, mode).value, j) <= Run(Start(calls), steps, rows, mode).value.passes
  {
    hide Ready, Do;
    if steps == [] {
      CountNone(Start(calls).calls, p => Before(p, j));
    } else {
      OncePerPass(calls, steps[..|steps| - 1], rows, mode, j);
      StepKeepsPasses(Run(Start(calls), steps[..|steps| - 1], rows, mode).value, steps[|steps| - 1], rows, mode, j);
    }
  }

  // ----- at most once at all -----

  /** The rows before position `n`, each once. */
  ghost predicate OnceBefore(s: State, n: nat) {
    forall j: nat :: Times(s, j) == if j < n then 1 else 0
  }

  ghost predicate Rests(s: State, but: nat) {
    forall v :: 0 <= v < |s.calls| && v != but ==> s.calls[v].Resting?
  }

  /** Call `w` is under way and all others rest. */
  ghost predicate UnderWay(s: State, rows: nat, w: nat) {
    && w < |s.calls| && Rests(s, w)
    && match s.calls[w]
       case Resting => if s.status == EnqueueCompleted then OnceBefore(s, rows) else OnceBefore(s, 0)
       case Marking => OnceBefore(s, 0)
       case Producing(next) => next <= rows && OnceBefore(s, next)
       case Ending(ok) => ok && OnceBefore(s, rows)
  }

  ghost predicate SoundInv(s: State, rows: nat) {
    (s.calls == [] && OnceBefore(s, 0)) || exists w :: UnderWay(s, rows, w)
  }

  lemma StepKeepsSound(s: State, step: Step, rows: nat)
    requires Ready(s, step, rows, Mode(false, false)) && SoundInv(s, rows)
    ensures SoundInv(Do(s, step, rows, Mode(false, false)), rows)
  {
    var t, w := Do(s, step, rows, Mode(false, false)), step.call;
    var v :| UnderWay(s, rows, v);
    assert UnderWay(s, rows, w);
    var more := if t.topic == s.topic then [] else [s.calls[w].next];
    assert t.topic == s.topic + more;
    forall j: nat ensures Times(t, j) == Times(s, j) + multiset(more)[j] {}
    assert UnderWay(t, rows, w);
  }

  lemma {:induction false} RunSound(calls: nat, steps: seq<Step>, rows: nat)
    requires Run(Start(calls), steps, rows, Mode(false, false)).Some?
    ensures SoundInv(Run(Start(calls), steps, rows, Mode(false, false)).value, rows)
  {
    hide Ready, Do, SoundInv;
    if steps == [] {
      StartSound(calls, rows);
    } else {
      RunSound(calls, steps[..|steps| - 1], rows);
      StepKeepsSound(Run(Start(calls), steps[..|steps| - 1], rows, Mode(false, false)).value, steps[|steps| - 1], rows);
    }
  }

  lemma StartSound(calls: nat, rows: nat)
    ensures SoundInv(Start(calls), rows)
  {
    if calls > 0 { assert UnderWay(Start(calls), rows, 0); }
  }

  ghost predicate EachOnce(calls: nat, steps: seq<Step>, rows: nat, mode: Mode) {
    Run(Start(calls), steps, rows, mode).Some? ==>
      forall j: nat :: Times(Run(Start(calls), steps, rows, mode).value, j) <= 1
  }

  ghost predicate Same(s: State, t: State) {
    s.status == t.status && s.calls == t.calls && s.topic == t.topic && s.passes == t.passes
  }

  lemma Then(from: State, steps: seq<Step>, s: State, step: Step, t: State, rows: nat, mode: Mode)
    returns (longer: seq<Step>)
    requires Run(from, steps, rows, mode) == Some(s) && Ready(s, step, rows, mode)
    requires Same(Do(s, step, rows, mode), t)
    ensures Run(from, longer, rows, mode) == Some(t)
  {
    hide Ready, Do;
    longer := steps + [step];
    assert longer[..|steps|] == steps;
  }

  lemma NoSteps(from: State, rows: nat, mode: Mode)
    ensures Run(from, [], rows, mode) == Some(from)
  {}

  /** Two calls check before either has stored its end. */
  lemma BothPass(rows: nat, mode: Mode) returns (steps: seq<Step>)
    requires rows > 0 && mode.overlap
    ensures Run(Start(2), steps, rows, mode) == Some(State(Enqueuing, [Producing(0), Producing(0)], [], 2))
  {
    hide Run;
    var s0 := State(EnqueuePending, [Resting, Resting], [], 0);
    assert Start(2).calls == s0.calls;
    NoSteps(Start(2), rows, mode);
    var s1 := State(EnqueuePending, [Marking, Resting], [], 1);
    var s2 := State(EnqueuePending, [Marking, Marking], [], 2);
    var s3 := State(Enqueuing, [Producing(0), Marking], [], 2);
    var s4 := State(Enqueuing, [Producing(0), Producing(0)], [], 2);
    steps := Then(Start(2), [], s0, Check(0), s1, rows, mode);
    steps := Then(Start(2), steps, s1, Check(1), s2, rows, mode);
    steps := Then(Start(2), steps, s2, Mark(0, Answered), s3, rows, mode);
    steps := Then(Start(2), steps, s3, Mark(1, Answered), s4, rows, mode);
  }

  lemma OverlapRepeats(rows: nat, mode: Mode) returns (steps: seq<Step>)
    requires rows > 0 && mode.overlap
    ensures !EachOnce(2, steps, rows, mode)
  {
    hide Run;
    steps := BothPass(rows, mode);
    var s4 := State(Enqueuing, [Producing(0), Producing(0)], [], 2);
    var s5 := State(Enqueuing, [Producing(1), Producing(0)], [0], 2);
    var s6 := State(Enqueuing, [Producing(1), Producing(1)], [0, 0], 2);
    steps := Then(Start(2), steps, s4, Produce(0, Answered), s5, rows, mode);
    steps := Then(Start(2), steps, s5, Produce(1, Answered), s6, rows, mode);
    assert Times(s6, 0) == 2;
  }

  /** A call whose first answer is lost. */
  lemma FailsOnce(rows: nat, mode: Mode) returns (steps: seq<Step>)
    requires rows > 0 && mode.faults
    ensures Run(Start(1), steps, rows, mode) == Some(State(EnqueueFailed, [Resting], [0], 1))
  {
    hide Run;
    var s0 := State(EnqueuePending, [Resting], [], 0);
    assert Start(1).calls == s0.calls;
    NoSteps(Start(1), rows, mode);
    var s1 := State(EnqueuePending, [Marking], [], 1);
    var s2 := State(Enqueuing, [Producing(0)], [], 1);
    var s3 := State(Enqueuing, [Ending(false)], [0], 1);
    var s4 := State(EnqueueFailed, [Resting], [0], 1);
    steps := Then(Start(1), [], s0, Check(0), s1, rows, mode);
    steps := Then(Start(1), steps, s1, Mark(0, Answered), s2, rows, mode);
    steps := Then(Start(1), steps, s2, Produce(0, AnswerLost), s3, rows, mode);
    steps := Then(Start(1), steps, s3, Finish(0, Answered), s4, rows, mode);
  }

  /** And the next call. */
  lemma FailureRepeats(rows: nat, mode: Mode) returns (steps: seq<Step>)
    requires rows > 0 && mode.faults
    ensures !EachOnce(1, steps, rows, mode)
  {
    hide Run;
    steps := FailsOnce(rows, mode);
    var s4 := State(EnqueueFailed, [Resting], [0], 1);
    var s5 := State(EnqueueFailed, [Marking], [0], 2);
    var s6 := State(Enqueuing, [Producing(0)], [0], 2);
    var s7 := State(Enqueuing, [Producing(1)], [0, 0], 2);
    steps := Then(Start(1), steps, s4, Check(0), s5, rows, mode);
    steps := Then(Start(1), steps, s5, Mark(0, Answered), s6, rows, mode);
    steps := Then(Start(1), steps, s6, Produce(0, Answered), s7, rows, mode);
    assert Times(s7, 0) == 2;
  }

  /** However often a launch is enqueued, every row is produced at most once in all runs if and only if
      the calls neither overlap nor fail. */
  lemma EachOnceExactlyWhen(rows: nat, mode: Mode)
    requires rows > 0
    ensures (forall calls: nat, steps :: EachOnce(calls, steps, rows, mode)) <==> mode == Mode(false, false)
  {
    hide Run, Times, SoundInv, EachOnce;
    if mode == Mode(false, false) {
      forall calls: nat, steps ensures EachOnce(calls, steps, rows, mode) { AllOnce(calls, steps, rows); }
    } else if mode.overlap {
      var steps := OverlapRepeats(rows, mode);
    } else {
      var steps := FailureRepeats(rows, mode);
    }
  }

  lemma AllOnce(calls: nat, steps: seq<Step>, rows: nat)
    ensures EachOnce(calls, steps, rows, Mode(false, false))
  {
    hide Run, Times;
    if Run(Start(calls), steps, rows, Mode(false, false)).Some? { RunSound(calls, steps, rows); }
  }

  // ----- one call -----

  /** The first `n` positions. */
  function Positions(n: nat): seq<nat> {
    seq(n, i => i)
  }

  lemma {:induction false} ProducesPrefix(from: State, steps: seq<Step>, s: State, rows: nat, mode: Mode, n: nat)
    returns (longer: seq<Step>)
    requires Run(from, steps, rows, mode) == Some(s) && s.calls == [Producing(0)] && n <= rows
    ensures Run(from, longer, rows, mode) == Some(s.(calls := [Producing(n)], topic := s.topic + Positions(n)))
  {
    hide Run;
    if n == 0 {
      longer := steps;
      assert s.topic + Positions(0) == s.topic;
    } else {
      longer := ProducesPrefix(from, steps, s, rows, mode, n - 1);
      var t := s.(calls := [Producing(n - 1)], topic := s.topic + Positions(n - 1));
      assert Positions(n) == Positions(n - 1) + [n - 1];
      longer := Then(from, longer, t, Produce(0, Answered),
                     s.(calls := [Producing(n)], topic := s.topic + Positions(n)), rows, mode);
    }
  }

  /** Whatever an EnqueueCampaignLaunch call returns, stores and produces is the work of at most one
      pass from the status it found. */
  lemma CallIsPass(
    earlier: map<string, Launch>, later: map<string, Launch>, campaign: string, launch: string,
    rows: seq<Paging.AudienceRow>, limit: nat, r: EnqueueResult, produced: nat, from: State)
    returns (steps: seq<Step>)
    requires CallOutcome(earlier, later, campaign, launch, rows, limit, r, produced) && produced <= |rows|
    requires launch in earlier && from.status == earlier[launch].enqueueStatus && from.calls == [Resting]
    ensures var s := Run(from, steps, |rows|, Mode(false, true));
            && s.Some? && launch in later && s.value.status == later[launch].enqueueStatus
            && s.value.calls == [Resting] && s.value.topic == from.topic + Positions(produced)
            && s.value.passes <= from.passes + 1
  {
    hide Run;
    NoSteps(from, |rows|, Mode(false, true));
    assert from.topic + Positions(0) == from.topic;
    steps := [];
    if !r.AlreadyDone? && !(r.Rejected? && later == earlier) {
      var n, mode, status := |rows|, Mode(false, true), later[launch].enqueueStatus;
      var marking := from.(calls := [Marking], passes := from.passes + 1);
      var marked := marking.(status := Enqueuing, calls := [if r.Rejected? then Resting else Producing(0)]);
      steps := Then(from, steps, from, Check(0), marking, n, mode);
      steps := Then(from, steps, marking, Mark(0, if r.Rejected? then AnswerLost else Answered), marked, n, mode);
      if !r.Rejected? {
        steps := ProducesPrefix(from, steps, marked, n, mode, produced);
        var at := marked.(calls := [Producing(produced)], topic := from.topic + Positions(produced));
        var ok := status == EnqueueCompleted;
        var ending := at.(calls := [Ending(ok)]);
        steps := Then(from, steps, at, if ok then End(0) else Fail(0), ending, n, mode);
        steps := Then(from, steps, ending, Finish(0, if status == Enqueuing then NotSent else Answered),
                      ending.(status := status, calls := [Resting]), n, mode);
      }
    }
  }
}
