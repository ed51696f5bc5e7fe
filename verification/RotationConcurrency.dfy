/** Rotation of creatives while payload calls overlap: packages/go/subscribers/service.go:850-915,
    1018-1063.

    The calls are those of PayloadConcurrency.  A call of the subscription at hand looks up the
    exposures when it takes its list and records its own later; in between other calls look up and
    record theirs. */
module RotationConcurrency {
  import opened Wrappers
  import opened Counting
  import opened Payload
  import opened PayloadConcurrency
  import C = CapConcurrency
  import Caps
  import PayloadRuns
  import R = Rotation
  import Sorting
  import Targeting

  /** One subscription inside one exposure window, and the creatives that its calls find eligible. */
  datatype Scene = Scene(subscription: string, campaign: string, eligible: seq<Creative>, window: int, start: int)

  ghost predicate GoodScene(e: Scene) {
    e.window > 0 && R.OneCampaign(e.eligible, e.campaign)
  }

  /** How many calls of the subscription may be in flight, and whether their records may fail
      after an exposure took effect. */
  datatype Mode = Mode(most: nat, faults: bool)

  predicate CallOf(p: Phase, subscription: string) {
    match p
    case Resting => false
    case Trying(s, _, _) => s == subscription
    case Checking(s, _, _, _) => s == subscription
    case Recording(x) => x.subscription == subscription
    case Deciding(x) => x.subscription == subscription
  }

  function InFlight(s: State, e: Scene): nat {
    CountIf(s.calls, p => CallOf(p, e.subscription))
  }

  /** What a lookup inside the window gives: the filtered creatives, rotated. */
  ghost predicate Looked(exposures: seq<Exposure>, e: Scene, list: seq<Creative>) {
    exists creatives, targeting, since ::
      && Eligible(creatives, targeting) == Some(e.eligible)
      && e.start - e.window <= since <= e.start
      && list == Rotated(e.eligible, Seen(Books(map[], exposures, []), e.subscription, e.campaign, since))
  }

  /** What is asked of the steps of the subscription's calls, beyond what every call does. */
  ghost predicate Ready(s: State, step: Step, e: Scene, mode: Mode, limit: Caps.Key -> int) {
    PayloadConcurrency.Ready(s, step, limit) &&
    match step
    case Take(_, subscription, list) =>
      subscription == e.subscription ==> InFlight(s, e) < mode.most && Looked(s.exposures, e, list)
    case Expose(w, _, at, reply) =>
      s.calls[w].sent.subscription == e.subscription ==> at >= e.start && (mode.faults || reply != AnswerLost)
    case Decide(w, reply) =>
      s.calls[w].sent.subscription == e.subscription ==> mode.faults || reply == Answered
    case _ => true
  }

  ghost function Run(from: State, steps: seq<Step>, e: Scene, mode: Mode, limit: Caps.Key -> int): Option<State> {
    if steps == [] then Some(from)
    else
      match Run(from, steps[..|steps| - 1], e, mode, limit)
      case Some(s) =>
        if Ready(s, steps[|steps| - 1], e, mode, limit) then Some(Do(s, steps[|steps| - 1], limit)) else None
      case None => None
  }

  /** No call is in flight, and the books hold these exposures. */
  ghost function From(workers: nat, exposures: seq<Exposure>): State {
    PayloadConcurrency.Start(workers).(exposures := exposures)
  }

  // ----- exposures in the window -----

  predicate Mine(x: Exposure, e: Scene) {
    Counted(x, e.subscription, e.campaign, e.start - e.window)
  }

  /** How often a creative was exposed to the subscription. */
  function Times(exposures: seq<Exposure>, e: Scene, id: string): nat {
    CountIf(exposures, x => Mine(x, e) && x.creative == id)
  }

  /** Some eligible creative was not exposed yet. */
  ghost predicate Open(exposures: seq<Exposure>, e: Scene) {
    exists i :: 0 <= i < |e.eligible| && Times(exposures, e, e.eligible[i].id) == 0
  }

  ghost predicate AtMostEach(exposures: seq<Exposure>, e: Scene, most: nat) {
    forall id :: Times(exposures, e, id) <= most
  }

  /** No creative is exposed more than `most` times before every eligible one was exposed. */
  ghost predicate Rotates(exposures: seq<Exposure>, e: Scene, most: nat) {
    forall j :: 0 <= j < |exposures| && Open(exposures[..j], e) ==> AtMostEach(exposures[..j + 1], e, most)
  }

  /** The exposures of the window were recorded in it. */
  ghost predicate Recent(exposures: seq<Exposure>, e: Scene) {
    forall i :: 0 <= i < |exposures| && Mine(exposures[i], e) ==> exposures[i].at >= e.start
  }

  lemma TimesMore(exposures: seq<Exposure>, x: Exposure, e: Scene, id: string)
    ensures Times(exposures + [x], e, id) == Times(exposures, e, id) + if Mine(x, e) && x.creative == id then 1 else 0
  {
    CountAppend(exposures, x, y => Mine(y, e) && y.creative == id);
  }

  /** A lookup in the window sees what was exposed in it. */
  lemma SeenMeansTimes(exposures: seq<Exposure>, e: Scene, since: int, id: string)
    requires Recent(exposures, e) && e.start - e.window <= since <= e.start
    ensures SeenIn(exposures, e.subscription, e.campaign, since, id) <==> Times(exposures, e, id) > 0
  {
    var mine := (x: Exposure) => Mine(x, e) && x.creative == id;
    if Times(exposures, e, id) > 0 {
      var i := CountWitness(exposures, mine);
      assert Counted(exposures[i], e.subscription, e.campaign, since);
    } else if SeenIn(exposures, e.subscription, e.campaign, since, id) {
      var i :| 0 <= i < |exposures| && Counted(exposures[i], e.subscription, e.campaign, since) &&
               exposures[i].creative == id;
      assert mine(exposures[i]);
      CountPositive(exposures, i, mine);
    }
  }

  // ----- calls that hold a creative -----

  predicate Lists(list: seq<Creative>, next: nat, id: string) {
    exists j :: next <= j < |list| && list[j].id == id
  }

  /** The call may still expose this creative. */
  predicate Holds(p: Phase, e: Scene, id: string) {
    CallOf(p, e.subscription) &&
    match p
    case Trying(_, list, next) => Lists(list, next, id)
    case Checking(_, list, next, _) => Lists(list, next, id)
    case Recording(x) => x.creative.id == id
    case _ => false
  }

  function Holders(s: State, e: Scene, id: string): nat {
    CountIf(s.calls, p => Holds(p, e, id))
  }

  /** The calls of the subscription work on eligible creatives. */
  ghost predicate OnEligible(p: Phase, e: Scene) {
    CallOf(p, e.subscription) ==>
      match p
      case Trying(_, list, _) => forall c :: c in list ==> c in e.eligible
      case Checking(_, list, _, _) => forall c :: c in list ==> c in e.eligible
      case Recording(x) => x.creative in e.eligible
      case Deciding(x) => x.creative in e.eligible
      case Resting => true
  }

  ghost predicate Inv(s: State, e: Scene, most: nat) {
    && InFlight(s, e) <= most
    && Recent(s.exposures, e)
    && (forall w :: 0 <= w < |s.calls| ==> OnEligible(s.calls[w], e))
    && (Open(s.exposures, e) ==> forall id :: Times(s.exposures, e, id) + Holders(s, e, id) <= most)
    && Rotates(s.exposures, e, most)
  }

  /** What a step does to the one call that takes it. */
  ghost predicate Moves(s: State, t: State, w: nat, e: Scene) {
    && w < |s.calls| && |t.calls| == |s.calls| && t.calls == s.calls[w := t.calls[w]]
    && OnEligible(t.calls[w], e)
  }

  /** A step that is not a lookup of the subscription: its call keeps no more than it held. */
  ghost predicate Narrows(s: State, t: State, w: nat, e: Scene)
    requires Moves(s, t, w, e)
  {
    && (CallOf(t.calls[w], e.subscription) ==> CallOf(s.calls[w], e.subscription))
    && forall id :: Holds(t.calls[w], e, id) ==> Holds(s.calls[w], e, id)
  }

  function WorkerOf(step: Step): nat {
    if step.Command? then step.step.worker else step.worker
  }

  /** A list that was looked up holds eligible creatives, and while one is unexposed only such. */
  lemma LookupMeaning(exposures: seq<Exposure>, e: Scene, list: seq<Creative>)
    requires Looked(exposures, e, list)
    ensures forall c :: c in list ==> c in e.eligible
    ensures Recent(exposures, e) && Open(exposures, e) ==>
              forall id :: Lists(list, 0, id) ==> Times(exposures, e, id) == 0
  {
    hide Eligible, Rotated, Times, SeenIn, Mine, Recent;
    var creatives, targeting, since :|
      && Eligible(creatives, targeting) == Some(e.eligible)
      && e.start - e.window <= since <= e.start
      && list == Rotated(e.eligible, Seen(Books(map[], exposures, []), e.subscription, e.campaign, since));
    var seen := Seen(Books(map[], exposures, []), e.subscription, e.campaign, since);
    PayloadRuns.RotatedMeaning(e.eligible, seen);
    if Recent(exposures, e) && Open(exposures, e) {
      forall id ensures SeenIn(exposures, e.subscription, e.campaign, since, id) <==> Times(exposures, e, id) > 0 {
        SeenMeansTimes(exposures, e, since, id);
      }
      var i :| 0 <= i < |e.eligible| && Times(exposures, e, e.eligible[i].id) == 0;
      assert e.eligible[i] in e.eligible && !seen(e.eligible[i]);
      forall id | Lists(list, 0, id) ensures Times(exposures, e, id) == 0 {
        var j :| 0 <= j < |list| && list[j].id == id;
        assert list[j] in list && !seen(list[j]);
      }
    }
  }

  lemma NarrowKeepsInv(s: State, t: State, w: nat, e: Scene, most: nat)
    requires Inv(s, e, most) && Moves(s, t, w, e) && Narrows(s, t, w, e) && t.exposures == s.exposures
    ensures Inv(t, e, most)
  {
    hide Times, CallOf, Holds, OnEligible, Rotates, Recent;
    CountUpdated(s.calls, w, t.calls[w], p => CallOf(p, e.subscription));
    forall id { CountUpdated(s.calls, w, t.calls[w], p => Holds(p, e, id)); }
  }

  lemma LookupKeepsInv(s: State, t: State, w: nat, list: seq<Creative>, e: Scene, most: nat)
    requires Inv(s, e, most) && Moves(s, t, w, e) && t.exposures == s.exposures && InFlight(s, e) < most
    requires t.calls[w] == Trying(e.subscription, list, 0) && s.calls[w] == Resting
    requires Looked(s.exposures, e, list)
    ensures Inv(t, e, most)
  {
    hide Times, OnEligible, Rotates, Recent, Looked;
    LookupMeaning(s.exposures, e, list);
    CountUpdated(s.calls, w, t.calls[w], p => CallOf(p, e.subscription));
    forall id | Open(s.exposures, e) ensures Times(t.exposures, e, id) + Holders(t, e, id) <= most {
      CountUpdated(s.calls, w, t.calls[w], p => Holds(p, e, id));
      if Lists(list, 0, id) { CountAtMost(t.calls, p => Holds(p, e, id), p => CallOf(p, e.subscription)); }
    }
  }

  /** The record of an exposure hands a holder over to the books. */
  lemma ExposedKeepsInv(s: State, t: State, w: nat, x: Exposure, e: Scene, most: nat)
    requires Inv(s, e, most) && Moves(s, t, w, e) && Narrows(s, t, w, e) && t.exposures == s.exposures + [x]
    requires Mine(x, e) ==> x.at >= e.start && Holds(s.calls[w], e, x.creative) && !Holds(t.calls[w], e, x.creative)
    ensures Inv(t, e, most)
  {
    hide Times, CallOf, Holds, OnEligible, Rotates, Recent, Open, Mine;
    CountUpdated(s.calls, w, t.calls[w], p => CallOf(p, e.subscription));
    forall id { CountUpdated(s.calls, w, t.calls[w], p => Holds(p, e, id)); }
    forall id { TimesMore(s.exposures, x, e, id); }
    OpenBefore(s.exposures, x, e);
    RecentMore(s.exposures, x, e);
    RotatesMore(s.exposures, x, e, most);
  }

  lemma ExposedIsMine(x: Sent, source: string, at: int, e: Scene)
    requires GoodScene(e) && (x.subscription == e.subscription ==> x.creative in e.eligible && at >= e.start)
    ensures Mine(ExposureOf(x, source, at), e) <==> x.subscription == e.subscription
    ensures Mine(ExposureOf(x, source, at), e) ==> at >= e.start
  {
    if x.subscription == e.subscription { var i :| 0 <= i < |e.eligible| && e.eligible[i] == x.creative; }
  }

  lemma OpenBefore(exposures: seq<Exposure>, x: Exposure, e: Scene)
    ensures Open(exposures + [x], e) ==> Open(exposures, e)
  {
    forall id { TimesMore(exposures, x, e, id); }
  }

  lemma RecentMore(exposures: seq<Exposure>, x: Exposure, e: Scene)
    requires Recent(exposures, e) && (Mine(x, e) ==> x.at >= e.start)
    ensures Recent(exposures + [x], e)
  {}

  lemma RotatesMore(exposures: seq<Exposure>, x: Exposure, e: Scene, most: nat)
    requires Rotates(exposures, e, most)
    requires Open(exposures, e) ==> AtMostEach(exposures + [x], e, most)
    ensures Rotates(exposures + [x], e, most)
  {
    hide AtMostEach, Open;
    var all := exposures + [x];
    forall j | 0 <= j < |all| && Open(all[..j], e) ensures AtMostEach(all[..j + 1], e, most) {
      if j < |exposures| {
        assert all[..j] == exposures[..j] && all[..j + 1] == exposures[..j + 1];
      } else {
        assert all[..j] == exposures && all[..j + 1] == all;
      }
    }
  }

  lemma StepKeepsInv(s: State, step: Step, e: Scene, mode: Mode, limit: Caps.Key -> int)
    requires GoodScene(e) && Ready(s, step, e, mode, limit) && Inv(s, e, mode.most)
    ensures Inv(Do(s, step, limit), e, mode.most)
  {
    if step.Expose? && step.reply != NotSent {
      hide Inv, Narrows, Do, Moves, Holds, Mine;
      ExposedKeepsInv(s, Do(s, step, limit), step.worker,
                      ExposureOf(s.calls[step.worker].sent, step.source, step.at), e, mode.most);
    } else {
      if step.Take? && step.subscription == e.subscription { LookupMeaning(s.exposures, e, step.list); }
      hide Inv, Narrows, Do;
      if step.Take? && step.subscription == e.subscription {
        LookupKeepsInv(s, Do(s, step, limit), step.worker, step.list, e, mode.most);
      } else {
        NarrowKeepsInv(s, Do(s, step, limit), WorkerOf(step), e, mode.most);
      }
    }
  }

  /** Nothing of the campaign was shown to the subscription inside the window before its start. */
  ghost predicate Unshown(exposures: seq<Exposure>, e: Scene) {
    R.Unshown(Books(map[], exposures, []), e.subscription, e.campaign, e.start, e.window)
  }

  lemma FromInv(workers: nat, exposures: seq<Exposure>, e: Scene, most: nat)
    requires Unshown(exposures, e)
    ensures Inv(From(workers, exposures), e, most)
  {
    var s := From(workers, exposures);
    CountNone(s.calls, p => CallOf(p, e.subscription));
    forall id { CountNone(s.calls, p => Holds(p, e, id)); }
    forall j, id | 0 <= j <= |exposures| ensures Times(exposures[..j], e, id) == 0 {
      CountNone(exposures[..j], x => Mine(x, e) && x.creative == id);
    }
    assert exposures[..|exposures|] == exposures;
  }

  lemma {:induction false} RunKeepsInv(from: State, steps: seq<Step>, e: Scene, mode: Mode, limit: Caps.Key -> int)
    requires GoodScene(e) && Inv(from, e, mode.most) && Run(from, steps, e, mode, limit).Some?
    ensures Inv(Run(from, steps, e, mode, limit).value, e, mode.most)
  {
    hide Inv, Ready, Do, GoodScene;
    if steps == [] {
    } else {
      RunKeepsInv(from, steps[..|steps| - 1], e, mode, limit);
      var s := Run(from, steps[..|steps| - 1], e, mode, limit).value;
      StepKeepsInv(s, steps[|steps| - 1], e, mode, limit);
    }
  }

  /** With that many calls of a subscription in flight, whatever interleaving, caps and failures, no
      creative is exposed to it more often before every eligible one was exposed. */
  lemma ExposuresBounded(
    workers: nat, exposures: seq<Exposure>, steps: seq<Step>, e: Scene, mode: Mode, limit: Caps.Key -> int)
    requires GoodScene(e) && Unshown(exposures, e)
    requires Run(From(workers, exposures), steps, e, mode, limit).Some?
    ensures Rotates(Run(From(workers, exposures), steps, e, mode, limit).value.exposures, e, mode.most)
  {
    hide Run, Rotates, Unshown;
    FromInv(workers, exposures, e, mode.most);
    RunKeepsInv(From(workers, exposures), steps, e, mode, limit);
  }

  // ----- the payloads, when one call is in flight at a time and nothing is lost -----

  /** The creatives exposed to the subscription, in order. */
  function Exposed(exposures: seq<Exposure>, e: Scene): seq<string> {
    if exposures == [] then []
    else
      var x := exposures[|exposures| - 1];
      Exposed(exposures[..|exposures| - 1], e) + if Mine(x, e) then [x.creative] else []
  }

  /** The creatives of the payloads it was returned, in order. */
  function Served(sent: seq<Sent>, e: Scene): seq<string> {
    if sent == [] then []
    else
      var x := sent[|sent| - 1];
      Served(sent[..|sent| - 1], e) + if x.subscription == e.subscription then [x.creative.id] else []
  }

  lemma ExposedMore(exposures: seq<Exposure>, x: Exposure, e: Scene)
    ensures Exposed(exposures + [x], e) == Exposed(exposures, e) + if Mine(x, e) then [x.creative] else []
  {
    assert (exposures + [x])[..|exposures|] == exposures;
  }

  lemma ServedMore(sent: seq<Sent>, x: Sent, e: Scene)
    ensures Served(sent + [x], e) ==
            Served(sent, e) + if x.subscription == e.subscription then [x.creative.id] else []
  {
    assert (sent + [x])[..|sent|] == sent;
  }

  lemma {:induction false} ExposedMeansTimes(exposures: seq<Exposure>, e: Scene, id: string)
    ensures id in Exposed(exposures, e) <==> Times(exposures, e, id) > 0
  {
    if exposures == [] {
    } else {
      var front, x := exposures[..|exposures| - 1], exposures[|exposures| - 1];
      ExposedMeansTimes(front, e, id);
      assert exposures == front + [x];
      TimesMore(front, x, e, id);
    }
  }

  /** Fewer exposures than eligible creatives leave one unexposed. */
  lemma FewExposedOpen(exposures: seq<Exposure>, e: Scene)
    requires GoodScene(e) && |Exposed(exposures, e)| < |e.eligible|
    ensures Open(exposures, e)
  {
    var shown := Exposed(exposures, e);
    R.IdsSize(shown);
    R.ManyIds(e.eligible, e.campaign);
    SubsetSize(R.IdsOf(e.eligible), R.Ids(shown));
    var id :| id in R.IdsOf(e.eligible) && id !in R.Ids(shown);
    var i :| 0 <= i < |e.eligible| && e.eligible[i].id == id;
    assert id !in shown;
    ExposedMeansTimes(exposures, e, id);
  }

  /** Where no creative comes twice before all have come, the first exposures are distinct. */
  lemma {:induction false} ExposedDistinct(exposures: seq<Exposure>, e: Scene)
    requires GoodScene(e) && Rotates(exposures, e, 1)
    ensures R.FirstDistinct(Exposed(exposures, e), |e.eligible|)
  {
    if exposures == [] {
    } else {
      var front, x := exposures[..|exposures| - 1], exposures[|exposures| - 1];
      assert Rotates(front, e, 1) by {
        hide Open, AtMostEach;
        forall j | 0 <= j < |front| && Open(front[..j], e) ensures AtMostEach(front[..j + 1], e, 1) {
          assert front[..j] == exposures[..j] && front[..j + 1] == exposures[..j + 1];
        }
      }
      ExposedDistinct(front, e);
      assert exposures == front + [x];
      ExposedMore(front, x, e);
      if Mine(x, e) && |Exposed(front, e)| < |e.eligible| { LastIsNew(exposures, e); }
    }
  }

  lemma LastIsNew(exposures: seq<Exposure>, e: Scene)
    requires GoodScene(e) && Rotates(exposures, e, 1) && exposures != []
    requires Mine(exposures[|exposures| - 1], e) && |Exposed(exposures[..|exposures| - 1], e)| < |e.eligible|
    ensures exposures[|exposures| - 1].creative !in Exposed(exposures[..|exposures| - 1], e)
  {
    hide Times, Open;
    var n := |exposures| - 1;
    var front, x := exposures[..n], exposures[n];
    FewExposedOpen(front, e);
    assert exposures[..n + 1] == front + [x];
    assert AtMostEach(exposures[..n + 1], e, 1);
    TimesMore(front, x, e, x.creative);
    ExposedMeansTimes(front, e, x.creative);
  }

  /** A call of the subscription that was exposed and has not returned its payload yet. */
  predicate Owes(p: Phase, e: Scene) {
    p.Deciding? && p.sent.subscription == e.subscription
  }

  /** Every exposure has its payload, but for that of the call in flight. */
  ghost predicate Paired(s: State, e: Scene) {
    && (forall w :: 0 <= w < |s.calls| && Owes(s.calls[w], e) ==>
          Exposed(s.exposures, e) == Served(s.sent, e) + [s.calls[w].sent.creative.id])
    && ((forall w :: 0 <= w < |s.calls| ==> !Owes(s.calls[w], e)) ==> Exposed(s.exposures, e) == Served(s.sent, e))
  }

  lemma TwoCount<T>(s: seq<T>, i: nat, j: nat, p: T -> bool)
    requires i < j < |s| && p(s[i]) && p(s[j])
    ensures CountIf(s, p) >= 2
  {
    CountWithout(s, j, p);
    assert Without(s, j)[i] == s[i];
    CountPositive(Without(s, j), i, p);
  }

  lemma StepKeepsPaired(s: State, step: Step, e: Scene, limit: Caps.Key -> int)
    requires GoodScene(e) && Ready(s, step, e, Mode(1, false), limit) && Inv(s, e, 1) && Paired(s, e)
    ensures Paired(Do(s, step, limit), e)
  {
    hide Exposed, Served, Looked, C.Ready, C.Do, Fixed, RequestOf, Mine, R.OneCampaign, Open, Rotates, Recent;
    var w, t := WorkerOf(step), Do(s, step, limit);
    var p := s.calls[w];
    if CallOf(p, e.subscription) {
      forall v | 0 <= v < |s.calls| && v != w ensures !CallOf(s.calls[v], e.subscription) {
        if CallOf(s.calls[v], e.subscription) {
          TwoCount(s.calls, if v < w then v else w, if v < w then w else v, p => CallOf(p, e.subscription));
        }
      }
      if step.Expose? {
        var x := ExposureOf(p.sent, step.source, step.at);
        ExposedIsMine(p.sent, step.source, step.at, e);
        assert forall v :: 0 <= v < |s.calls| ==> !Owes(s.calls[v], e);
        if step.reply == Answered {
          ExposedMore(s.exposures, x, e);
          assert t.exposures == s.exposures + [x] && Mine(x, e) && t.calls[w] == Deciding(p.sent);
          assert forall v :: 0 <= v < |t.calls| && Owes(t.calls[v], e) ==> v == w;
        }
      } else if step.Decide? {
        ServedMore(s.sent, p.sent, e);
      }
    } else {
      OthersKeepPaired(s, step, e, limit);
    }
  }

  /** A step of another subscription's call, or a lookup. */
  lemma OthersKeepPaired(s: State, step: Step, e: Scene, limit: Caps.Key -> int)
    requires GoodScene(e) && Ready(s, step, e, Mode(1, false), limit) && Paired(s, e)
    requires !CallOf(s.calls[WorkerOf(step)], e.subscription)
    ensures Paired(Do(s, step, limit), e)
  {
    hide Exposed, Served, Looked, C.Ready, C.Do, Fixed, RequestOf, Mine, R.OneCampaign, InFlight;
    var w, t := WorkerOf(step), Do(s, step, limit);
    if step.Expose? {
      ExposedIsMine(s.calls[w].sent, step.source, step.at, e);
      ExposedMore(s.exposures, ExposureOf(s.calls[w].sent, step.source, step.at), e);
      assert Exposed(s.exposures, e) + [] == Exposed(s.exposures, e);
    } else if step.Decide? {
      ServedMore(s.sent, s.calls[w].sent, e);
      assert Served(s.sent, e) + [] == Served(s.sent, e);
    }
    assert Exposed(t.exposures, e) == Exposed(s.exposures, e) && Served(t.sent, e) == Served(s.sent, e);
    assert !Owes(t.calls[w], e) && !Owes(s.calls[w], e);
    assert forall v :: 0 <= v < |s.calls| && v != w ==> t.calls[v] == s.calls[v];
  }

  lemma {:induction false} RunKeepsPaired(from: State, steps: seq<Step>, e: Scene, limit: Caps.Key -> int)
    requires GoodScene(e) && Inv(from, e, 1) && Paired(from, e)
    requires Run(from, steps, e, Mode(1, false), limit).Some?
    ensures Paired(Run(from, steps, e, Mode(1, false), limit).value, e)
  {
    hide Inv, Paired, Ready, Do, GoodScene;
    if steps == [] {
    } else {
      var front := steps[..|steps| - 1];
      RunKeepsPaired(from, front, e, limit);
      RunKeepsInv(from, front, e, Mode(1, false), limit);
      StepKeepsPaired(Run(from, front, e, Mode(1, false), limit).value, steps[|steps| - 1], e, limit);
    }
  }

  lemma {:induction false} NothingExposed(exposures: seq<Exposure>, e: Scene)
    requires forall i :: 0 <= i < |exposures| ==> !Mine(exposures[i], e)
    ensures Exposed(exposures, e) == []
  {
    if exposures == [] {
    } else {
      NothingExposed(exposures[..|exposures| - 1], e);
    }
  }

  /** The payloads of the subscription, in any run from books without exposures in the window. */
  ghost predicate AlwaysDistinct(e: Scene, mode: Mode, limit: Caps.Key -> int) {
    forall workers, exposures, steps :: Unshown(exposures, e) ==>
      DistinctAfter(workers, exposures, steps, e, mode, limit)
  }

  ghost predicate DistinctAfter(
    workers: nat, exposures: seq<Exposure>, steps: seq<Step>, e: Scene, mode: Mode, limit: Caps.Key -> int)
  {
    Run(From(workers, exposures), steps, e, mode, limit).Some? ==>
      R.FirstDistinct(Served(Run(From(workers, exposures), steps, e, mode, limit).value.sent, e), |e.eligible|)
  }

  /** One call at a time and no loss: the first payloads are distinct, whatever caps refuse. */
  lemma OneAtATimeDistinct(
    workers: nat, exposures: seq<Exposure>, steps: seq<Step>, e: Scene, limit: Caps.Key -> int)
    requires GoodScene(e) && Unshown(exposures, e)
    ensures DistinctAfter(workers, exposures, steps, e, Mode(1, false), limit)
  {
    hide Run, Inv, Paired, Exposed, Served, GoodScene, Unshown, R.FirstDistinct;
    if Run(From(workers, exposures), steps, e, Mode(1, false), limit).Some? {
      FromInv(workers, exposures, e, 1);
      FromPaired(workers, exposures, e);
      RunKeepsPaired(From(workers, exposures), steps, e, limit);
      ExposuresBounded(workers, exposures, steps, e, Mode(1, false), limit);
      PairedDistinct(Run(From(workers, exposures), steps, e, Mode(1, false), limit).value, e);
    }
  }

  lemma FromPaired(workers: nat, exposures: seq<Exposure>, e: Scene)
    requires Unshown(exposures, e)
    ensures Paired(From(workers, exposures), e)
  {
    NothingExposed(exposures, e);
  }

  lemma PairedDistinct(s: State, e: Scene)
    requires GoodScene(e) && Rotates(s.exposures, e, 1) && Paired(s, e)
    ensures R.FirstDistinct(Served(s.sent, e), |e.eligible|)
  {
    hide Exposed, Served, GoodScene, Rotates;
    ExposedDistinct(s.exposures, e);
    var shown, served := Exposed(s.exposures, e), Served(s.sent, e);
    assert |served| <= |shown| && forall i :: 0 <= i < |served| ==> served[i] == shown[i] by {
      if w :| 0 <= w < |s.calls| && Owes(s.calls[w], e) {
        assert shown == served + [s.calls[w].sent.creative.id];
      }
    }
  }

  // ----- runs that repeat -----

  lemma NoSteps(from: State, e: Scene, mode: Mode, limit: Caps.Key -> int)
    ensures Run(from, [], e, mode, limit) == Some(from)
  {}

  lemma Then(from: State, steps: seq<Step>, s: State, step: Step, e: Scene, mode: Mode, limit: Caps.Key -> int)
    returns (longer: seq<Step>)
    requires Run(from, steps, e, mode, limit) == Some(s) && Ready(s, step, e, mode, limit)
    ensures longer == steps + [step] && Run(from, longer, e, mode, limit) == Some(Do(s, step, limit))
  {
    hide Ready, Do;
    longer := steps + [step];
    assert longer[..|steps|] == steps;
  }

  /** No cap of the creative is enabled. */
  predicate Free(c: Creative) {
    c.campaignDaily <= 0 && c.campaignTotal <= 0 && c.daily <= 0 && c.total <= 0
  }

  lemma FreeRequest(subscription: string, c: Creative, now: int, limit: Caps.Key -> int)
    requires Free(c)
    ensures RequestOf(subscription, c, now) == [] && Fixed(subscription, c, now, limit)
  {
    hide EnabledKeys;
    var request := RequestOf(subscription, c, now);
    assert request != [] ==> request[0] in request;
    RequestMeaning(subscription, c, now);
  }

  /** Worker `w` is about to try a creative without caps. */
  ghost predicate AtFirst(s: State, w: nat, list: seq<Creative>, e: Scene) {
    && |s.calls| == |s.caps.workers| && w < |s.calls| && s.caps.workers[w] == C.Idle
    && s.calls[w] == Trying(e.subscription, list, 0) && list != [] && Free(list[0])
  }

  /** Its cap check passes and leaves the counters alone. */
  lemma Passes(from: State, steps: seq<Step>, s: State, w: nat, list: seq<Creative>, e: Scene, mode: Mode,
               limit: Caps.Key -> int)
    returns (longer: seq<Step>)
    requires AtFirst(s, w, list, e) && Run(from, steps, e, mode, limit) == Some(s)
    ensures Run(from, longer, e, mode, limit) ==
            Some(s.(calls := s.calls[w := Recording(Sent(e.subscription, list[0], 0))]))
  {
    hide Run, RequestOf, Fixed;
    FreeRequest(e.subscription, list[0], 0, limit);
    var checked := Do(s, Check(w, 0), limit);
    assert checked.caps.workers[w] == C.Adding([], 0);
    longer := Then(from, steps, s, Check(w, 0), e, mode, limit);
    var passed := Do(checked, Command(C.Return(w)), limit);
    assert passed.caps.workers == s.caps.workers && passed.caps == s.caps;
    assert passed.calls == s.calls[w := Recording(Sent(e.subscription, list[0], 0))];
    longer := Then(from, longer, checked, Command(C.Return(w)), e, mode, limit);
  }

  /** The books after a call that was exposed, with or without an answer. */
  function AfterServing(s: State, w: nat, c: Creative, e: Scene, lost: bool): State
    requires w < |s.calls|
  {
    State(s.caps, s.calls[w := Resting],
          s.exposures + [Exposure(e.subscription, "o", c.campaign, c.id, e.start)],
          s.sent + if lost then [] else [Sent(e.subscription, c, 0)])
  }

  lemma Serves(from: State, steps: seq<Step>, s: State, w: nat, list: seq<Creative>, e: Scene, mode: Mode,
               limit: Caps.Key -> int, lost: bool)
    returns (longer: seq<Step>)
    requires AtFirst(s, w, list, e) && Run(from, steps, e, mode, limit) == Some(s) && (lost ==> mode.faults)
    ensures Run(from, longer, e, mode, limit) == Some(AfterServing(s, w, list[0], e, lost))
  {
    hide Run;
    longer := Passes(from, steps, s, w, list, e, mode, limit);
    var x := Sent(e.subscription, list[0], 0);
    var passed := s.(calls := s.calls[w := Recording(x)]);
    var expose := Expose(w, "o", e.start, if lost then AnswerLost else Answered);
    var exposed := Do(passed, expose, limit);
    longer := Then(from, longer, passed, expose, e, mode, limit);
    if lost {
      assert exposed.calls == s.calls[w := Resting] && s.sent + [] == s.sent;
    } else {
      assert Do(exposed, Decide(w, Answered), limit).calls == s.calls[w := Resting];
      longer := Then(from, longer, exposed, Decide(w, Answered), e, mode, limit);
    }
  }

  /** The first `n` creatives, each exposed once. */
  function FirstExposures(e: Scene, n: nat): seq<Exposure>
    requires n <= |e.eligible|
  {
    seq(n, i requires 0 <= i < n => Exposure(e.subscription, "o", e.eligible[i].campaign, e.eligible[i].id, e.start))
  }

  /** After that a lookup gives the others, and then all of them. */
  lemma LooksAhead(e: Scene, creatives: seq<Creative>, targeting: Option<Targeting.Snapshot>, n: nat)
    requires GoodScene(e) && Eligible(creatives, targeting) == Some(e.eligible) && n <= |e.eligible|
    ensures Looked(FirstExposures(e, n), e, Ahead(e, n))
  {
    hide Eligible;
    var b := Books(map[], FirstExposures(e, n), []);
    var seen := Seen(b, e.subscription, e.campaign, e.start - e.window);
    forall i | 0 <= i < |e.eligible| ensures seen(e.eligible[i]) <==> i < n {
      if i < n { assert b.exposures[i].creative == e.eligible[i].id; }
    }
    Sorting.FilterTail(e.eligible, n, (c: Creative) => !seen(c));
    assert e.eligible[0..] == e.eligible;
  }

  function Ahead(e: Scene, n: nat): seq<Creative>
    requires n <= |e.eligible|
  {
    if n == |e.eligible| then e.eligible else e.eligible[n..]
  }

  // Calls that all look before any of them records.

  /** Calls `from` to `to - 1` hold the list of all eligible creatives. */
  function Waiting(n: nat, from: nat, to: nat, e: Scene): seq<Phase> {
    seq(n, i => if from <= i < to then Trying(e.subscription, e.eligible, 0) else Resting)
  }

  lemma {:induction false} CountFirst<T>(s: seq<T>, k: nat, p: T -> bool)
    requires k <= |s| && forall i :: 0 <= i < |s| ==> (p(s[i]) <==> i < k)
    ensures CountIf(s, p) == k
  {
    if s == [] {
    } else {
      CountFirst(s[..|s| - 1], if k == |s| then k - 1 else k, p);
    }
  }

  /** Calls `0` to `k - 1` have looked. */
  function Looking(n: nat, k: nat, e: Scene): State {
    State(Untouched(n), Waiting(n, 0, k, e), [], [])
  }

  lemma OneLooks(e: Scene, mode: Mode, limit: Caps.Key -> int, creatives: seq<Creative>,
                 targeting: Option<Targeting.Snapshot>, k: nat)
    requires GoodScene(e) && Eligible(creatives, targeting) == Some(e.eligible) && k < mode.most
    ensures var s, take := Looking(mode.most, k, e), Take(k, e.subscription, e.eligible);
            Ready(s, take, e, mode, limit) && Do(s, take, limit) == Looking(mode.most, k + 1, e)
  {
    hide Looked, Eligible;
    var s := Looking(mode.most, k, e);
    LooksAhead(e, creatives, targeting, 0);
    assert e.eligible[0..] == e.eligible && FirstExposures(e, 0) == [];
    CountFirst(s.calls, k, p => CallOf(p, e.subscription));
    assert Do(s, Take(k, e.subscription, e.eligible), limit).calls == Waiting(mode.most, 0, k + 1, e);
  }

  lemma {:induction false} AllLook(e: Scene, mode: Mode, limit: Caps.Key -> int, creatives: seq<Creative>,
                                   targeting: Option<Targeting.Snapshot>, k: nat)
    returns (steps: seq<Step>)
    requires GoodScene(e) && Eligible(creatives, targeting) == Some(e.eligible) && k <= mode.most
    ensures Run(From(mode.most, []), steps, e, mode, limit) == Some(Looking(mode.most, k, e))
  {
    hide Run, Ready, Do, Eligible, GoodScene;
    var n := mode.most;
    if k == 0 {
      steps := [];
      NoSteps(From(n, []), e, mode, limit);
      assert Looking(n, 0, e).calls == From(n, []).calls;
    } else {
      hide Looking, From;
      steps := AllLook(e, mode, limit, creatives, targeting, k - 1);
      OneLooks(e, mode, limit, creatives, targeting, k - 1);
      steps := Then(From(n, []), steps, Looking(n, k - 1, e), Take(k - 1, e.subscription, e.eligible), e, mode, limit);
    }
  }

  /** The same creative, exposed and sent `k` times. */
  function Repeated(n: nat, k: nat, e: Scene): State
    requires e.eligible != []
  {
    var c := e.eligible[0];
    State(Untouched(n), Waiting(n, k, n, e),
          seq(k, _ => Exposure(e.subscription, "o", c.campaign, c.id, e.start)),
          seq(k, _ => Sent(e.subscription, c, 0)))
  }

  function Untouched(n: nat): C.State {
    C.State(map[], seq(n, _ => C.Idle), map[])
  }

  lemma {:induction false} AllServe(e: Scene, mode: Mode, limit: Caps.Key -> int, creatives: seq<Creative>,
                                    targeting: Option<Targeting.Snapshot>, k: nat)
    returns (steps: seq<Step>)
    requires GoodScene(e) && Eligible(creatives, targeting) == Some(e.eligible) && k <= mode.most
    requires Free(e.eligible[0])
    ensures Run(From(mode.most, []), steps, e, mode, limit) == Some(Repeated(mode.most, k, e))
  {
    hide Run;
    var n := mode.most;
    if k == 0 {
      steps := AllLook(e, mode, limit, creatives, targeting, n);
      assert Looking(n, n, e) == Repeated(n, 0, e);
    } else {
      steps := AllServe(e, mode, limit, creatives, targeting, k - 1);
      var s := Repeated(n, k - 1, e);
      steps := Serves(From(n, []), steps, s, k - 1, e.eligible, e, mode, limit, false);
      var t := AfterServing(s, k - 1, e.eligible[0], e, false);
      assert t.calls == Waiting(n, k, n, e);
      assert t == Repeated(n, k, e);
    }
  }

  lemma RepeatedMeaning(n: nat, k: nat, e: Scene)
    requires GoodScene(e) && |e.eligible| >= 2
    ensures var s := Repeated(n, k, e);
            && Times(s.exposures, e, e.eligible[0].id) == k && Open(s.exposures, e)
            && |Served(s.sent, e)| == k
            && forall i :: 0 <= i < k ==> Served(s.sent, e)[i] == e.eligible[0].id
  {
    var s := Repeated(n, k, e);
    CountFirst(s.exposures, k, x => Mine(x, e) && x.creative == e.eligible[0].id);
    CountNone(s.exposures, x => Mine(x, e) && x.creative == e.eligible[1].id);
    assert Times(s.exposures, e, e.eligible[1].id) == 0;
    SameServed(s.sent, e, e.eligible[0].id);
  }

  lemma {:induction false} SameServed(sent: seq<Sent>, e: Scene, id: string)
    requires forall i :: 0 <= i < |sent| ==> sent[i].subscription == e.subscription && sent[i].creative.id == id
    ensures |Served(sent, e)| == |sent| && forall i :: 0 <= i < |sent| ==> Served(sent, e)[i] == id
  {
    if sent == [] {
    } else {
      SameServed(sent[..|sent| - 1], e, id);
    }
  }

  /** The bound is exact: for any list of two creatives or more whose first has no cap, as many calls
      as may be in flight all expose and return it before another was exposed, and nothing fails. */
  lemma ExposureBoundReached(e: Scene, mode: Mode, limit: Caps.Key -> int, creatives: seq<Creative>,
                             targeting: Option<Targeting.Snapshot>)
    returns (steps: seq<Step>)
    requires GoodScene(e) && Eligible(creatives, targeting) == Some(e.eligible)
    requires |e.eligible| >= 2 && Free(e.eligible[0])
    ensures Unshown([], e) && Run(From(mode.most, []), steps, e, mode, limit).Some?
    ensures var s := Run(From(mode.most, []), steps, e, mode, limit).value;
            && Times(s.exposures, e, e.eligible[0].id) == mode.most && Open(s.exposures, e)
            && |Served(s.sent, e)| == mode.most
            && forall i :: 0 <= i < mode.most ==> Served(s.sent, e)[i] == e.eligible[0].id
  {
    hide Run, Times, Served, Open;
    steps := AllServe(e, mode, limit, creatives, targeting, mode.most);
    RepeatedMeaning(mode.most, mode.most, e);
  }

  // One call after the other, the second of which is exposed without its payload.

  lemma {:induction false} LossyRun(e: Scene, mode: Mode, limit: Caps.Key -> int, creatives: seq<Creative>,
                                    targeting: Option<Targeting.Snapshot>, n: nat)
    returns (steps: seq<Step>, sent: seq<Sent>)
    requires GoodScene(e) && Eligible(creatives, targeting) == Some(e.eligible) && n <= |e.eligible|
    requires mode.most >= 1 && mode.faults && forall i :: 0 <= i < |e.eligible| ==> Free(e.eligible[i])
    ensures Run(From(1, []), steps, e, mode, limit) ==
            Some(State(Untouched(1), [Resting], FirstExposures(e, n), sent))
    ensures |Served(sent, e)| == (if n <= 1 then n else n - 1)
    ensures n > 0 ==> Served(sent, e)[0] == e.eligible[0].id
  {
    hide Looked, Run, Free;
    if n == 0 {
      steps, sent := [], [];
      NoSteps(From(1, []), e, mode, limit);
      assert From(1, []).calls == [Resting] && FirstExposures(e, 0) == [];
    } else {
      steps, sent := LossyRun(e, mode, limit, creatives, targeting, n - 1);
      steps, sent := OneMore(e, mode, limit, creatives, targeting, n - 1, steps, sent);
      var c := e.eligible[n - 1];
      assert FirstExposures(e, n) ==
             FirstExposures(e, n - 1) + [Exposure(e.subscription, "o", c.campaign, c.id, e.start)];
    }
  }

  /** The next call of that run; only the second loses its answer. */
  lemma OneMore(e: Scene, mode: Mode, limit: Caps.Key -> int, creatives: seq<Creative>,
                targeting: Option<Targeting.Snapshot>, n: nat, steps: seq<Step>, sent: seq<Sent>)
    returns (longer: seq<Step>, more: seq<Sent>)
    requires GoodScene(e) && Eligible(creatives, targeting) == Some(e.eligible) && n <= |e.eligible|
    requires mode.most >= 1 && mode.faults && forall i :: 0 <= i < |e.eligible| ==> Free(e.eligible[i])
    requires var exposures := FirstExposures(e, n);
             Run(From(1, []), steps, e, mode, limit) == Some(State(Untouched(1), [Resting], exposures, sent))
    ensures var c := Ahead(e, n)[0];
            Run(From(1, []), longer, e, mode, limit) ==
            Some(State(Untouched(1), [Resting],
                       FirstExposures(e, n) +
                         [Exposure(e.subscription, "o", c.campaign, c.id, e.start)], more))
    ensures Served(more, e) == Served(sent, e) + if n == 1 then [] else [Ahead(e, n)[0].id]
  {
    hide Run, Looked, Free, Served, FirstExposures;
    var s := State(Untouched(1), [Resting], FirstExposures(e, n), sent);
    var list := Ahead(e, n);
    LooksAhead(e, creatives, targeting, n);
    CountNone(s.calls, p => CallOf(p, e.subscription));
    var take := Take(0, e.subscription, list);
    var looked := Do(s, take, limit);
    longer := Then(From(1, []), steps, s, take, e, mode, limit);
    longer := Serves(From(1, []), longer, looked, 0, list, e, mode, limit, n == 1);
    var x := Sent(e.subscription, list[0], 0);
    more := AfterServing(looked, 0, list[0], e, n == 1).sent;
    ServedMore(sent, x, e);
    assert AfterServing(looked, 0, list[0], e, n == 1).calls == [Resting];
    assert Served(sent, e) + [] == Served(sent, e) && sent + [] == sent;
  }

  /** One lost answer: the creative shown first is shown again before all of them were. */
  lemma LossRepeats(e: Scene, mode: Mode, limit: Caps.Key -> int, creatives: seq<Creative>,
                    targeting: Option<Targeting.Snapshot>)
    returns (steps: seq<Step>)
    requires GoodScene(e) && Eligible(creatives, targeting) == Some(e.eligible) && |e.eligible| >= 2
    requires mode.most >= 1 && mode.faults && forall i :: 0 <= i < |e.eligible| ==> Free(e.eligible[i])
    ensures !DistinctAfter(1, [], steps, e, mode, limit)
  {
    hide Run, Looked, Free, Served, FirstExposures;
    var n := |e.eligible|;
    var sent;
    steps, sent := LossyRun(e, mode, limit, creatives, targeting, n);
    var more;
    steps, more := OneMore(e, mode, limit, creatives, targeting, n, steps, sent);
    var served := Served(more, e);
    assert served[0] == served[n - 1];
  }

  lemma OverlapRepeats(e: Scene, mode: Mode, limit: Caps.Key -> int, creatives: seq<Creative>,
                       targeting: Option<Targeting.Snapshot>)
    returns (steps: seq<Step>)
    requires GoodScene(e) && Eligible(creatives, targeting) == Some(e.eligible) && |e.eligible| >= 2
    requires mode.most >= 2 && Free(e.eligible[0])
    ensures !DistinctAfter(mode.most, [], steps, e, mode, limit)
  {
    hide Run, Served, Times, Open;
    steps := ExposureBoundReached(e, mode, limit, creatives, targeting);
    var served := Served(Run(From(mode.most, []), steps, e, mode, limit).value.sent, e);
    assert served[0] == served[1];
  }

  /** Over all interleavings of payload calls the first payloads of a subscription are as many as its
      eligible creatives and distinct if and only if its calls come one at a time and no exposure may
      stay without its payload; for any list of two creatives or more without caps. */
  lemma DistinctExactlyWhen(e: Scene, mode: Mode, limit: Caps.Key -> int, creatives: seq<Creative>,
                            targeting: Option<Targeting.Snapshot>)
    requires GoodScene(e) && Eligible(creatives, targeting) == Some(e.eligible) && |e.eligible| >= 2
    requires mode.most >= 1 && forall i :: 0 <= i < |e.eligible| ==> Free(e.eligible[i])
    ensures AlwaysDistinct(e, mode, limit) <==> mode == Mode(1, false)
  {
    hide DistinctAfter, Eligible, GoodScene;
    if mode == Mode(1, false) {
      forall workers, exposures, steps | Unshown(exposures, e)
        ensures DistinctAfter(workers, exposures, steps, e, mode, limit)
      {
        OneAtATimeDistinct(workers, exposures, steps, e, limit);
      }
    } else {
      assert Unshown([], e);
      if mode.faults {
        var steps := LossRepeats(e, mode, limit, creatives, targeting);
      } else {
        var steps := OverlapRepeats(e, mode, limit, creatives, targeting);
      }
    }
  }

  // ----- the same runs under caps -----

  /** Every run here is a run of PayloadConcurrency, so its payloads also keep within their caps. */
  lemma {:induction false} RunIsPayloadRun(
    from: State, steps: seq<Step>, e: Scene, mode: Mode, limit: Caps.Key -> int)
    requires Run(from, steps, e, mode, limit).Some?
    ensures PayloadConcurrency.Run(from, steps, limit) == Run(from, steps, e, mode, limit)
  {
    hide PayloadConcurrency.Ready, Do, Looked, InFlight;
    if steps == [] {
    } else {
      RunIsPayloadRun(from, steps[..|steps| - 1], e, mode, limit);
    }
  }

  lemma RotatedAndCapped(workers: nat, steps: seq<Step>, e: Scene, mode: Mode, limit: Caps.Key -> int, k: Caps.Key)
    requires GoodScene(e) && workers > 0 && limit(k) > 0
    requires Run(From(workers, []), steps, e, mode, limit).Some?
    ensures var s := Run(From(workers, []), steps, e, mode, limit).value;
            Rotates(s.exposures, e, mode.most) && SentUnder(s, k) <= limit(k) + workers - 1
  {
    hide Run, PayloadConcurrency.Run, Rotates;
    RunIsPayloadRun(From(workers, []), steps, e, mode, limit);
    ExposuresBounded(workers, [], steps, e, mode, limit);
    PayloadsWithinCap(workers, steps, limit, k);
  }
}
