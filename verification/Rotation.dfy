/** Rotation of creatives over runs of payload calls: packages/go/subscribers/service.go:850-890,
    1018-1063. */
module Rotation {
  import opened Wrappers
  import opened Counting
  import opened Payload
  import opened PayloadRuns

  // ----- exposures one after the other -----

  /** A recorded exposure, and whether its call returned the payload. */
  datatype Mark = Mark(creative: string, shown: bool)

  function Names(marks: seq<Mark>): set<string> {
    set j | 0 <= j < |marks| :: marks[j].creative
  }

  lemma {:induction false} FewNames(marks: seq<Mark>)
    ensures |Names(marks)| <= |marks|
  {
    if marks == [] {
    } else {
      var n := |marks| - 1;
      FewNames(marks[..n]);
      assert Names(marks) == Names(marks[..n]) + {marks[n].creative};
    }
  }

  /** Nothing repeats before everything eligible was exposed. */
  ghost predicate Rotates(marks: seq<Mark>, ids: set<string>) {
    forall j :: 0 <= j < |marks| ==>
      && marks[j].creative in ids
      && (marks[j].creative in Names(marks[..j]) ==> ids <= Names(marks[..j]))
  }

  lemma FirstExposuresDistinct(marks: seq<Mark>, ids: set<string>, i: nat, j: nat)
    requires Rotates(marks, ids) && i < j < |marks| && j < |ids|
    ensures marks[i].creative != marks[j].creative
  {
    if marks[i].creative == marks[j].creative {
      assert marks[..j][i].creative in Names(marks[..j]);
      FewNames(marks[..j]);
      SubsetSize(ids, Names(marks[..j]));
      assert false;
    }
  }

  /** The creatives of the payloads that were returned, in order. */
  function Payloads(marks: seq<Mark>): (ids: seq<string>)
    ensures |ids| + Orphans(marks) == |marks|
  {
    if marks == [] then []
    else
      var n := |marks| - 1;
      Payloads(marks[..n]) + if marks[n].shown then [marks[n].creative] else []
  }

  /** Exposures whose call returned no payload. */
  function Orphans(marks: seq<Mark>): nat {
    CountIf(marks, (m: Mark) => !m.shown)
  }

  /** Where the payload at position `r` was exposed. */
  function Place(marks: seq<Mark>, r: nat): (j: nat)
    requires r < |Payloads(marks)|
    ensures j < |marks| && marks[j].creative == Payloads(marks)[r]
    ensures r <= j <= r + Orphans(marks)
  {
    var n := |marks| - 1;
    if r == |Payloads(marks[..n])| then n else Place(marks[..n], r)
  }

  lemma {:induction false} PlacesInOrder(marks: seq<Mark>, p: nat, r: nat)
    requires p < r < |Payloads(marks)|
    ensures Place(marks, p) < Place(marks, r)
  {
    var n := |marks| - 1;
    if r == |Payloads(marks[..n])| {
    } else {
      PlacesInOrder(marks[..n], p, r);
    }
  }

  ghost predicate FirstDistinct(payloads: seq<string>, n: int) {
    forall p, r :: 0 <= p < r < |payloads| && r < n ==> payloads[p] != payloads[r]
  }

  function Ids(ids: seq<string>): set<string> {
    set i | 0 <= i < |ids| :: ids[i]
  }

  lemma {:induction false} IdsSize(ids: seq<string>)
    ensures |Ids(ids)| <= |ids|
    ensures (forall i, j :: 0 <= i < j < |ids| ==> ids[i] != ids[j]) ==> |Ids(ids)| == |ids|
  {
    if ids == [] {
    } else {
      var n := |ids| - 1;
      IdsSize(ids[..n]);
      assert Ids(ids) == Ids(ids[..n]) + {ids[n]};
    }
  }

  // ----- runs of calls -----

  datatype Call = Call(q: Request, env: Env)

  function After(b: Books, calls: seq<Call>, setup: Setup): Books {
    if calls == [] then b
    else
      var n := |calls| - 1;
      PayloadSpec(After(b, calls[..n], setup), calls[n].q, setup, calls[n].env).1
  }

  function OutcomeOf(b: Books, calls: seq<Call>, setup: Setup): Outcome
    requires calls != []
  {
    var n := |calls| - 1;
    PayloadSpec(After(b, calls[..n], setup), calls[n].q, setup, calls[n].env).0
  }

  /** The exposures that the calls of one subscription recorded. */
  function Marks(b: Books, calls: seq<Call>, setup: Setup, subscription: string): seq<Mark> {
    if calls == [] then []
    else
      var n := |calls| - 1;
      var before, after := After(b, calls[..n], setup).exposures, After(b, calls, setup).exposures;
      Marks(b, calls[..n], setup, subscription) +
      if calls[n].q.subscription == subscription && |after| > |before|
      then [Mark(after[|after| - 1].creative, OutcomeOf(b, calls, setup).Shown?)]
      else []
  }

  /** The creatives that the calls of one subscription returned. */
  function Served(b: Books, calls: seq<Call>, setup: Setup, subscription: string): seq<string> {
    if calls == [] then []
    else
      var n := |calls| - 1;
      var r := OutcomeOf(b, calls, setup);
      Served(b, calls[..n], setup, subscription) +
      if calls[n].q.subscription == subscription && r.Shown? then [r.payload.creative] else []
  }

  /** One campaign's creatives, each with an id of its own. */
  ghost predicate OneCampaign(eligible: seq<Creative>, campaign: string) {
    && eligible != []
    && (forall i :: 0 <= i < |eligible| ==> eligible[i].campaign == campaign)
    && (forall i, j :: 0 <= i < j < |eligible| ==> eligible[i].id != eligible[j].id)
  }

  function IdsOf(eligible: seq<Creative>): set<string> {
    set i | 0 <= i < |eligible| :: eligible[i].id
  }

  /** A call of this subscription finds the same eligible creatives, inside the window from `start`. */
  ghost predicate Steady(c: Call, subscription: string, eligible: seq<Creative>, setup: Setup, start: int) {
    c.q.subscription == subscription ==>
      && c.env.creatives.Found? && Eligible(c.env.creatives.value, c.env.targeting) == Some(eligible)
      && start <= c.env.exposeAt
      && (c.env.seenAt.Some? ==> start <= c.env.seenAt.value <= start + setup.window)
  }

  ghost predicate SteadyRun(calls: seq<Call>, subscription: string, eligible: seq<Creative>, setup: Setup, start: int) {
    forall i :: 0 <= i < |calls| ==> Steady(calls[i], subscription, eligible, setup, start)
  }

  predicate Rotating(setup: Setup) {
    setup.creatives && setup.exposures && setup.window > 0
  }

  /** What a lookup inside the window sees is what was marked. */
  ghost predicate SeenAreMarked(
    b: Books, marks: seq<Mark>, subscription: string, campaign: string, start: int, window: int)
  {
    forall since, id :: start - window <= since <= start ==>
      (SeenIn(b.exposures, subscription, campaign, since, id) <==> id in Names(marks))
  }

  /** Nothing of the campaign was shown to the subscription inside the window before `start`. */
  ghost predicate Unshown(b: Books, subscription: string, campaign: string, start: int, window: int) {
    forall i :: 0 <= i < |b.exposures| ==> !Counted(b.exposures[i], subscription, campaign, start - window)
  }

  lemma UnshownStart(b: Books, subscription: string, campaign: string, start: int, window: int)
    requires Unshown(b, subscription, campaign, start, window)
    ensures SeenAreMarked(b, [], subscription, campaign, start, window)
  {
    forall since, id | start - window <= since <= start
      ensures !SeenIn(b.exposures, subscription, campaign, since, id)
    {
      forall i | 0 <= i < |b.exposures| ensures !Counted(b.exposures[i], subscription, campaign, since) {
        assert !Counted(b.exposures[i], subscription, campaign, start - window);
      }
    }
  }

  lemma OneMoreSeen(
    b: Books, after: Books, marks: seq<Mark>, m: Mark, x: Exposure, subscription: string, campaign: string, start: int,
    window: int)
    requires SeenAreMarked(b, marks, subscription, campaign, start, window)
    requires after.exposures == b.exposures + [x] && x.creative == m.creative
    requires x.subscription == subscription && x.campaign == campaign && x.at >= start
    ensures SeenAreMarked(after, marks + [m], subscription, campaign, start, window)
  {
    assert Names(marks + [m]) == Names(marks) + {m.creative} by {
      assert forall j :: 0 <= j < |marks| ==> (marks + [m])[j] == marks[j];
      assert (marks + [m])[|marks|] == m;
    }
    forall since, id | start - window <= since <= start
      ensures SeenIn(after.exposures, subscription, campaign, since, id) <==>
              SeenIn(b.exposures, subscription, campaign, since, id) || id == m.creative
    {
      SeenInAppend(b.exposures, x, subscription, campaign, since, id);
    }
  }

  lemma SeenInAppend(
    exposures: seq<Exposure>, x: Exposure, subscription: string, campaign: string, since: int, id: string)
    ensures SeenIn(exposures + [x], subscription, campaign, since, id) <==>
            SeenIn(exposures, subscription, campaign, since, id) ||
            (Counted(x, subscription, campaign, since) && x.creative == id)
  {
    var all := exposures + [x];
    assert all[|exposures|] == x;
    assert forall i :: 0 <= i < |exposures| ==> all[i] == exposures[i];
  }

  lemma OthersUnseen(
    b: Books, after: Books, marks: seq<Mark>, subscription: string, campaign: string, start: int, window: int)
    requires SeenAreMarked(b, marks, subscription, campaign, start, window)
    requires after.exposures == b.exposures ||
             exists x: Exposure :: after.exposures == b.exposures + [x] && x.subscription != subscription
    ensures SeenAreMarked(after, marks, subscription, campaign, start, window)
  {
    if after.exposures != b.exposures {
      var x: Exposure :| after.exposures == b.exposures + [x] && x.subscription != subscription;
      forall since, id | start - window <= since <= start
        ensures SeenIn(after.exposures, subscription, campaign, since, id) <==>
                SeenIn(b.exposures, subscription, campaign, since, id)
      {
        SeenInAppend(b.exposures, x, subscription, campaign, since, id);
      }
    }
  }

  /** What a call of the subscription exposes obeys the rotation rule. */
  lemma CallRotates(
    b: Books, c: Call, setup: Setup, r: Outcome, after: Books, subscription: string, campaign: string,
    eligible: seq<Creative>, start: int, marks: seq<Mark>, m: Mark)
    requires Rotating(setup) && OneCampaign(eligible, campaign) && c.q.subscription == subscription
    requires Steady(c, subscription, eligible, setup, start)
    requires SeenAreMarked(b, marks, subscription, campaign, start, setup.window)
    requires after.exposures != [] && m.creative == after.exposures[|after.exposures| - 1].creative
    requires (r, after) == PayloadSpec(b, c.q, setup, c.env) && after.exposures != b.exposures
    ensures m.creative in IdsOf(eligible)
    ensures m.creative in Names(marks) ==> IdsOf(eligible) <= Names(marks)
    ensures SeenAreMarked(after, marks + [m], subscription, campaign, start, setup.window)
  {
    hide SeenAreMarked, PayloadSpec, Eligible, FirstAllowed, Rotated, Seen, Names;
    var list, i := ExposureMeaning(b, c.q, setup, c.env);
    var since := c.env.seenAt.value - setup.window;
    var seen := Seen(b, subscription, campaign, since);
    assert list == Rotated(eligible, seen);
    RotatedMeaning(eligible, seen);
    assert list[i] in list;
    SeenMeaning(b, marks, subscription, campaign, start, setup.window, since, eligible);
    var x := Exposure(c.q.subscription, SourceOf(c.q, c.env), list[i].campaign, list[i].id, c.env.exposeAt);
    OneMoreSeen(b, after, marks, m, x, subscription, campaign, start, setup.window);
  }

  lemma SeenMeaning(
    b: Books, marks: seq<Mark>, subscription: string, campaign: string, start: int, window: int, since: int,
    eligible: seq<Creative>)
    requires SeenAreMarked(b, marks, subscription, campaign, start, window) && start - window <= since <= start
    ensures var seen := Seen(b, subscription, campaign, since);
            && (forall c :: c in eligible ==> c.id in IdsOf(eligible) && (seen(c) <==> c.id in Names(marks)))
            && ((forall c :: c in eligible ==> seen(c)) ==> IdsOf(eligible) <= Names(marks))
  {
    hide SeenIn, Names;
    var seen := Seen(b, subscription, campaign, since);
    if forall c :: c in eligible ==> seen(c) {
      forall id | id in IdsOf(eligible) ensures id in Names(marks) {
        var i :| 0 <= i < |eligible| && eligible[i].id == id;
        assert eligible[i] in eligible;
      }
    }
  }

  /** Calls of other subscriptions record nothing for this one. */
  lemma OtherCall(
    b: Books, c: Call, setup: Setup, subscription: string, campaign: string, start: int, marks: seq<Mark>)
    requires setup.creatives && SeenAreMarked(b, marks, subscription, campaign, start, setup.window)
    requires c.q.subscription != subscription || PayloadSpec(b, c.q, setup, c.env).1.exposures == b.exposures
    ensures SeenAreMarked(PayloadSpec(b, c.q, setup, c.env).1, marks, subscription, campaign, start, setup.window)
  {
    hide SeenAreMarked, PayloadSpec, Tried, FirstAllowed;
    if PayloadSpec(b, c.q, setup, c.env).1.exposures != b.exposures {
      var list, i := ExposureMeaning(b, c.q, setup, c.env);
      var x := Exposure(c.q.subscription, SourceOf(c.q, c.env), list[i].campaign, list[i].id, c.env.exposeAt);
      assert x.subscription != subscription;
    }
    OthersUnseen(b, PayloadSpec(b, c.q, setup, c.env).1, marks, subscription, campaign, start, setup.window);
  }

  lemma RotatesAppend(marks: seq<Mark>, m: Mark, ids: set<string>)
    requires Rotates(marks, ids) && m.creative in ids && (m.creative in Names(marks) ==> ids <= Names(marks))
    ensures Rotates(marks + [m], ids)
  {
    var all := marks + [m];
    forall j | 0 <= j < |all|
      ensures all[j].creative in ids && (all[j].creative in Names(all[..j]) ==> ids <= Names(all[..j]))
    {
      if j < |marks| { assert all[..j] == marks[..j]; } else { assert all[..j] == marks; }
    }
  }

  /** Inside one exposure window the exposures of a campaign rotate, and the payloads returned are
      those of them whose call succeeded. */
  lemma {:induction false} RunRotates(
    b: Books, calls: seq<Call>, setup: Setup, subscription: string, campaign: string, eligible: seq<Creative>,
    start: int)
    requires Rotating(setup) && OneCampaign(eligible, campaign)
    requires SteadyRun(calls, subscription, eligible, setup, start)
    requires Unshown(b, subscription, campaign, start, setup.window)
    ensures var marks := Marks(b, calls, setup, subscription);
            && Rotates(marks, IdsOf(eligible))
            && Served(b, calls, setup, subscription) == Payloads(marks)
            && SeenAreMarked(After(b, calls, setup), marks, subscription, campaign, start, setup.window)
  {
    hide PayloadSpec, SeenAreMarked, Rotates, OneCampaign, Steady, Unshown;
    if calls == [] {
      UnshownStart(b, subscription, campaign, start, setup.window);
      assert Rotates([], IdsOf(eligible)) by { NothingRotates(IdsOf(eligible)); }
    } else {
      var n := |calls| - 1;
      var c := calls[n];
      RunRotates(b, calls[..n], setup, subscription, campaign, eligible, start);
      var before := After(b, calls[..n], setup);
      var marks := Marks(b, calls[..n], setup, subscription);
      var (r, after) := PayloadSpec(before, c.q, setup, c.env);
      LastMark(b, calls, setup, subscription);
      LastServed(b, calls, setup, subscription);
      if c.q.subscription == subscription && after.exposures != before.exposures {
        var m := Mark(after.exposures[|after.exposures| - 1].creative, r.Shown?);
        CallRotates(before, c, setup, r, after, subscription, campaign, eligible, start, marks, m);
        RotatesAppend(marks, m, IdsOf(eligible));
      } else {
        OtherCall(before, c, setup, subscription, campaign, start, marks);
      }
    }
  }

  /** What the last call of a run adds to the marks. */
  lemma LastMark(b: Books, calls: seq<Call>, setup: Setup, subscription: string)
    requires setup.creatives && setup.exposures && calls != []
    ensures var n := |calls| - 1;
            var c, before, marks := calls[n], After(b, calls[..n], setup), Marks(b, calls[..n], setup, subscription);
            var (r, after) := PayloadSpec(before, c.q, setup, c.env);
            && After(b, calls, setup) == after
            && (after.exposures != before.exposures ==> after.exposures != [])
            && Marks(b, calls, setup, subscription) ==
               if c.q.subscription == subscription && after.exposures != before.exposures
               then marks + [Mark(after.exposures[|after.exposures| - 1].creative, r.Shown?)] else marks
  {
    hide PayloadSpec;
    var n := |calls| - 1;
    var c, before := calls[n], After(b, calls[..n], setup);
    var (r, after) := PayloadSpec(before, c.q, setup, c.env);
    LastCall(before, c, setup, r, after);
    var marks := Marks(b, calls[..n], setup, subscription);
    assert marks + [] == marks;
  }

  /** And to the payloads. */
  lemma LastServed(b: Books, calls: seq<Call>, setup: Setup, subscription: string)
    requires setup.creatives && setup.exposures && calls != []
    requires Served(b, calls[..|calls| - 1], setup, subscription) ==
             Payloads(Marks(b, calls[..|calls| - 1], setup, subscription))
    ensures Served(b, calls, setup, subscription) == Payloads(Marks(b, calls, setup, subscription))
  {
    hide PayloadSpec, Payloads, Orphans, Marks;
    LastMark(b, calls, setup, subscription);
    var n := |calls| - 1;
    var c, before := calls[n], After(b, calls[..n], setup);
    var (r, after) := PayloadSpec(before, c.q, setup, c.env);
    LastCall(before, c, setup, r, after);
    var served := Served(b, calls[..n], setup, subscription);
    assert served + [] == served;
    if c.q.subscription == subscription && after.exposures != before.exposures {
      PayloadsAppend(Marks(b, calls[..n], setup, subscription),
                     Mark(after.exposures[|after.exposures| - 1].creative, r.Shown?));
    }
  }

  lemma PayloadsAppend(marks: seq<Mark>, m: Mark)
    ensures Payloads(marks + [m]) == Payloads(marks) + if m.shown then [m.creative] else []
  {
    assert (marks + [m])[..|marks|] == marks;
  }

  lemma NothingRotates(ids: set<string>)
    ensures Rotates([], ids)
  {}

  lemma LastCall(before: Books, c: Call, setup: Setup, r: Outcome, after: Books)
    requires setup.creatives && setup.exposures && (r, after) == PayloadSpec(before, c.q, setup, c.env)
    ensures after.exposures != before.exposures ==> |after.exposures| == |before.exposures| + 1
    ensures r.Shown? ==>
              && after.exposures != before.exposures
              && r.payload.creative == after.exposures[|after.exposures| - 1].creative
  {
    hide PayloadSpec, Tried, FirstAllowed, RefusedUpTo, AllowNth;
    assert r == PayloadSpec(before, c.q, setup, c.env).0 && after == PayloadSpec(before, c.q, setup, c.env).1;
    if after.exposures != before.exposures {
      var list, i := ExposureMeaning(before, c.q, setup, c.env);
    }
    if r.Shown? {
      var list, i := ShownMeaning(before, c.q, setup, c.env);
      assert ShownBy(before, c.q, setup, c.env, list, i, r, after);
    }
  }

  /** The payloads of one window: as long as the decision and exposure records succeed, the first
      ones are pairwise distinct, as many as there are eligible creatives, whatever caps refuse;
      every exposure that was recorded without its payload costs at most one of them. */
  lemma FirstServedDistinct(
    b: Books, calls: seq<Call>, setup: Setup, subscription: string, campaign: string, eligible: seq<Creative>,
    start: int)
    requires Rotating(setup) && OneCampaign(eligible, campaign)
    requires SteadyRun(calls, subscription, eligible, setup, start)
    requires Unshown(b, subscription, campaign, start, setup.window)
    ensures FirstDistinct(Served(b, calls, setup, subscription),
                          |eligible| - Orphans(Marks(b, calls, setup, subscription)))
  {
    hide SteadyRun, Unshown, Marks, Served, Rotates;
    RunRotates(b, calls, setup, subscription, campaign, eligible, start);
    ManyIds(eligible, campaign);
    var marks := Marks(b, calls, setup, subscription);
    var served := Served(b, calls, setup, subscription);
    forall p, r | 0 <= p < r < |served| && r < |eligible| - Orphans(marks) ensures served[p] != served[r] {
      PlacesInOrder(marks, p, r);
      FirstExposuresDistinct(marks, IdsOf(eligible), Place(marks, p), Place(marks, r));
    }
  }

  lemma ManyIds(eligible: seq<Creative>, campaign: string)
    requires OneCampaign(eligible, campaign)
    ensures |IdsOf(eligible)| == |eligible|
  {
    var ids := seq(|eligible|, i requires 0 <= i < |eligible| => eligible[i].id);
    IdsSize(ids);
    forall i | 0 <= i < |eligible| ensures eligible[i].id in Ids(ids) { assert ids[i] == eligible[i].id; }
    assert Ids(ids) == IdsOf(eligible);
  }
}
