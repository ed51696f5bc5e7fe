/** What a payload call leaves behind, and how creatives rotate over many calls:
    packages/go/subscribers/service.go:730-1063. */
module PayloadRuns {
  import opened Wrappers
  import opened Sorting
  import opened Payload
  import Caps
  import Targeting

  // ----- the steps -----

  /** The filter keeps exactly the creatives whose rules the subscriber meets; a list without any
      rule is kept whole, and only then may the attributes be unreadable. */
  lemma EligibleMeaning(creatives: seq<Creative>, targeting: Option<Targeting.Snapshot>)
    ensures targeting.Some? ==>
              Eligible(creatives, targeting) == Some(Filter(creatives, (c: Creative) => Matches(targeting.value, c)))
    ensures Eligible(creatives, targeting).None? <==> targeting.None? && exists c :: c in creatives && HasRules(c)
    ensures Eligible(creatives, targeting).Some? ==>
              forall c :: c in Eligible(creatives, targeting).value ==> c in creatives
  {
    hide Matches, HasRules;
    if targeting.Some? {
      var keep := (c: Creative) => Matches(targeting.value, c);
      FilterMembers(creatives, keep);
      if forall i :: 0 <= i < |creatives| ==> !HasRules(creatives[i]) {
        forall i | 0 <= i < |creatives| ensures keep(creatives[i]) { NoRulesMatch(creatives[i], targeting.value); }
        FilterTail(creatives, 0, keep);
      }
    }
  }

  lemma NoRulesMatch(c: Creative, s: Targeting.Snapshot)
    requires !HasRules(c)
    ensures Matches(s, c)
  {}

  /** A creative counts as seen if it was exposed to the subscription, for the campaign, no earlier than
      the whole millisecond in which the window opens. */
  lemma SeenMeaning(exposures: seq<Exposure>, subscription: string, campaign: string, since: int, id: string)
    ensures SeenIn(exposures, subscription, campaign, since, id) <==>
            exists i :: 0 <= i < |exposures| && exposures[i].subscription == subscription &&
                        exposures[i].campaign == campaign && exposures[i].creative == id &&
                        exposures[i].at >= since - since % 1_000_000
  {}

  /** A creative that was seen is in the list only when every eligible one was seen. */
  lemma RotatedMeaning(creatives: seq<Creative>, seen: Creative -> bool)
    ensures forall c :: c in Rotated(creatives, seen) ==> c in creatives
    ensures forall c :: c in Rotated(creatives, seen) && seen(c) ==> forall e :: e in creatives ==> seen(e)
    ensures (exists e :: e in creatives && !seen(e)) ==>
              Rotated(creatives, seen) == Filter(creatives, (c: Creative) => !seen(c))
  {
    FilterMembers(creatives, (c: Creative) => !seen(c));
    var unseen := Filter(creatives, (c: Creative) => !seen(c));
    assert forall e :: e in creatives && !seen(e) ==> e in unseen;
  }

  /** The first allowed creative is chosen, everything before it was refused, and the counters
      move only by the one call that was not refused. */
  lemma {:induction false} FirstAllowedMeaning(
    counters: Caps.Store, subscription: string, list: seq<Creative>, i: nat, setup: Setup, env: Env)
    requires i <= |list|
    ensures var (choice, after) := FirstAllowed(counters, subscription, list, i, setup, env);
            match choice
            case NoneAllowed => after == counters && RefusedUpTo(counters, subscription, list, i, |list|, setup, env)
            case Chosen(j) =>
              && RefusedUpTo(counters, subscription, list, i, j, setup, env)
              && AllowNth(counters, subscription, list[j], j, setup, env) == (Caps.Allowed, after)
            case CapBroken =>
              exists j :: i <= j < |list| && RefusedUpTo(counters, subscription, list, i, j, setup, env) &&
                          AllowNth(counters, subscription, list[j], j, setup, env) == (Caps.Failed, after)
    decreases |list| - i
  {
    hide AllowNth;
    if i < |list| && AllowNth(counters, subscription, list[i], i, setup, env).0 == Caps.Refused {
      RefusedKeeps(counters, subscription, list[i], i, setup, env);
      FirstAllowedMeaning(counters, subscription, list, i + 1, setup, env);
    }
  }

  ghost predicate RefusedUpTo(
    counters: Caps.Store, subscription: string, list: seq<Creative>, i: nat, n: nat, setup: Setup, env: Env)
    requires n <= |list|
  {
    forall j :: i <= j < n ==> AllowNth(counters, subscription, list[j], j, setup, env).0 == Caps.Refused
  }

  lemma RefusedKeeps(counters: Caps.Store, subscription: string, c: Creative, i: nat, setup: Setup, env: Env)
    requires AllowNth(counters, subscription, c, i, setup, env).0 == Caps.Refused
    ensures AllowNth(counters, subscription, c, i, setup, env).1 == counters
  {
    hide Caps.AllowSpec;
    if setup.caps { Caps.AllowMeaning(counters, CapInput(subscription, c), env.capAt(i), env.capFaults(i)); }
  }

  // ----- one call -----

  function SourceOf(q: Request, env: Env): string {
    if q.source == "" && env.source.Found? then env.source.value else q.source
  }

  /** The call got as far as a list of creatives to try. */
  ghost predicate Tried(b: Books, q: Request, setup: Setup, env: Env, list: seq<Creative>) {
    && setup.creatives && (q.source == "" ==> env.source.Found?)
    && env.creatives.Found? && env.creatives.value != []
    && var eligible := Eligible(env.creatives.value, env.targeting);
       && eligible.Some? && eligible.value != []
       && Ordering(b, q, eligible.value, setup, env) == Some(list)
  }

  /** The payload shows the creative, with a click link for this delivery, and names whom it is for. */
  ghost predicate Tells(p: PushPayload, q: Request, source: string, c: Creative, env: Env) {
    && p.title == c.title && p.body == c.body && p.icon == c.icon && p.url == c.url
    && p.clickUrl == env.click(q.delivery, c.url)
    && p.trigger == q.trigger && p.delivery == q.delivery && p.subscription == q.subscription
    && p.source == source && p.campaign == c.campaign && p.creative == c.id
  }

  /** A payload of `list[i]` was returned, with everything the books hold about it. */
  ghost predicate ShownBy(
    b: Books, q: Request, setup: Setup, env: Env, list: seq<Creative>, i: nat, r: Outcome, after: Books)
  {
    && Tried(b, q, setup, env, list) && i < |list|
    && RefusedUpTo(b.counters, q.subscription, list, 0, i, setup, env)
    && AllowNth(b.counters, q.subscription, list[i], i, setup, env) == (Caps.Allowed, after.counters)
    && var source, c := SourceOf(q, env), list[i];
       && r.Shown? && Tells(r.payload, q, source, c, env)
       && after.exposures == b.exposures +
            (if setup.exposures
             then [Exposure(subscription := q.subscription, source := source, campaign := c.campaign,
                            creative := c.id, at := env.exposeAt)] else [])
       && after.decisions == b.decisions +
            (if setup.decisions
             then [Decision(trigger := q.trigger, subscription := q.subscription, source := source,
                            campaign := c.campaign, creative := c.id, result := Selected, reason := ShownReason)]
             else [])
  }

  /** Every payload comes from the first allowed creative of the filtered and ordered list, and
      leaves exactly one exposure and one decision. */
  lemma ShownMeaning(b: Books, q: Request, setup: Setup, env: Env) returns (list: seq<Creative>, i: nat)
    requires setup.creatives && PayloadSpec(b, q, setup, env).0.Shown?
    ensures var (r, after) := PayloadSpec(b, q, setup, env);
            ShownBy(b, q, setup, env, list, i, r, after)
  {
    hide Eligible, Ordering, AllowNth, FirstAllowed;
    var eligible := Eligible(env.creatives.value, env.targeting).value;
    list := Ordering(b, q, eligible, setup, env).value;
    FirstAllowedMeaning(b.counters, q.subscription, list, 0, setup, env);
    i := FirstAllowed(b.counters, q.subscription, list, 0, setup, env).0.index;
  }

  /** +1 on exactly the enabled counters of a creative. */
  ghost predicate CountedOnce(
    before: Caps.Store, after: Caps.Store, subscription: string, c: Creative, now: int, setup: Setup)
  {
    if !setup.caps then after == before
    else
      var input := CapInput(subscription, c);
      forall k :: if Caps.Enabled(input, now, k)
                  then Caps.Count(after, k, now) == Caps.Count(before, k, now) + 1 <= Caps.LimitFor(input, now, k)
                  else Caps.Look(after, k) == Caps.Look(before, k)
  }

  lemma ShownCounts(b: Books, q: Request, setup: Setup, env: Env, list: seq<Creative>, i: nat, r: Outcome, after: Books)
    requires ShownBy(b, q, setup, env, list, i, r, after)
    ensures CountedOnce(b.counters, after.counters, q.subscription, list[i], env.capAt(i), setup)
  {
    hide Caps.AllowSpec, Tried, RefusedUpTo;
    if setup.caps {
      Caps.AllowMeaning(b.counters, CapInput(q.subscription, list[i]), env.capAt(i), env.capFaults(i));
    }
  }

  /** A decision says what the caller was told, and why. */
  ghost predicate DecisionFits(d: Decision, q: Request, setup: Setup, env: Env, r: Outcome) {
    && d.trigger == q.trigger && d.subscription == q.subscription && d.source == SourceOf(q, env)
    && (d.campaign == q.campaign ||
        (env.creatives.Found? && exists c :: c in env.creatives.value && d.campaign == c.campaign))
    && match r
       case Shown(p) =>
         d.result == Selected && d.reason == ShownReason && d.creative == p.creative && d.campaign == p.campaign
       case Failed(Held) =>
         && d.result == Suppressed && d.creative == "" && env.creatives.Found?
         && d.reason ==
            if Eligible(env.creatives.value, env.targeting) == Some([]) then TargetingMismatch else CapsExceeded
       case Failed(Unknown) =>
         && d.result == NotFound && d.creative == ""
         && (d.reason == SourceLookupFailed <==> q.source == "" && env.source.Missing?)
         && (d.reason == NoActiveCreative <==>
               (q.source == "" ==> env.source.Found?) && (env.creatives.Missing? || env.creatives == Found([])))
       case Failed(Broken) =>
         && ((d.result == Selected && d.reason == ShownReason && env.decide == AnswerLost) ||
             (d.result == Errored && BrokenReason(d.reason, q, setup, env)))
         && if d.reason == ShownReason || d.reason == ExposureRecordFailed
            then NamesCreative(d, env) else d.creative == ""
       case Failed(InvalidInput) => false
  }

  ghost predicate NamesCreative(d: Decision, env: Env) {
    env.creatives.Found? && exists c :: c in env.creatives.value && d.campaign == c.campaign && d.creative == c.id
  }

  /** What broke: the first lookup that failed, or caps or the exposure record behind them. */
  ghost predicate BrokenReason(reason: Reason, q: Request, setup: Setup, env: Env) {
    if q.source == "" && !env.source.Found? then env.source.Unreadable? && reason == SourceLookupFailed
    else if !env.creatives.Found? then env.creatives.Unreadable? && reason == CreativeLookupFailed
    else if Eligible(env.creatives.value, env.targeting) == None then reason == TargetingLookupFailed
    else if setup.exposures && setup.window > 0 && env.seenAt.None? then reason == ExposureLookupFailed
    else reason == CapCheckFailed || (reason == ExposureRecordFailed && setup.exposures && env.expose != Answered)
  }

  ghost predicate Accounted(b: Books, q: Request, setup: Setup, env: Env, r: Outcome, after: Books) {
    && (after.decisions == b.decisions ||
        (exists d :: after.decisions == b.decisions + [d] && DecisionFits(d, q, setup, env, r)))
    && (setup.creatives && setup.decisions && env.decide == Answered ==>
          |after.decisions| == |b.decisions| + 1)
    && (r.Failed? && r.cause != Broken ==> after.counters == b.counters && after.exposures == b.exposures)
    && (after.exposures == b.exposures || exists x :: after.exposures == b.exposures + [x])
  }

  lemma RefusalAccounted(b: Books, q: Request, setup: Setup, env: Env, d: Decision, cause: Cause)
    requires DecisionFits(d, q, setup, env, Failed(cause))
    ensures var (r, after) := Refuse(b, setup, env, d, cause);
            Accounted(b, q, setup, env, r, after)
  {}

  /** The call has eligible creatives to choose from. */
  ghost predicate Choosing(q: Request, env: Env, eligible: seq<Creative>) {
    && (q.source == "" ==> env.source.Found?) && env.creatives.Found? && eligible != []
    && Eligible(env.creatives.value, env.targeting) == Some(eligible)
  }

  lemma ConclusionAccounted(
    b: Books, counted: Books, q: Request, eligible: seq<Creative>, c: Creative, setup: Setup, env: Env)
    requires counted == b.(counters := counted.counters) && Choosing(q, env, eligible) && c in env.creatives.value
    requires setup.exposures && setup.window > 0 ==> env.seenAt.Some?
    ensures var (r, after) := Conclude(counted, q, SourceOf(q, env), c, setup, env);
            Accounted(b, q, setup, env, r, after)
  {
    hide Eligible;
    var told := Decision(q.trigger, q.subscription, SourceOf(q, env), c.campaign, c.id, Selected, ShownReason);
    var failed := told.(result := Errored, reason := ExposureRecordFailed);
    assert setup.exposures && env.expose != Answered ==> DecisionFits(failed, q, setup, env, Failed(Broken));
    assert DecisionFits(told, q, setup, env, Shown(PayloadOf(q, SourceOf(q, env), c, env)));
  }

  lemma ChoiceAccounted(b: Books, q: Request, eligible: seq<Creative>, d: Decision, setup: Setup, env: Env)
    requires Choosing(q, env, eligible) && d.trigger == q.trigger && d.subscription == q.subscription
    requires d.creative == "" && d.source == SourceOf(q, env)
    requires exists c :: c in env.creatives.value && d.campaign == c.campaign
    ensures var (r, after) := Choose(b, q, SourceOf(q, env), eligible, d, setup, env);
            Accounted(b, q, setup, env, r, after)
  {
    hide FirstAllowed, Conclude, AllowNth, Rotated, Seen, Eligible;
    EligibleMeaning(env.creatives.value, env.targeting);
    var list := Ordering(b, q, eligible, setup, env);
    if list.None? {
      RefusalAccounted(b, q, setup, env, d.(result := Errored, reason := ExposureLookupFailed), Broken);
    } else {
      FirstAllowedMeaning(b.counters, q.subscription, list.value, 0, setup, env);
      var (choice, counters) := FirstAllowed(b.counters, q.subscription, list.value, 0, setup, env);
      var counted := b.(counters := counters);
      match choice
      case CapBroken =>
        RefusalAccounted(counted, q, setup, env, d.(result := Errored, reason := CapCheckFailed), Broken);
      case NoneAllowed =>
        RefusalAccounted(counted, q, setup, env, d.(result := Suppressed, reason := CapsExceeded), Held);
      case Chosen(i) =>
        OrderedCreatives(b, q, eligible, setup, env);
        assert list.value[i] in list.value;
        ConclusionAccounted(b, counted, q, eligible, list.value[i], setup, env);
    }
  }

  /** What is tried is eligible. */
  lemma OrderedCreatives(b: Books, q: Request, eligible: seq<Creative>, setup: Setup, env: Env)
    requires eligible != []
    ensures Ordering(b, q, eligible, setup, env).Some? ==>
              forall c :: c in Ordering(b, q, eligible, setup, env).value ==> c in eligible
  {
    hide Rotated, Seen;
    if env.seenAt.Some? {
      RotatedMeaning(eligible, Seen(b, q.subscription, eligible[0].campaign, env.seenAt.value - setup.window));
    }
  }

  /** The books of one call: at most one decision, which fits the outcome and says why, and exactly one
      when the record succeeds; suppressed and unknown calls touch neither counters nor exposures; a
      broken one may leave one exposure. */
  lemma PayloadAccounting(b: Books, q: Request, setup: Setup, env: Env)
    ensures var (r, after) := PayloadSpec(b, q, setup, env);
            Accounted(b, q, setup, env, r, after)
  {
    hide Eligible, Choose, PayloadOf;
    var d := Decision(q.trigger, q.subscription, SourceOf(q, env), q.campaign, "", Errored, SourceLookupFailed);
    if q.source == "" && !env.source.Found? {
      if env.source.Missing? {
        RefusalAccounted(b, q, setup, env, d.(result := NotFound), Unknown);
      } else {
        RefusalAccounted(b, q, setup, env, d, Broken);
      }
    } else if setup.creatives {
      if !env.creatives.Found? || env.creatives.value == [] {
        if env.creatives.Unreadable? {
          RefusalAccounted(b, q, setup, env, d.(reason := CreativeLookupFailed), Broken);
        } else {
          RefusalAccounted(b, q, setup, env, d.(result := NotFound, reason := NoActiveCreative), Unknown);
        }
      } else {
        var placed := d.(campaign := env.creatives.value[0].campaign);
        assert env.creatives.value[0] in env.creatives.value;
        var eligible := Eligible(env.creatives.value, env.targeting);
        if eligible.None? {
          RefusalAccounted(b, q, setup, env, placed.(reason := TargetingLookupFailed), Broken);
        } else if eligible.value == [] {
          RefusalAccounted(b, q, setup, env, placed.(result := Suppressed, reason := TargetingMismatch), Held);
        } else {
          ChoiceAccounted(b, q, eligible.value, placed, setup, env);
        }
      }
    }
  }

  /** An exposure comes from a creative of the list that was tried, whatever the caller is told. */
  lemma ExposureMeaning(b: Books, q: Request, setup: Setup, env: Env) returns (list: seq<Creative>, i: nat)
    requires setup.creatives && PayloadSpec(b, q, setup, env).1.exposures != b.exposures
    ensures var (r, after) := PayloadSpec(b, q, setup, env);
            && setup.exposures && env.expose != NotSent
            && Tried(b, q, setup, env, list) && i < |list|
            && FirstAllowed(b.counters, q.subscription, list, 0, setup, env).0 == Chosen(i)
            && after.exposures == b.exposures +
                 [Exposure(q.subscription, SourceOf(q, env), list[i].campaign, list[i].id, env.exposeAt)]
            && (r.Shown? ==> r.payload.creative == list[i].id)
            && (r.Shown? <==> env.expose == Answered && (setup.decisions ==> env.decide == Answered))
  {
    hide Eligible, Ordering, AllowNth, FirstAllowed;
    var eligible := Eligible(env.creatives.value, env.targeting).value;
    list := Ordering(b, q, eligible, setup, env).value;
    i := FirstAllowed(b.counters, q.subscription, list, 0, setup, env).0.index;
  }

  /** An exposure without a payload: exactly when its own record is unheard of, or when the
      record of the decision fails after it. */
  lemma OrphanExactlyWhen(b: Books, q: Request, setup: Setup, env: Env)
    requires setup.creatives
    ensures var (r, after) := PayloadSpec(b, q, setup, env);
            after.exposures != b.exposures && r.Failed? <==>
            && setup.exposures
            && (exists list :: Tried(b, q, setup, env, list) &&
                               FirstAllowed(b.counters, q.subscription, list, 0, setup, env).0.Chosen?)
            && (env.expose == AnswerLost ||
                (env.expose == Answered && setup.decisions && env.decide != Answered))
  {
    hide Eligible, Ordering, AllowNth, FirstAllowed, PayloadOf;
    if PayloadSpec(b, q, setup, env).1.exposures != b.exposures {
      var list, i := ExposureMeaning(b, q, setup, env);
      assert Tried(b, q, setup, env, list);
    }
    if list :| Tried(b, q, setup, env, list) &&
               FirstAllowed(b.counters, q.subscription, list, 0, setup, env).0.Chosen? {
      var i := FirstAllowed(b.counters, q.subscription, list, 0, setup, env).0.index;
      assert setup.exposures && env.expose != NotSent ==> PayloadSpec(b, q, setup, env).1.exposures != b.exposures;
    }
  }

  /** Without a creative store the stored payload is shown for this trigger, delivery and subscription,
      and no books are kept. */
  lemma StoredMeaning(b: Books, q: Request, setup: Setup, env: Env)
    requires !setup.creatives && (q.source == "" ==> env.source.Found?)
    ensures var (r, after) := PayloadSpec(b, q, setup, env);
            && after == b
            && (env.stored.None? ==> r == Failed(Broken))
            && (env.stored.Some? ==>
                  r == Shown(env.stored.value.(trigger := q.trigger, delivery := q.delivery,
                                               subscription := q.subscription, source := SourceOf(q, env),
                                               clickUrl := env.click(q.delivery, env.stored.value.url))))
  {}
}
