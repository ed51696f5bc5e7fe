/** Choosing the creative that a push shows: packages/go/subscribers/service.go:697-1088. */
module Payload {
  import opened Wrappers
  import opened Sorting
  import Caps
  import Targeting
  import Text

  const MILLISECOND := 1_000_000

  datatype Creative = Creative(
    id: string,
    campaign: string,
    rules: Targeting.Rules,
    campaignDaily: int,
    campaignTotal: int,
    daily: int,
    total: int,
    title: string,
    body: string,
    icon: string,
    url: string)

  datatype Exposure = Exposure(subscription: string, source: string, campaign: string, creative: string, at: int)

  datatype Result = Selected | Suppressed | NotFound | Errored

  datatype Reason =
    | ShownReason
    | NoActiveCreative
    | CapsExceeded
    | SourceLookupFailed
    | CreativeLookupFailed
    | ExposureLookupFailed
    | CapCheckFailed
    | ExposureRecordFailed
    | TargetingLookupFailed
    | TargetingMismatch

  datatype Decision = Decision(
    trigger: string,
    subscription: string,
    source: string,
    campaign: string,
    creative: string,
    result: Result,
    reason: Reason)

  datatype PushPayload = PushPayload(
    title: string,
    body: string,
    icon: string,
    url: string,
    clickUrl: string,
    trigger: string,
    delivery: string,
    subscription: string,
    source: string,
    campaign: string,
    creative: string)

  /** The error classes a caller can tell apart. */
  datatype Cause = InvalidInput | Unknown | Held | Broken

  datatype Outcome = Shown(payload: PushPayload) | Failed(cause: Cause)

  datatype Request = Request(trigger: string, delivery: string, subscription: string, source: string, campaign: string)

  /** Which stores are configured; a window that is not positive switches rotation off. */
  datatype Setup = Setup(creatives: bool, caps: bool, exposures: bool, decisions: bool, window: int)

  datatype Lookup<T> = Found(value: T) | Missing | Unreadable

  /** What the stores answer in one call, when, and what becomes of the writes. */
  datatype Env = Env(
    source: Lookup<string>,
    stored: Option<PushPayload>,
    creatives: Lookup<seq<Creative>>,
    targeting: Option<Targeting.Snapshot>,
    seenAt: Option<int>,
    capAt: nat -> int,
    capFaults: nat -> Caps.Faults,
    exposeAt: int,
    expose: Reply,
    decide: Reply,
    click: (string, string) -> string)

  datatype Books = Books(counters: Caps.Store, exposures: seq<Exposure>, decisions: seq<Decision>)

  // ----- the steps of one call -----

  predicate HasRules(c: Creative) {
    || c.rules.countries != [] || c.rules.languages != [] || c.rules.deviceTypes != []
    || c.rules.osNames != [] || c.rules.browserNames != []
  }

  predicate Matches(s: Targeting.Snapshot, c: Creative) {
    Targeting.MatchesTargeting(s, c.rules)
  }

  /** filterCreativesByTargeting: None when the subscriber's attributes are needed and unreadable. */
  function Eligible(creatives: seq<Creative>, targeting: Option<Targeting.Snapshot>): Option<seq<Creative>> {
    if forall i :: 0 <= i < |creatives| ==> !HasRules(creatives[i]) then Some(creatives)
    else if targeting.None? then None
    else Some(Filter(creatives, (c: Creative) => Matches(targeting.value, c)))
  }

  /** SeenCreativeIDsSince compares instants cut to milliseconds. */
  predicate SeenIn(exposures: seq<Exposure>, subscription: string, campaign: string, since: int, creative: string) {
    exists i :: 0 <= i < |exposures| && Counted(exposures[i], subscription, campaign, since) &&
                exposures[i].creative == creative
  }

  predicate Counted(x: Exposure, subscription: string, campaign: string, since: int) {
    x.subscription == subscription && x.campaign == campaign && x.at / MILLISECOND >= since / MILLISECOND
  }

  /** orderCreativesByExposure, once the seen creatives are known. */
  function Rotated(creatives: seq<Creative>, seen: Creative -> bool): (r: seq<Creative>)
    ensures creatives != [] ==> r != []
  {
    var unseen := Filter(creatives, (c: Creative) => !seen(c));
    if unseen == [] then creatives else unseen
  }

  function Seen(b: Books, subscription: string, campaign: string, since: int): Creative -> bool {
    (c: Creative) => SeenIn(b.exposures, subscription, campaign, since, c.id)
  }

  function Ordering(b: Books, q: Request, eligible: seq<Creative>, setup: Setup, env: Env): Option<seq<Creative>>
    requires eligible != []
  {
    if !setup.exposures || setup.window <= 0 then Some(eligible)
    else if env.seenAt.None? then None
    else Some(Rotated(eligible, Seen(b, q.subscription, eligible[0].campaign, env.seenAt.value - setup.window)))
  }

  function CapInput(subscription: string, c: Creative): Caps.CapCheckInput {
    Caps.CapCheckInput(subscription, c.campaign, c.id, c.campaignDaily, c.campaignTotal, c.daily, c.total)
  }

  function AllowNth(counters: Caps.Store, subscription: string, c: Creative, i: nat, setup: Setup, env: Env):
    (Caps.Verdict, Caps.Store)
  {
    if !setup.caps then (Caps.Allowed, counters)
    else Caps.AllowSpec(counters, CapInput(subscription, c), env.capAt(i), env.capFaults(i))
  }

  datatype Choice = Chosen(index: nat) | NoneAllowed | CapBroken

  /** firstAllowedCreative, from position `i` on. */
  function FirstAllowed(
    counters: Caps.Store, subscription: string, list: seq<Creative>, i: nat, setup: Setup, env: Env):
    (r: (Choice, Caps.Store))
    requires i <= |list|
    ensures r.0.Chosen? ==> i <= r.0.index < |list|
    decreases |list| - i
  {
    if i == |list| then (NoneAllowed, counters)
    else
      var (v, after) := AllowNth(counters, subscription, list[i], i, setup, env);
      match v
      case Allowed => (Chosen(i), after)
      case Failed => (CapBroken, after)
      case Refused => FirstAllowed(after, subscription, list, i + 1, setup, env)
  }

  /** recordPayloadDecision for a decision that carries the error `cause`. */
  function Refuse(b: Books, setup: Setup, env: Env, d: Decision, cause: Cause): (Outcome, Books) {
    (Failed(cause), Decided(b, setup, env, d))
  }

  function Decided(b: Books, setup: Setup, env: Env, d: Decision): Books {
    if !setup.decisions || env.decide == NotSent then b else b.(decisions := b.decisions + [d])
  }

  function Exposed(b: Books, setup: Setup, env: Env, x: Exposure): Books {
    if !setup.exposures || env.expose == NotSent then b else b.(exposures := b.exposures + [x])
  }

  function PayloadOf(q: Request, source: string, c: Creative, env: Env): PushPayload {
    PushPayload(c.title, c.body, c.icon, c.url, env.click(q.delivery, c.url),
                q.trigger, q.delivery, q.subscription, source, c.campaign, c.id)
  }

  /** From the selected creative on: exposure record, decision record, payload. */
  function Conclude(b: Books, q: Request, source: string, c: Creative, setup: Setup, env: Env): (Outcome, Books) {
    var exposed := Exposed(b, setup, env, Exposure(q.subscription, source, c.campaign, c.id, env.exposeAt));
    if setup.exposures && env.expose != Answered then
      Refuse(exposed, setup, env,
             Decision(q.trigger, q.subscription, source, c.campaign, c.id, Errored, ExposureRecordFailed), Broken)
    else
      var done := Decided(exposed, setup, env,
                          Decision(q.trigger, q.subscription, source, c.campaign, c.id, Selected, ShownReason));
      if setup.decisions && env.decide != Answered then (Failed(Broken), done)
      else (Shown(PayloadOf(q, source, c, env)), done)
  }

  /** From the eligible creatives on. */
  function Choose(b: Books, q: Request, source: string, eligible: seq<Creative>, d: Decision, setup: Setup, env: Env):
    (Outcome, Books)
    requires eligible != []
  {
    var list := Ordering(b, q, eligible, setup, env);
    if list.None? then Refuse(b, setup, env, d.(result := Errored, reason := ExposureLookupFailed), Broken)
    else
      var (choice, counters) := FirstAllowed(b.counters, q.subscription, list.value, 0, setup, env);
      var counted := b.(counters := counters);
      match choice
      case CapBroken => Refuse(counted, setup, env, d.(result := Errored, reason := CapCheckFailed), Broken)
      case NoneAllowed => Refuse(counted, setup, env, d.(result := Suppressed, reason := CapsExceeded), Held)
      case Chosen(i) => Conclude(counted, q, source, list.value[i], setup, env)
  }

  /** pushPayloadForContext. */
  function PayloadSpec(b: Books, q: Request, setup: Setup, env: Env): (Outcome, Books) {
    var d := Decision(q.trigger, q.subscription, q.source, q.campaign, "", Errored, SourceLookupFailed);
    if q.source == "" && !env.source.Found? then
      if env.source.Missing? then Refuse(b, setup, env, d.(result := NotFound), Unknown)
      else Refuse(b, setup, env, d, Broken)
    else
      var source := if q.source == "" then env.source.value else q.source;
      var known := d.(source := source);
      if !setup.creatives then
        if env.stored.None? then (Failed(Broken), b)
        else (Shown(env.stored.value.(trigger := q.trigger, delivery := q.delivery, subscription := q.subscription,
                                      source := source, clickUrl := env.click(q.delivery, env.stored.value.url))), b)
      else
        match env.creatives
        case Missing => Refuse(b, setup, env, known.(result := NotFound, reason := NoActiveCreative), Unknown)
        case Unreadable => Refuse(b, setup, env, known.(reason := CreativeLookupFailed), Broken)
        case Found(creatives) =>
          if creatives == [] then
            Refuse(b, setup, env, known.(result := NotFound, reason := NoActiveCreative), Unknown)
          else
            var placed := known.(campaign := creatives[0].campaign);
            var eligible := Eligible(creatives, env.targeting);
            if eligible.None? then Refuse(b, setup, env, placed.(reason := TargetingLookupFailed), Broken)
            else if eligible.value == [] then
              Refuse(b, setup, env, placed.(result := Suppressed, reason := TargetingMismatch), Held)
            else Choose(b, q, source, eligible.value, placed, setup, env)
  }

  // ----- the service -----

  class Service {
    const setup: Setup
    const caps: Caps.CapStore
    var exposures: seq<Exposure>
    var decisions: seq<Decision>

    constructor (setup: Setup, caps: Caps.CapStore)
      ensures this.setup == setup && this.caps == caps && exposures == [] && decisions == []
    {
      this.setup, this.caps, exposures, decisions := setup, caps, [], [];
    }

    ghost function Kept(): Books
      reads this, caps
    {
      Books(caps.store, exposures, decisions)
    }

    /** filterCreativesByTargeting. */
    method FilterCreativesByTargeting(creatives: seq<Creative>, targeting: Option<Targeting.Snapshot>)
      returns (filtered: Option<seq<Creative>>)
      ensures filtered == Eligible(creatives, targeting)
    {
      hide Targeting.MatchesTargeting;
      var ruled := false;
      for i := 0 to |creatives|
        invariant ruled <==> exists j :: 0 <= j < i && HasRules(creatives[j])
      {
        ruled := ruled || HasRules(creatives[i]);
      }
      if !ruled { return Some(creatives); }
      if targeting.None? { return None; }
      var kept := [];
      ghost var keep := (c: Creative) => Matches(targeting.value, c);
      for i := 0 to |creatives|
        invariant kept == Filter(creatives[..i], keep)
      {
        assert creatives[..i + 1][..i] == creatives[..i];
        if Matches(targeting.value, creatives[i]) { kept := kept + [creatives[i]]; }
      }
      assert creatives[..|creatives|] == creatives;
      filtered := Some(kept);
    }

    /** orderCreativesByExposure. */
    method OrderCreativesByExposure(q: Request, creatives: seq<Creative>, env: Env)
      returns (ordered: Option<seq<Creative>>)
      requires creatives != []
      ensures ordered == Ordering(Kept(), q, creatives, setup, env)
    {
      if !setup.exposures || setup.window <= 0 { return Some(creatives); }
      if env.seenAt.None? { return None; }
      var since := env.seenAt.value - setup.window;
      ghost var seen := Seen(Kept(), q.subscription, creatives[0].campaign, since);
      ghost var keep := (c: Creative) => !seen(c);
      var unseen := [];
      for i := 0 to |creatives|
        invariant unseen == Filter(creatives[..i], keep)
      {
        assert creatives[..i + 1][..i] == creatives[..i];
        if SeenIn(exposures, q.subscription, creatives[0].campaign, since, creatives[i].id) { continue; }
        unseen := unseen + [creatives[i]];
      }
      assert creatives[..|creatives|] == creatives;
      if unseen == [] { return Some(creatives); }
      ordered := Some(unseen);
    }

    /** firstAllowedCreative, with creativeAllowed. */
    method FirstAllowedCreative(subscription: string, creatives: seq<Creative>, env: Env) returns (choice: Choice)
      modifies caps
      ensures (choice, caps.store) == FirstAllowed(old(caps.store), subscription, creatives, 0, setup, env)
    {
      for i := 0 to |creatives|
        invariant FirstAllowed(old(caps.store), subscription, creatives, 0, setup, env) ==
                  FirstAllowed(caps.store, subscription, creatives, i, setup, env)
      {
        var v := Caps.Allowed;
        if setup.caps { v := caps.Allow(CapInput(subscription, creatives[i]), env.capAt(i), env.capFaults(i)); }
        if v == Caps.Failed { return CapBroken; }
        if v == Caps.Allowed { return Chosen(i); }
      }
      choice := NoneAllowed;
    }

    method RecordCreativeExposure(x: Exposure, env: Env) returns (ok: bool)
      modifies this`exposures
      ensures Kept() == Exposed(old(Kept()), setup, env, x)
      ensures ok <==> !setup.exposures || env.expose == Answered
    {
      if !setup.exposures { return true; }
      if env.expose != NotSent { exposures := exposures + [x]; }
      ok := env.expose == Answered;
    }

    /** recordPayloadDecision: the answer says whether the record itself succeeded. */
    method RecordPayloadDecision(d: Decision, env: Env) returns (ok: bool)
      modifies this`decisions
      ensures Kept() == Decided(old(Kept()), setup, env, d)
      ensures ok <==> !setup.decisions || env.decide == Answered
    {
      if !setup.decisions { return true; }
      if env.decide != NotSent { decisions := decisions + [d]; }
      ok := env.decide == Answered;
    }

    /** pushPayloadForContext. */
    method PushPayloadForContext(q: Request, env: Env) returns (r: Outcome)
      modifies this, caps
      ensures (r, Kept()) == PayloadSpec(old(Kept()), q, setup, env)
    {
      hide Caps.AllowSpec, FirstAllowed, Eligible, Ordering;
      var d := Decision(q.trigger, q.subscription, q.source, q.campaign, "", Errored, SourceLookupFailed);
      var source := q.source;
      if source == "" {
        if !env.source.Found? {
          var missing := env.source.Missing?;
          var _ := RecordPayloadDecision(if missing then d.(result := NotFound) else d, env);
          return Failed(if missing then Unknown else Broken);
        }
        source := env.source.value;
        d := d.(source := source);
      }
      if !setup.creatives {
        if env.stored.None? { return Failed(Broken); }
        var p := env.stored.value;
        return Shown(p.(trigger := q.trigger, delivery := q.delivery, subscription := q.subscription,
                        source := source, clickUrl := env.click(q.delivery, p.url)));
      }
      if env.creatives.Unreadable? {
        var _ := RecordPayloadDecision(d.(reason := CreativeLookupFailed), env);
        return Failed(Broken);
      }
      if env.creatives.Missing? || env.creatives.value == [] {
        var _ := RecordPayloadDecision(d.(result := NotFound, reason := NoActiveCreative), env);
        return Failed(Unknown);
      }
      r := ChooseCreative(q, source, env.creatives.value, d.(campaign := env.creatives.value[0].campaign), env);
    }

    /** pushPayloadForContext, from the targeting filter on. */
    method ChooseCreative(q: Request, source: string, creatives: seq<Creative>, d: Decision, env: Env)
      returns (r: Outcome)
      requires creatives != [] && d.result == Errored
      modifies this, caps
      ensures var eligible := Eligible(creatives, env.targeting);
              (r, Kept()) ==
              if eligible.None? then
                Refuse(old(Kept()), setup, env, d.(reason := TargetingLookupFailed), Broken)
              else if eligible.value == [] then
                Refuse(old(Kept()), setup, env, d.(result := Suppressed, reason := TargetingMismatch), Held)
              else Choose(old(Kept()), q, source, eligible.value, d, setup, env)
    {
      hide Caps.AllowSpec, FirstAllowed, Eligible, Ordering;
      var filtered := FilterCreativesByTargeting(creatives, env.targeting);
      if filtered.None? {
        var _ := RecordPayloadDecision(d.(reason := TargetingLookupFailed), env);
        return Failed(Broken);
      }
      if filtered.value == [] {
        var _ := RecordPayloadDecision(d.(result := Suppressed, reason := TargetingMismatch), env);
        return Failed(Held);
      }
      var ordered := OrderCreativesByExposure(q, filtered.value, env);
      if ordered.None? {
        var _ := RecordPayloadDecision(d.(reason := ExposureLookupFailed), env);
        return Failed(Broken);
      }
      var choice := FirstAllowedCreative(q.subscription, ordered.value, env);
      if choice == CapBroken {
        var _ := RecordPayloadDecision(d.(reason := CapCheckFailed), env);
        return Failed(Broken);
      }
      if choice == NoneAllowed {
        var _ := RecordPayloadDecision(d.(result := Suppressed, reason := CapsExceeded), env);
        return Failed(Held);
      }
      var c := ordered.value[choice.index];
      var told := Decision(q.trigger, q.subscription, source, c.campaign, c.id, Selected, ShownReason);
      var ok := RecordCreativeExposure(Exposure(q.subscription, source, c.campaign, c.id, env.exposeAt), env);
      if !ok {
        var _ := RecordPayloadDecision(told.(result := Errored, reason := ExposureRecordFailed), env);
        return Failed(Broken);
      }
      ok := RecordPayloadDecision(told, env);
      if !ok { return Failed(Broken); }
      r := Shown(PayloadOf(q, source, c, env));
    }

    /** PushPayload: a trigger that cannot be found is taken for a subscription id. */
    method PushPayload(triggerId: string, trigger: Lookup<Request>, env: Env) returns (r: Outcome)
      modifies this, caps
      ensures var id := Text.Trim(triggerId);
              (r, Kept()) ==
              if id == "" then (Failed(InvalidInput), old(Kept()))
              else match trigger
                   case Found(q) => PayloadSpec(old(Kept()), q.(trigger := id), setup, env)
                   case Missing => PayloadSpec(old(Kept()), Request(id, "", id, "", ""), setup, env)
                   case Unreadable => (Failed(Broken), old(Kept()))
    {
      hide PayloadSpec;
      var id := Text.Trim(triggerId);
      if id == "" { return Failed(InvalidInput); }
      match trigger
      case Found(q) => r := PushPayloadForContext(q.(trigger := id), env);
      case Missing => r := PushPayloadForContext(Request(id, "", id, "", ""), env);
      case Unreadable => return Failed(Broken);
    }
  }
}
