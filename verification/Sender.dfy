/** One delivery attempt: packages/go/sender/service.go:124-310, 360-373. */
module Sender {
  import opened Wrappers
  import opened Enqueue
  import Text

  datatype Topic = DeliveryTasks | Retry1m | Retry10m | Retry1h | DLQ

  datatype EventKind =
    | Consumed
    | TriggerCreated
    | Sent
    | SendFailed
    | InvalidEndpoint
    | RetryEnqueued
    | DLQEnqueued

  datatype Event = Event(delivery: string, kind: EventKind, attempt: int)

  datatype Queued = Queued(topic: Topic, task: DeliveryTask)

  datatype Response = Response(status: int, closes: bool)

  /** What SendTrigger returns: a response or none, and an error or none. */
  datatype Push = Push(response: Option<Response>, error: bool)

  /** What the stores and the push service do during one call; `record(n)` says whether the
      n-th event write of the call succeeds. */
  datatype Env = Env(
    record: nat -> bool,
    key: bool,
    trigger: bool,
    throttle: bool,
    push: Push,
    produce: Reply)

  predicate ValidTask(t: DeliveryTask) {
    && Text.Trim(t.launch) != "" && Text.Trim(t.delivery) != "" && Text.Trim(t.campaign) != ""
    && Text.Trim(t.source) != "" && Text.Trim(t.subscription) != "" && Text.Trim(t.endpoint) != ""
    && Text.Trim(t.p256dh) != "" && Text.Trim(t.auth) != ""
  }

  function RetryTopic(attempt: int): Topic {
    if attempt == 1 then Retry1m else if attempt == 2 then Retry10m else Retry1h
  }

  predicate GoneEndpoint(status: int) {
    status == 410 || status == 404
  }

  // ----- what an attempt amounts to -----

  /** The decision an attempt comes to once its events can be written. */
  datatype Verdict = Delivered | Gone | Retryable | Dropped

  function AfterPush(p: Push): Verdict {
    if p.response.Some? && !p.response.value.closes then Dropped
    else if p.error || p.response.None? then Retryable
    else if GoneEndpoint(p.response.value.status) then Gone
    else if p.response.value.status >= 400 then Retryable
    else Delivered
  }

  /** Events, queue entries and the returned error of one call, and whether a push was sent. */
  datatype Outcome = Outcome(events: seq<Event>, queued: seq<Queued>, ok: bool, pushed: bool)

  function Ev(t: DeliveryTask, kind: EventKind): Event {
    Event(t.delivery, kind, t.attempt)
  }

  /** The task as it is queued again. */
  function Requeued(t: DeliveryTask, max: int): Queued {
    var next := t.(attempt := t.attempt + 1);
    Queued(if next.attempt >= max then DLQ else RetryTopic(next.attempt), next)
  }

  /** A failed attempt after `n` event writes of the call. */
  function FailOutcome(t: DeliveryTask, max: int, n: nat, env: Env): (o: Outcome)
    ensures !o.pushed
  {
    if !env.record(n) then Outcome([], [], false, false)
    else
      var q := Requeued(t, max);
      var told := if q.topic == DLQ then Ev(q.task, DLQEnqueued) else Ev(q.task, RetryEnqueued);
      var failed := [Ev(t, SendFailed)];
      match env.produce
      case NotSent => Outcome(failed, [], false, false)
      case AnswerLost => Outcome(failed, [q], false, false)
      case Answered =>
        if env.record(n + 1) then Outcome(failed + [told], [q], true, false)
        else Outcome(failed, [q], false, false)
  }

  function Process(t: DeliveryTask, max: int, env: Env): Outcome {
    if !ValidTask(t) || !env.record(0) then Outcome([], [], false, false)
    else if !env.key || !env.trigger then
      var o := FailOutcome(t, max, 1, env);
      o.(events := [Ev(t, Consumed)] + o.events)
    else if !env.record(1) then Outcome([Ev(t, Consumed)], [], false, false)
    else
      var started := [Ev(t, Consumed), Ev(t, TriggerCreated)];
      if !env.throttle then
        var o := FailOutcome(t, max, 2, env);
        o.(events := started + o.events)
      else
        match AfterPush(env.push)
        case Dropped => Outcome(started, [], false, true)
        case Retryable =>
          var o := FailOutcome(t, max, 2, env);
          o.(events := started + o.events, pushed := true)
        case Gone =>
          if env.record(2) then Outcome(started + [Ev(t, InvalidEndpoint)], [], true, true)
          else Outcome(started, [], false, true)
        case Delivered =>
          if env.record(2) then Outcome(started + [Ev(t, Sent)], [], true, true)
          else Outcome(started, [], false, true)
  }

  // ----- the service -----

  class Service {
    const maxAttempts: int
    var events: seq<Event>
    var queue: seq<Queued>
    /** The deliveries for which SendTrigger was called. */
    ghost var pushes: seq<string>

    /** NewService: zero attempts mean three. */
    constructor (maxAttempts: int)
      ensures this.maxAttempts == if maxAttempts == 0 then 3 else maxAttempts
      ensures events == [] && queue == [] && pushes == []
    {
      this.maxAttempts := if maxAttempts == 0 then 3 else maxAttempts;
      events, queue, pushes := [], [], [];
    }

    method Record(t: DeliveryTask, kind: EventKind, accepted: bool) returns (ok: bool)
      modifies this`events
      ensures ok == accepted
      ensures events == old(events) + if accepted then [Ev(t, kind)] else []
    {
      if accepted { events := events + [Ev(t, kind)]; }
      ok := accepted;
    }

    method Produce(topic: Topic, t: DeliveryTask, reply: Reply) returns (ok: bool)
      modifies this`queue
      ensures ok <==> reply == Answered
      ensures queue == old(queue) + if reply == NotSent then [] else [Queued(topic, t)]
    {
      if reply != NotSent { queue := queue + [Queued(topic, t)]; }
      ok := reply == Answered;
    }

    /** fail: record the failure, then retry or give up. */
    method Fail(t: DeliveryTask, n: nat, env: Env) returns (ok: bool)
      modifies this`events, this`queue
      ensures var o := FailOutcome(t, maxAttempts, n, env);
              ok == o.ok && events == old(events) + o.events && queue == old(queue) + o.queued
    {
      var task := t;
      var recorded := Record(task, SendFailed, env.record(n));
      if !recorded { return false; }
      if task.attempt + 1 >= maxAttempts {
        task := task.(attempt := task.attempt + 1);
        var produced := Produce(DLQ, task, env.produce);
        if !produced { return false; }
        ok := Record(task, DLQEnqueued, env.record(n + 1));
        return ok;
      }
      task := task.(attempt := task.attempt + 1);
      var produced := Produce(RetryTopic(task.attempt), task, env.produce);
      if !produced { return false; }
      ok := Record(task, RetryEnqueued, env.record(n + 1));
    }

    method ProcessTask(t: DeliveryTask, env: Env) returns (ok: bool)
      modifies this`events, this`queue, this`pushes
      ensures var o := Process(t, maxAttempts, env);
              && ok == o.ok && events == old(events) + o.events && queue == old(queue) + o.queued
              && pushes == old(pushes) + if o.pushed then [t.delivery] else []
    {
      hide ValidTask, FailOutcome;
      if !ValidTask(t) { return false; }
      var recorded := Record(t, Consumed, env.record(0));
      if !recorded { return false; }
      if !env.key {
        ok := Fail(t, 1, env);
        return ok;
      }
      if !env.trigger {
        ok := Fail(t, 1, env);
        return ok;
      }
      recorded := Record(t, TriggerCreated, env.record(1));
      if !recorded { return false; }
      if !env.throttle {
        ok := Fail(t, 2, env);
        return ok;
      }
      var response, error := env.push.response, env.push.error;
      pushes := pushes + [t.delivery];
      if response.Some? && !response.value.closes { return false; }
      if error {
        ok := Fail(t, 2, env);
        return ok;
      }
      if response.None? {
        ok := Fail(t, 2, env);
        return ok;
      }
      if GoneEndpoint(response.value.status) {
        ok := Record(t, InvalidEndpoint, env.record(2));
        return ok;
      }
      if response.value.status >= 400 {
        ok := Fail(t, 2, env);
        return ok;
      }
      ok := Record(t, Sent, env.record(2));
    }
  }

  // ----- properties of one attempt -----

  /** Event writes, produces and body closes succeed. */
  ghost predicate Smooth(env: Env) {
    && (forall n :: env.record(n))
    && env.produce == Answered
    && (env.push.response.Some? ==> env.push.response.value.closes)
  }

  /** Whatever fails, one call queues its task at most once, one attempt later, in the retry
      topic of that attempt or in the DLQ; and it never also reports an end. */
  lemma AtMostOneEnqueue(t: DeliveryTask, max: int, env: Env)
    ensures var o := Process(t, max, env);
            && |o.queued| <= 1
            && (o.queued != [] ==>
                  && o.queued[0] == Requeued(t, max)
                  && (o.queued[0].topic == DLQ <==> t.attempt + 1 >= max)
                  && forall e :: e in o.events ==> e.kind != Sent && e.kind != InvalidEndpoint)
  {
    hide ValidTask;
  }

  lemma FailMeaning(t: DeliveryTask, max: int, n: nat, env: Env)
    ensures var o := FailOutcome(t, max, n, env);
            && |o.events| ==
               (if !env.record(n) then 0 else if env.produce == Answered && env.record(n + 1) then 2 else 1)
            && (o.events != [] ==> o.events[0].kind == SendFailed)
            && (|o.events| == 2 ==> o.events[1].kind in {RetryEnqueued, DLQEnqueued})
            && (o.ok <==> |o.events| == 2)
            && (o.queued != [] <==> env.record(n) && env.produce != NotSent)
  {}

  /** What any attempt leaves, whatever fails: its events are the writes that succeeded, in order, and it
      stops at the first that does not; it reports success exactly when it has told its end; a push
      goes out exactly when nothing failed before it; a task with a blank field is not touched. */
  lemma AttemptMeaning(t: DeliveryTask, max: int, env: Env)
    ensures var o := Process(t, max, env);
            var blank := HasBlank(t);
            && (forall j :: 0 <= j < |o.events| ==> env.record(j))
            && (o.ok <==> o.events != [] &&
                          o.events[|o.events| - 1].kind in {Sent, InvalidEndpoint, RetryEnqueued, DLQEnqueued})
            && (o.pushed <==> !blank && env.record(0) && env.record(1) && env.key && env.trigger && env.throttle)
            && (!o.ok ==> blank || !env.record(|o.events|) || (o.pushed && Unclosed(env)) || env.produce != Answered)
            && (blank ==> o == Outcome([], [], false, false))
            && (o.pushed && Unclosed(env) ==> !o.ok && o.queued == [] && |o.events| == 2)
            && (o.queued != [] <==> env.produce != NotSent && (FailedAt(o.events, 1) || FailedAt(o.events, 2)))
  {
    hide ValidTask, HasBlank, FailOutcome;
    ValidMeaning(t);
    FailMeaning(t, max, 1, env);
    FailMeaning(t, max, 2, env);
  }

  /** Its events are about this delivery, at this attempt or, once it is queued again, at the next. */
  lemma EventsMeaning(t: DeliveryTask, max: int, env: Env)
    ensures var events := Process(t, max, env).events;
            forall j :: 0 <= j < |events| ==>
              && events[j].delivery == t.delivery
              && events[j].attempt ==
                 t.attempt + if events[j].kind == RetryEnqueued || events[j].kind == DLQEnqueued then 1 else 0
  {
    hide ValidTask;
  }

  predicate HasBlank(t: DeliveryTask) {
    exists s :: s in {t.launch, t.delivery, t.campaign, t.source, t.subscription, t.endpoint, t.p256dh, t.auth} &&
                Text.Trim(s) == ""
  }

  lemma ValidMeaning(t: DeliveryTask)
    ensures ValidTask(t) <==> !HasBlank(t)
  {
    hide Text.Trim;
  }

  predicate FailedAt(events: seq<Event>, n: nat) {
    n < |events| && events[n].kind == SendFailed
  }

  /** There is a response whose body does not close. */
  predicate Unclosed(env: Env) {
    env.push.response.Some? && !env.push.response.value.closes
  }

  datatype Fate = FateSent | FateInvalid | FateDead | FateRetry | FateLost

  /** Where the attempt leaves its task. */
  function FateOf(t: DeliveryTask, max: int, env: Env): Fate {
    var o := Process(t, max, env);
    if o.queued != [] then (if o.queued[0].topic == DLQ then FateDead else FateRetry)
    else if o.events != [] && o.events[|o.events| - 1].kind == Sent then FateSent
    else if o.events != [] && o.events[|o.events| - 1].kind == InvalidEndpoint then FateInvalid
    else FateLost
  }

  /** The events of one smooth attempt. */
  ghost predicate AttemptTrace(events: seq<Event>, t: DeliveryTask, max: int, fate: Fate) {
    match fate
    case FateSent => events == [Ev(t, Consumed), Ev(t, TriggerCreated), Ev(t, Sent)]
    case FateInvalid => events == [Ev(t, Consumed), Ev(t, TriggerCreated), Ev(t, InvalidEndpoint)]
    case FateDead => FailedTrace(events, t, Ev(Requeued(t, max).task, DLQEnqueued))
    case FateRetry => FailedTrace(events, t, Ev(Requeued(t, max).task, RetryEnqueued))
    case FateLost => false
  }

  ghost predicate FailedTrace(events: seq<Event>, t: DeliveryTask, told: Event) {
    || events == [Ev(t, Consumed), Ev(t, SendFailed), told]
    || events == [Ev(t, Consumed), Ev(t, TriggerCreated), Ev(t, SendFailed), told]
  }

  lemma RequeuedValid(t: DeliveryTask, max: int)
    ensures ValidTask(Requeued(t, max).task) <==> ValidTask(t)
  {
    hide Text.Trim;
  }

  lemma SmoothFail(t: DeliveryTask, max: int, n: nat, env: Env)
    requires Smooth(env)
    ensures var o := FailOutcome(t, max, n, env);
            && o.queued == [Requeued(t, max)] && o.ok
            && o.events == [Ev(t, SendFailed),
                            Ev(Requeued(t, max).task, if t.attempt + 1 >= max then DLQEnqueued else RetryEnqueued)]
  {}

  /** A smooth attempt of a valid task ends in exactly one way and leaves the trace of that way. */
  lemma SmoothAttempt(t: DeliveryTask, max: int, env: Env)
    requires ValidTask(t) && Smooth(env)
    ensures AttemptTrace(Process(t, max, env).events, t, max, FateOf(t, max, env))
    ensures Process(t, max, env).ok
    ensures FateOf(t, max, env) == FateRetry ==> t.attempt + 1 < max
    ensures FateOf(t, max, env) == FateDead ==> t.attempt + 1 >= max
  {
    hide ValidTask, FailOutcome;
    assert env.record(0) && env.record(1) && env.record(2);
    SmoothFail(t, max, 1, env);
    SmoothFail(t, max, 2, env);
  }

  /** Which answer leads where.  A smooth attempt with a key, a trigger and leave from the throttle is
      sent on a response below 400, gives the endpoint up on 404 and 410, and fails on everything else;
      without one of the three it fails, too.  What fails is retried until the limit. */
  lemma SmoothFate(t: DeliveryTask, max: int, env: Env)
    requires ValidTask(t) && Smooth(env)
    ensures var ready := env.key && env.trigger && env.throttle;
            var answered := env.push.response.Some? && !env.push.error;
            var fate := FateOf(t, max, env);
            && (fate == FateSent <==>
                  ready && answered && env.push.response.value.status < 400)
            && (fate == FateInvalid <==>
                  ready && answered && env.push.response.value.status in {404, 410})
            && (fate !in {FateSent, FateInvalid} ==> fate == if t.attempt + 1 < max then FateRetry else FateDead)
            && (fate == FateRetry ==>
                  && Process(t, max, env).queued[0].task == t.(attempt := t.attempt + 1)
                  && Process(t, max, env).queued[0].topic ==
                     if t.attempt == 0 then Retry1m else if t.attempt == 1 then Retry10m else Retry1h)
  {
    hide ValidTask, FailOutcome;
    assert env.record(0) && env.record(1) && env.record(2);
    SmoothFail(t, max, 1, env);
    SmoothFail(t, max, 2, env);
  }

  // ----- the life of one task -----

  /** All events of a task from its `i`-th consumption on, the topics it is queued in, and its end. */
  datatype Life = Life(events: seq<Event>, visited: seq<Topic>, consumptions: nat, fate: Fate)

  function LifeOf(t: DeliveryTask, max: int, envs: nat -> Env, i: nat): Life
    decreases max - t.attempt
  {
    var o := Process(t, max, envs(i));
    var fate := FateOf(t, max, envs(i));
    if fate == FateRetry && t.attempt + 1 < max then
      var rest := LifeOf(Requeued(t, max).task, max, envs, i + 1);
      Life(o.events + rest.events, [Requeued(t, max).topic] + rest.visited, rest.consumptions + 1, rest.fate)
    else Life(o.events, if fate == FateDead then [DLQ] else [], 1, fate)
  }

  /** The event log of a whole life: one attempt after the other. */
  ghost predicate LifeTrace(events: seq<Event>, t: DeliveryTask, max: int, fate: Fate)
    decreases max - t.attempt
  {
    || (fate != FateRetry && AttemptTrace(events, t, max, fate))
    || (t.attempt + 1 < max &&
        exists n :: 0 <= n <= |events| && AttemptTrace(events[..n], t, max, FateRetry) &&
          LifeTrace(events[n..], Requeued(t, max).task, max, fate))
  }

  /** The attempt numbers of the consumed events, in order. */
  function ConsumedAttempts(events: seq<Event>): seq<int> {
    if events == [] then []
    else (if events[0].kind == Consumed then [events[0].attempt] else []) + ConsumedAttempts(events[1..])
  }

  lemma {:induction false} ConsumedAppend(a: seq<Event>, b: seq<Event>)
    ensures ConsumedAttempts(a + b) == ConsumedAttempts(a) + ConsumedAttempts(b)
  {
    if a == [] {
      assert a + b == b;
    } else {
      ConsumedAppend(a[1..], b);
      assert (a + b)[1..] == a[1..] + b;
      assert (a + b)[0] == a[0];
      var first := if a[0].kind == Consumed then [a[0].attempt] else [];
      assert first + (ConsumedAttempts(a[1..]) + ConsumedAttempts(b)) ==
             first + ConsumedAttempts(a[1..]) + ConsumedAttempts(b);
    }
  }

  lemma AttemptConsumesOnce(events: seq<Event>, t: DeliveryTask, max: int, fate: Fate)
    requires AttemptTrace(events, t, max, fate)
    ensures ConsumedAttempts(events) == [t.attempt]
  {
    assert events[0] == Ev(t, Consumed);
    var rest := events[1..];
    assert forall i :: 0 <= i < |rest| ==> rest[i].kind != Consumed;
    NothingConsumed(rest);
  }

  lemma {:induction false} NothingConsumed(events: seq<Event>)
    requires forall i :: 0 <= i < |events| ==> events[i].kind != Consumed
    ensures ConsumedAttempts(events) == []
  {
    if events == [] {
    } else {
      NothingConsumed(events[1..]);
    }
  }

  /** The retry topics of attempts `from .. from + n - 1`. */
  function RetryPath(from: int, n: nat): seq<Topic>
    decreases n
  {
    if n == 0 then [] else [RetryTopic(from)] + RetryPath(from + 1, n - 1)
  }

  /** The consumptions come at consecutive attempt numbers, at most up to the limit; the retry
      topics are visited in order; the end is sent, invalid or dead, and dead only when the
      attempts are used up. */
  ghost predicate LifeMeaning(l: Life, t: DeliveryTask, max: int) {
    && 1 <= l.consumptions <= max - t.attempt
    && ConsumedAttempts(l.events) == seq(l.consumptions, j => t.attempt + j)
    && LifeTrace(l.events, t, max, l.fate)
    && l.fate in {FateSent, FateInvalid, FateDead}
    && l.visited == RetryPath(t.attempt + 1, l.consumptions - 1) + (if l.fate == FateDead then [DLQ] else [])
    && (l.fate == FateDead ==> l.consumptions == max - t.attempt)
  }

  lemma LastAttempt(events: seq<Event>, t: DeliveryTask, max: int, fate: Fate)
    requires AttemptTrace(events, t, max, fate) && t.attempt < max && fate != FateRetry
    requires fate == FateDead ==> t.attempt + 1 >= max
    ensures LifeMeaning(Life(events, if fate == FateDead then [DLQ] else [], 1, fate), t, max)
  {
    AttemptConsumesOnce(events, t, max, fate);
    hide AttemptTrace;
  }

  lemma EarlierAttempt(events: seq<Event>, t: DeliveryTask, max: int, rest: Life)
    requires AttemptTrace(events, t, max, FateRetry) && t.attempt + 1 < max
    requires LifeMeaning(rest, Requeued(t, max).task, max)
    ensures LifeMeaning(Life(events + rest.events, [Requeued(t, max).topic] + rest.visited,
                             rest.consumptions + 1, rest.fate), t, max)
  {
    hide AttemptTrace, ConsumedAttempts, LifeTrace;
    AttemptConsumesOnce(events, t, max, FateRetry);
    var all := events + rest.events;
    ConsumedAppend(events, rest.events);
    assert ConsumedAttempts(all) == seq(rest.consumptions + 1, j => t.attempt + j);
    TraceGrows(events, t, max, rest);
  }

  lemma TraceGrows(events: seq<Event>, t: DeliveryTask, max: int, rest: Life)
    requires AttemptTrace(events, t, max, FateRetry) && t.attempt + 1 < max
    requires LifeTrace(rest.events, Requeued(t, max).task, max, rest.fate)
    ensures LifeTrace(events + rest.events, t, max, rest.fate)
  {
    hide AttemptTrace;
    var all := events + rest.events;
    assert all[..|events|] == events && all[|events|..] == rest.events;
  }

  /** Every task that starts below the limit lives that way, when nothing but pushing fails. */
  lemma {:induction false} WholeLife(t: DeliveryTask, max: int, envs: nat -> Env, i: nat)
    requires ValidTask(t) && t.attempt < max && forall n :: Smooth(envs(n))
    ensures LifeMeaning(LifeOf(t, max, envs, i), t, max)
    decreases max - t.attempt
  {
    hide *;
    var o := Process(t, max, envs(i));
    var fate := FateOf(t, max, envs(i));
    SmoothAttempt(t, max, envs(i));
    if fate == FateRetry {
      var rest := LifeOf(Requeued(t, max).task, max, envs, i + 1);
      LifeGoesOn(t, max, envs, i);
      RequeuedValid(t, max);
      RequeuedAttempt(t, max);
      WholeLife(Requeued(t, max).task, max, envs, i + 1);
      EarlierAttempt(o.events, t, max, rest);
    } else {
      LifeEnds(t, max, envs, i);
      LastAttempt(o.events, t, max, fate);
    }
  }

  lemma RequeuedAttempt(t: DeliveryTask, max: int)
    ensures Requeued(t, max).task.attempt == t.attempt + 1
  {}

  lemma LifeEnds(t: DeliveryTask, max: int, envs: nat -> Env, i: nat)
    requires FateOf(t, max, envs(i)) != FateRetry
    ensures var fate := FateOf(t, max, envs(i));
            LifeOf(t, max, envs, i) ==
            Life(Process(t, max, envs(i)).events, if fate == FateDead then [DLQ] else [], 1, fate)
  {
    hide Process, FateOf;
  }

  lemma LifeGoesOn(t: DeliveryTask, max: int, envs: nat -> Env, i: nat)
    requires FateOf(t, max, envs(i)) == FateRetry && t.attempt + 1 < max
    ensures var rest := LifeOf(Requeued(t, max).task, max, envs, i + 1);
            LifeOf(t, max, envs, i) ==
            Life(Process(t, max, envs(i)).events + rest.events, [Requeued(t, max).topic] + rest.visited,
                 rest.consumptions + 1, rest.fate)
  {
    hide Process, FateOf;
  }
}
