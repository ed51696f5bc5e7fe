/** The per-provider throttle: packages/go/sender/redis_throttler.go:29-71, 85-90.

    A round is one pass of the loop in Wait: it stamps the clock, increments the counter of that
    host and second, and is granted when the count is within the limit.  Redis executes the
    increments of all callers one after the other, so a run is a sequence of rounds in that order. */
module Throttle {
  import opened Clock
  import opened Wrappers

  /** providerThrottleKey: a host and a Unix second. */
  datatype Key = Key(host: string, second: int)

  datatype Entry = Entry(count: nat, expiresAt: Option<int>)

  type Counters = map<Key, Entry>

  /** `stamp` is when the caller read its clock, `at` when Redis increments; `expire` is how much
      later Redis sets the expiry, and None when that command does not arrive. */
  datatype Round = Round(host: string, stamp: int, at: int, incr: Reply, expire: Option<nat>)

  function KeyOf(r: Round): Key {
    Key(r.host, r.stamp / SECOND)
  }

  function Incremented(c: Counters, r: Round): Entry {
    var k := KeyOf(r);
    if k in c && (c[k].expiresAt.None? || r.at < c[k].expiresAt.value) then c[k].(count := c[k].count + 1)
    else Entry(1, None)
  }

  /** The counter after a round: a fresh one expires two seconds after it is told to. */
  function Stored(c: Counters, r: Round): Entry {
    var e := Incremented(c, r);
    if e.count == 1 && r.incr == Answered && r.expire.Some?
    then Entry(1, Some(r.at + r.expire.value + 2 * SECOND)) else e
  }

  predicate Granted(c: Counters, r: Round, limit: int) {
    && r.incr == Answered && Incremented(c, r).count <= limit
    && (Incremented(c, r).count == 1 ==> r.expire.Some?)
  }

  function Next(c: Counters, r: Round): Counters {
    if r.incr == NotSent then c else c[KeyOf(r) := Stored(c, r)]
  }

  datatype Answer = Go | Again | Fails

  class Throttler {
    const limit: int
    var counters: Counters

    constructor (limit: int)
      ensures this.limit == limit && counters == map[]
    {
      this.limit, counters := limit, map[];
    }

    /** One round of Wait for a host; without a positive limit everybody may go. */
    method Try(r: Round) returns (answer: Answer)
      modifies this`counters
      ensures limit <= 0 ==> answer == Go && counters == old(counters)
      ensures limit > 0 ==> counters == Next(old(counters), r)
      ensures limit > 0 ==> (answer == Go <==> Granted(old(counters), r, limit))
      ensures limit > 0 ==>
                (answer == Fails <==>
                   r.incr != Answered || (Incremented(old(counters), r).count == 1 && r.expire.None?))
      ensures limit > 0 ==>
                if r.incr == NotSent then counters == old(counters)
                else KeyOf(r) in counters && counters[KeyOf(r)].count == Incremented(old(counters), r).count
      ensures limit > 0 ==> (answer == Again <==> r.incr == Answered && Incremented(old(counters), r).count > limit)
    {
      if limit <= 0 { return Go; }
      if r.incr == NotSent { return Fails; }
      var k := KeyOf(r);
      var e := Incremented(counters, r);
      counters := counters[k := e];
      if r.incr == AnswerLost { return Fails; }
      if e.count == 1 {
        if r.expire.None? { return Fails; }
        counters := counters[k := Entry(1, Some(r.at + r.expire.value + 2 * SECOND))];
      }
      answer := if e.count <= limit then Go else Again;
    }
  }

  // ----- runs -----

  function After(rounds: seq<Round>): Counters {
    if rounds == [] then map[] else Next(After(rounds[..|rounds| - 1]), rounds[|rounds| - 1])
  }

  /** How many rounds with a key of `keys` were granted. */
  function Grants(rounds: seq<Round>, limit: int, keys: Key -> bool): nat {
    if rounds == [] then 0
    else
      var n := |rounds| - 1;
      Grants(rounds[..n], limit, keys) +
      if keys(KeyOf(rounds[n])) && Granted(After(rounds[..n]), rounds[n], limit) then 1 else 0
  }

  /** Every increment lands at most `delay` behind the stamp in its key. */
  ghost predicate Prompt(rounds: seq<Round>, delay: int) {
    forall i :: 0 <= i < |rounds| ==> rounds[i].stamp <= rounds[i].at <= rounds[i].stamp + delay
  }

  /** While increments land in time a counter never expires under its own second. */
  ghost predicate KeyInv(c: Counters, k: Key, grants: nat, limit: int) {
    && grants <= limit
    && grants <= (if k in c then c[k].count else 0)
    && (k in c && c[k].expiresAt.Some? ==> c[k].expiresAt.value >= (k.second + 2) * SECOND)
  }

  function Only(k: Key): Key -> bool {
    (j: Key) => j == k
  }

  /** No key grants more than the limit, although counters live for two seconds only. */
  lemma {:induction false} GrantsPerSecond(rounds: seq<Round>, limit: int, k: Key)
    requires limit > 0 && Prompt(rounds, SECOND)
    ensures Grants(rounds, limit, Only(k)) <= limit
    ensures KeyInv(After(rounds), k, Grants(rounds, limit, Only(k)), limit)
  {
    if rounds == [] {
    } else {
      var n := |rounds| - 1;
      GrantsPerSecond(rounds[..n], limit, k);
      hide Granted, Next;
    }
  }

  /** The rounds of one host stamped within one second from `start`. */
  function GrantsFrom(rounds: seq<Round>, limit: int, host: string, start: int): nat {
    if rounds == [] then 0
    else
      var n := |rounds| - 1;
      GrantsFrom(rounds[..n], limit, host, start) +
      if rounds[n].host == host && start <= rounds[n].stamp < start + SECOND &&
         Granted(After(rounds[..n]), rounds[n], limit) then 1 else 0
  }

  /** Any one-second span sees at most twice the limit. */
  lemma AnySecond(rounds: seq<Round>, limit: int, host: string, start: int)
    requires limit > 0 && Prompt(rounds, SECOND)
    ensures GrantsFrom(rounds, limit, host, start) <= 2 * limit
  {
    var second := start / SECOND;
    TwoKeys(rounds, limit, host, start);
    GrantsPerSecond(rounds, limit, Key(host, second));
    GrantsPerSecond(rounds, limit, Key(host, second + 1));
  }

  lemma {:induction false} TwoKeys(rounds: seq<Round>, limit: int, host: string, start: int)
    ensures var second := start / SECOND;
            GrantsFrom(rounds, limit, host, start) <=
            Grants(rounds, limit, Only(Key(host, second))) + Grants(rounds, limit, Only(Key(host, second + 1)))
  {
    hide Granted, Next;
    if rounds == [] {
    } else {
      TwoKeys(rounds[..|rounds| - 1], limit, host, start);
    }
  }

  // ----- why increments must land in time -----

  ghost predicate LimitHolds(rounds: seq<Round>, limit: int) {
    forall k :: Grants(rounds, limit, Only(k)) <= limit
  }

  /** The limit of every key holds for all runs if and only if no increment can land more than a
      second behind its stamp. */
  lemma LimitExactlyWhen(limit: int, delay: int)
    requires limit > 0 && delay >= 0
    ensures (forall rounds :: Prompt(rounds, delay) ==> LimitHolds(rounds, limit)) <==> delay <= SECOND
  {
    if delay <= SECOND {
      forall rounds | Prompt(rounds, delay) ensures LimitHolds(rounds, limit) {
        assert Prompt(rounds, SECOND);
        forall k ensures Grants(rounds, limit, Only(k)) <= limit { GrantsPerSecond(rounds, limit, k); }
      }
    } else {
      var rounds := Early(limit) + [Late(delay)];
      EarlyGranted(limit, limit);
      var k := Key("h", 0);
      assert rounds[..limit] == Early(limit);
      assert Granted(After(Early(limit)), Late(delay), limit) by {
        assert Incremented(After(Early(limit)), Late(delay)) == Entry(1, None);
      }
      assert Grants(rounds, limit, Only(k)) == limit + 1;
      assert Prompt(rounds, delay);
      assert !LimitHolds(rounds, limit);
    }
  }

  function Early(n: nat): seq<Round> {
    seq(n, i => Round("h", 0, 0, Answered, Some(0)))
  }

  /** Stamped in the same second, and incremented when the counter has just expired. */
  function Late(delay: int): Round {
    Round("h", SECOND - 1, SECOND - 1 + delay, Answered, Some(0))
  }

  lemma {:induction false} EarlyGranted(n: nat, limit: int)
    requires n <= limit
    ensures Grants(Early(n), limit, Only(Key("h", 0))) == n
    ensures After(Early(n)) == if n == 0 then map[] else map[Key("h", 0) := Entry(n, Some(2 * SECOND))]
  {
    if n == 0 {
    } else {
      EarlyGranted(n - 1, limit);
      assert Early(n)[..n - 1] == Early(n - 1);
    }
  }
}
