/** RequestOTP, VerifyOTP and ApproveUser of several callers at once
    (packages/go/auth/service.go:112-272, packages/go/auth/postgres_repository.go:62-161).

    A request reads the row of a user, changes its copy and saves the whole copy.  The reads and the
    saves of the requests interleave in any order, and a save overwrites whatever was saved since. */
module AuthConcurrency {
  import opened Wrappers
  import opened Auth
  import opened Counting
  import Text
  import Clock
  import Token

  /** What a save is for: a new code, taking it back after a failed delivery, a login, an approval. */
  datatype Kind = Code | Rollback | Login | Approval

  /** A request that holds a copy to save, and the row as it last saw it. */
  datatype Phase = Idle | Holding(kind: Kind, row: User, seen: Option<User>)

  datatype State = State(users: Users, log: seq<Event>, requests: seq<Phase>)

  /** Emails are normalised; the id is that of a new user, and the hash that of the code. */
  datatype Step =
    | ReadForCode(request: nat, email: string, id: string, hash: string, now: int)
    | ReadForLogin(request: nat, email: string, hash: string, now: int)
    | ReadForApproval(request: nat, email: string)
    | Save(request: nat, reply: Reply)
    | Delivered(request: nat)

  predicate Address(email: string) {
    ValidEmail(email) && Text.Normal(email) == email
  }

  function RowOf(users: Users, email: string): Option<User> {
    if email in users then Some(users[email]) else None
  }

  /** Emails are unique: a second row for one is an error. */
  predicate Accepts(users: Users, u: User) {
    u.email in users ==> users[u.email].id == u.id
  }

  /** Nobody changed the row since the request last saw it. */
  predicate Fresh(s: State, p: Phase)
    requires p.Holding?
  {
    RowOf(s.users, p.row.email) == p.seen
  }

  /** A copy may be saved when it is fresh, or when its kind is one of those that need not be. */
  ghost predicate Ready(s: State, step: Step, loose: set<Kind>) {
    && step.request < |s.requests|
    && var p := s.requests[step.request];
       match step
       case ReadForCode(_, email, _, hash, _) => p.Idle? && Address(email) && hash != ""
       case ReadForLogin(_, email, _, _) => p.Idle? && Address(email)
       case ReadForApproval(_, email) => p.Idle? && email in s.users
       case Save(_, _) => p.Holding? && (p.kind in loose || Fresh(s, p))
       case Delivered(_) => p.Holding? && p.kind == Rollback
  }

  /** After the read of RequestOTP; a refused request holds nothing. */
  function HeldForCode(users: Users, email: string, id: string, hash: string, now: int, c: Config): Phase {
    var seen := RowOf(users, email);
    var read := if seen.Some? then seen.value else NewUser(id, email, c);
    if !c.dev && read.otpHash != "" && now < read.otpExpires then Idle
    else if !c.dev && read.otpRequested.Some? && now - read.otpRequested.value < c.rateLimit then Idle
    else Holding(Code, CodeRow(read, hash, now, c), seen)
  }

  /** After the read of VerifyOTP. */
  function HeldForLogin(users: Users, email: string, hash: string, now: int, c: Config): Phase {
    if email !in users || users[email].otpHash == "" || now > users[email].otpExpires || users[email].otpHash != hash
    then Idle
    else Holding(Login, LoginRow(users[email], c), Some(users[email]))
  }

  /** A request that overlaps others is refused, and holds the row, as one that runs alone: exactly when
      RequestOTP answers that a code is still active or comes too soon, and a login with the stored
      code in its time. */
  lemma ReadsAsAlone(users: Users, email: string, id: string, hash: string, now: int, c: Config)
    requires ValidEmail(email)
    ensures var held := HeldForCode(users, email, id, hash, now, c);
            && (held.Idle? <==> RequestRefused(users, email, now, true, c, StillActive) ||
                                RequestRefused(users, email, now, true, c, RateLimited))
            && (held.Holding? ==> held.kind == Code && held.row == CodeRow(RowRead(users, email, id, c), hash, now, c))
    ensures var held := HeldForLogin(users, email, hash, now, c);
            && (held.Holding? <==>
                  email in users && users[email].otpHash == hash != "" && now <= users[email].otpExpires)
            && (held.Holding? ==> held.kind == Login && held.row == LoginRow(users[email], c))
  {
    hide Text.Normal;
  }

  function EventsOf(p: Phase, reply: Reply): seq<Event>
    requires p.Holding?
  {
    if p.kind == Code && p.row.otpRequested.Some? then [CodeSaved(p.row.email, p.row.otpRequested.value)]
    else if p.kind == Login && reply == Answered then [LoggedIn(p.row.email)]
    else []
  }

  /** A saved code waits for its delivery; every other request is done. */
  function NextPhase(p: Phase, reply: Reply): Phase
    requires p.Holding?
  {
    if p.kind == Code && reply == Answered then Holding(Rollback, WithoutCode(p.row), Some(StoredRow(p.row))) else Idle
  }

  function Do(s: State, step: Step, c: Config): State
    requires step.request < |s.requests| && (step.Save? ==> s.requests[step.request].Holding?)
    requires step.ReadForApproval? ==> step.email in s.users
  {
    var w := step.request;
    match step
    case ReadForCode(_, email, id, hash, now) =>
      s.(requests := s.requests[w := HeldForCode(s.users, email, id, hash, now, c)])
    case ReadForLogin(_, email, hash, now) =>
      s.(requests := s.requests[w := HeldForLogin(s.users, email, hash, now, c)])
    case ReadForApproval(_, email) =>
      s.(requests := s.requests[w := Holding(Approval, ApprovedRow(s.users[email]), Some(s.users[email]))])
    case Save(_, reply) =>
      var p := s.requests[w];
      if reply == NotSent || !Accepts(s.users, p.row) then s.(requests := s.requests[w := Idle])
      else
        State(Saved(s.users, p.row), s.log + EventsOf(p, reply), s.requests[w := NextPhase(p, reply)])
    case Delivered(_) => s.(requests := s.requests[w := Idle])
  }

  ghost function Start(requests: nat): State {
    State(map[], [], seq(requests, _ => Idle))
  }

  ghost function Run(from: State, steps: seq<Step>, c: Config, loose: set<Kind>): Option<State> {
    if steps == [] then Some(from)
    else
      match Run(from, steps[..|steps| - 1], c, loose)
      case Some(s) => if Ready(s, steps[|steps| - 1], loose) then Some(Do(s, steps[|steps| - 1], c)) else None
      case None => None
  }

  // ----- what a request holds -----

  /** A copy, by its kind, against the row that was read for it. */
  ghost predicate Shaped(p: Phase, c: Config) {
    p.Holding? ==>
      && Text.Normal(p.row.email) == p.row.email
      && (p.seen.Some? ==>
            && p.row.id == p.seen.value.id && (p.seen.value.approved ==> p.row.approved)
            && (p.kind != Code ==> p.row.otpRequested == p.seen.value.otpRequested))
      && match p.kind
         case Code =>
           && p.row.otpRequested.Some?
           && (!c.dev && p.seen.Some? && p.seen.value.otpRequested.Some? ==>
                 p.row.otpRequested.value - p.seen.value.otpRequested.value >= c.rateLimit)
         case Rollback => p.seen.Some? && p.row.otpHash == ""
         case Login => p.seen.Some? && p.row.otpHash == "" && p.seen.value.otpHash != ""
         case Approval => p.seen.Some? && p.row.approved && p.row.otpHash == p.seen.value.otpHash
  }

  ghost predicate InPlace(users: Users) {
    forall e :: e in users ==> users[e].email == e && Text.Normal(e) == e
  }

  ghost predicate Sound(s: State, c: Config) {
    InPlace(s.users) && forall w :: 0 <= w < |s.requests| ==> Shaped(s.requests[w], c)
  }

  lemma StepSound(s: State, step: Step, c: Config, loose: set<Kind>)
    requires Ready(s, step, loose) && Sound(s, c)
    ensures Sound(Do(s, step, c), c) && |Do(s, step, c).requests| == |s.requests|
  {
    hide Text.Normal;
    if step.Save? { assert Shaped(s.requests[step.request], c); }
  }

  lemma StartSound(requests: nat, c: Config)
    ensures Sound(Start(requests), c)
  {}

  /** The last step of a run. */
  lemma LastStep(from: State, steps: seq<Step>, c: Config, loose: set<Kind>)
    requires steps != [] && Run(from, steps, c, loose).Some?
    ensures Run(from, steps[..|steps| - 1], c, loose).Some?
    ensures var s := Run(from, steps[..|steps| - 1], c, loose).value;
            Ready(s, steps[|steps| - 1], loose) && Run(from, steps, c, loose).value == Do(s, steps[|steps| - 1], c)
  {
    hide Ready, Do;
  }

  lemma {:induction false} RunSound(from: State, steps: seq<Step>, c: Config, loose: set<Kind>)
    requires Sound(from, c) && Run(from, steps, c, loose).Some?
    ensures var s := Run(from, steps, c, loose).value;
            Sound(s, c) && |s.requests| == |from.requests|
  {
    hide Sound, Ready, Do;
    if steps == [] {
    } else {
      LastStep(from, steps, c, loose);
      RunSound(from, steps[..|steps| - 1], c, loose);
      StepSound(Run(from, steps[..|steps| - 1], c, loose).value, steps[|steps| - 1], c, loose);
    }
  }

  // ----- approval is kept -----

  lemma StepKeeps(s: State, step: Step, c: Config, loose: set<Kind>)
    requires Ready(s, step, loose) && Sound(s, c) && loose <= {Approval}
    ensures Keeps(s.users, Do(s, step, c).users)
  {
    hide Text.Normal;
    if step.Save? { assert Shaped(s.requests[step.request], c); }
  }

  lemma {:induction false} RunKeeps(from: State, a: seq<Step>, b: seq<Step>, c: Config, loose: set<Kind>)
    requires Sound(from, c) && Run(from, a + b, c, loose).Some? && loose <= {Approval}
    ensures Run(from, a, c, loose).Some?
    ensures Keeps(Run(from, a, c, loose).value.users, Run(from, a + b, c, loose).value.users)
  {
    hide Ready, Do, Keeps, Sound, Run;
    if b == [] {
      assert a + b == a;
      KeepsItself(Run(from, a, c, loose).value.users);
    } else {
      var front := a + b[..|b| - 1];
      LastStep(from, a + b, c, loose);
      assert (a + b)[..|a + b| - 1] == front;
      RunKeeps(from, a, b[..|b| - 1], c, loose);
      RunSound(from, front, c, loose);
      var s := Run(from, front, c, loose).value;
      StepKeeps(s, (a + b)[|a + b| - 1], c, loose);
      KeepsOn(Run(from, a, c, loose).value.users, s.users, Run(from, a + b, c, loose).value.users);
    }
  }

  /** At no moment of the run does a user vanish or lose its approval. */
  ghost predicate KeepsApproval(requests: nat, steps: seq<Step>, c: Config, loose: set<Kind>) {
    Run(Start(requests), steps, c, loose).Some? ==>
      forall k :: 0 <= k <= |steps| ==>
        && Run(Start(requests), steps[..k], c, loose).Some?
        && Keeps(Run(Start(requests), steps[..k], c, loose).value.users,
                 Run(Start(requests), steps, c, loose).value.users)
  }

  // ----- every login follows a code of its own -----

  ghost predicate ArmedRows(s: State) {
    && LoginsFollowCodes(s.log)
    && forall e :: e in s.users && s.users[e].otpHash != "" ==> Armed(s.log, e)
  }

  lemma MoreLogged(log: seq<Event>, e: Event)
    requires LoginsFollowCodes(log) && (e.LoggedIn? ==> Armed(log, e.email))
    ensures LoginsFollowCodes(log + [e])
  {
    var longer := log + [e];
    forall i | 0 <= i < |log| ensures longer[..i] == log[..i] && longer[i] == log[i] {}
    assert longer[..|log|] == log;
  }

  lemma StepArms(s: State, step: Step, c: Config, loose: set<Kind>)
    requires Ready(s, step, loose) && Sound(s, c) && ArmedRows(s) && loose <= {Code, Rollback}
    ensures ArmedRows(Do(s, step, c))
  {
    hide Text.Normal, LoginsFollowCodes, Armed;
    if step.Save? {
      var p := s.requests[step.request];
      assert Shaped(p, c);
      var events := EventsOf(p, step.reply);
      if step.reply != NotSent && Accepts(s.users, p.row) {
        if events != [] {
          assert events == [events[0]];
          LogGrows(s.log, events[0]);
          MoreLogged(s.log, events[0]);
        } else {
          assert s.log + events == s.log;
        }
      }
    }
  }

  lemma {:induction false} RunArms(from: State, steps: seq<Step>, c: Config, loose: set<Kind>)
    requires Sound(from, c) && ArmedRows(from) && Run(from, steps, c, loose).Some? && loose <= {Code, Rollback}
    ensures ArmedRows(Run(from, steps, c, loose).value)
  {
    hide Sound, ArmedRows, Ready, Do;
    if steps == [] {
    } else {
      LastStep(from, steps, c, loose);
      RunArms(from, steps[..|steps| - 1], c, loose);
      RunSound(from, steps[..|steps| - 1], c, loose);
      StepArms(Run(from, steps[..|steps| - 1], c, loose).value, steps[|steps| - 1], c, loose);
    }
  }

  ghost predicate CodesOnce(requests: nat, steps: seq<Step>, c: Config, loose: set<Kind>) {
    Run(Start(requests), steps, c, loose).Some? ==>
      LoginsFollowCodes(Run(Start(requests), steps, c, loose).value.log)
  }

  // ----- codes are spaced -----

  ghost predicate SpacedRows(s: State, c: Config) {
    && Spaced(s.log, c.rateLimit)
    && (forall e :: e in s.users ==> s.users[e].otpRequested == LastSaved(s.log, e))
    && (forall e :: e !in s.users ==> LastSaved(s.log, e) == None)
  }

  lemma MoreSpaced(log: seq<Event>, e: Event, gap: int)
    requires Spaced(log, gap)
    requires e.CodeSaved? && LastSaved(log, e.email).Some? ==> e.at - LastSaved(log, e.email).value >= gap
    ensures Spaced(log + [e], gap)
  {
    var longer := log + [e];
    forall i | 0 <= i < |log| ensures longer[..i] == log[..i] && longer[i] == log[i] {}
    assert longer[..|log|] == log;
  }

  lemma StepSpaces(s: State, step: Step, c: Config)
    requires Ready(s, step, {}) && Sound(s, c) && SpacedRows(s, c) && !c.dev
    ensures SpacedRows(Do(s, step, c), c)
  {
    hide Text.Normal, Spaced, LastSaved;
    if step.Save? {
      var p := s.requests[step.request];
      assert Shaped(p, c);
      var events := EventsOf(p, step.reply);
      if step.reply != NotSent && Accepts(s.users, p.row) {
        if events != [] {
          assert events == [events[0]];
          LogGrows(s.log, events[0]);
          MoreSpaced(s.log, events[0], c.rateLimit);
        } else {
          assert s.log + events == s.log;
        }
      }
    }
  }

  lemma {:induction false} RunSpaces(from: State, steps: seq<Step>, c: Config)
    requires Sound(from, c) && SpacedRows(from, c) && Run(from, steps, c, {}).Some? && !c.dev
    ensures SpacedRows(Run(from, steps, c, {}).value, c)
  {
    hide Sound, SpacedRows, Ready, Do;
    if steps == [] {
    } else {
      LastStep(from, steps, c, {});
      RunSpaces(from, steps[..|steps| - 1], c);
      RunSound(from, steps[..|steps| - 1], c, {});
      StepSpaces(Run(from, steps[..|steps| - 1], c, {}).value, steps[|steps| - 1], c);
    }
  }

  ghost predicate CodesSpaced(requests: nat, steps: seq<Step>, c: Config, loose: set<Kind>) {
    Run(Start(requests), steps, c, loose).Some? ==>
      Spaced(Run(Start(requests), steps, c, loose).value.log, c.rateLimit)
  }

  // ----- logins with one code -----

  /** Logins of an email since its last code was saved. */
  function LoginsSince(log: seq<Event>, email: string): nat {
    if log == [] then 0
    else
      var last := log[|log| - 1];
      if last.email != email then LoginsSince(log[..|log| - 1], email)
      else if last.CodeSaved? then 0
      else LoginsSince(log[..|log| - 1], email) + 1
  }

  predicate LoggingIn(p: Phase, email: string) {
    p.Holding? && p.kind == Login && p.row.email == email
  }

  /** Whoever may still log in was counted when there was no login yet. */
  ghost predicate BoundedLogins(s: State, email: string) {
    && LoginsSince(s.log, email) + CountIf(s.requests, p => LoggingIn(p, email)) <= |s.requests|
    && (email in s.users && s.users[email].otpHash != "" ==> LoginsSince(s.log, email) == 0)
  }

  lemma SinceGrows(log: seq<Event>, e: Event, email: string)
    ensures LoginsSince(log + [e], email) ==
            if e.email != email then LoginsSince(log, email)
            else if e.CodeSaved? then 0 else LoginsSince(log, email) + 1
  {
    assert (log + [e])[..|log|] == log;
  }

  lemma StepBounds(s: State, step: Step, c: Config, loose: set<Kind>, email: string)
    requires Ready(s, step, loose) && Sound(s, c) && BoundedLogins(s, email) && Approval !in loose
    ensures BoundedLogins(Do(s, step, c), email)
  {
    hide Text.Normal, LoginsSince, CountIf;
    var w, t := step.request, Do(s, step, c);
    CountUpdated(s.requests, w, t.requests[w], p => LoggingIn(p, email));
    assert t.requests == s.requests[w := t.requests[w]];
    if step.Save? {
      var p := s.requests[w];
      assert Shaped(p, c);
      var events := EventsOf(p, step.reply);
      if step.reply != NotSent && Accepts(s.users, p.row) {
        if events != [] {
          assert events == [events[0]];
          SinceGrows(s.log, events[0], email);
        } else {
          assert s.log + events == s.log;
        }
      }
    }
  }

  lemma {:induction false} RunBounds(from: State, steps: seq<Step>, c: Config, loose: set<Kind>, email: string)
    requires Sound(from, c) && BoundedLogins(from, email) && Run(from, steps, c, loose).Some? && Approval !in loose
    ensures BoundedLogins(Run(from, steps, c, loose).value, email)
  {
    hide Sound, BoundedLogins, Ready, Do;
    if steps == [] {
    } else {
      LastStep(from, steps, c, loose);
      RunBounds(from, steps[..|steps| - 1], c, loose, email);
      RunSound(from, steps[..|steps| - 1], c, loose);
      StepBounds(Run(from, steps[..|steps| - 1], c, loose).value, steps[|steps| - 1], c, loose, email);
    }
  }

  ghost predicate LoginsBounded(requests: nat, steps: seq<Step>, c: Config, loose: set<Kind>) {
    Run(Start(requests), steps, c, loose).Some? ==>
      forall email :: LoginsSince(Run(Start(requests), steps, c, loose).value.log, email) <= requests
  }

  // ----- runs that overlap -----

  // Two requests, one user: request 1 holds a copy while request 0 changes the row.

  /** One user's row, and two requests. */
  function Pair(row: User, log: seq<Event>, p: Phase, q: Phase): State {
    State(map[row.email := row], log, [p, q])
  }

  /** A configuration after its defaults, and the address of a user who is not the administrator. */
  predicate Ordinary(c: Config, email: string) {
    c.otpTtl > 0 && c.rateLimit > 0 && Address(email) && email != Text.Normal(c.admin)
  }

  /** What NewServiceWithDelivery sees to. */
  predicate WithDefaults(c: Config) {
    c.otpTtl > 0 && c.rateLimit > 0
  }

  lemma SomeAddress(c: Config) returns (email: string)
    requires WithDefaults(c)
    ensures Ordinary(c, email)
  {
    hide Text.Normal;
    Text.NormalMeaning("a@");
    Text.NormalMeaning("b@");
    assert "a@"[1] == '@' && "b@"[1] == '@' && "a@"[0] != "b@"[0];
    email := if Text.Normal(c.admin) == "a@" then "b@" else "a@";
  }

  /** The row after a first code, requested at instant 0. */
  function FirstRow(email: string, c: Config): User {
    User("i", email, "user", PendingApproval, false, false, "h", c.otpTtl, Some(0))
  }

  /** An instant at which the first code has expired and the next may be requested. */
  function Later(c: Config): int {
    c.otpTtl + c.rateLimit
  }

  lemma Then(from: State, steps: seq<Step>, s: State, step: Step, c: Config, loose: set<Kind>)
    returns (longer: seq<Step>)
    requires Run(from, steps, c, loose) == Some(s) && Ready(s, step, loose)
    ensures longer == steps + [step] && Run(from, longer, c, loose) == Some(Do(s, step, c))
  {
    hide Ready, Do;
    longer := steps + [step];
    assert longer[..|steps|] == steps;
  }

  /** Request 1 saves a first code, and its delivery is pending. */
  lemma FirstCode(c: Config, email: string, loose: set<Kind>) returns (steps: seq<Step>)
    requires Ordinary(c, email)
    ensures var row := FirstRow(email, c);
            Run(Start(2), steps, c, loose) ==
            Some(Pair(row, [CodeSaved(email, 0)], Idle, Holding(Rollback, WithoutCode(row), Some(row))))
  {
    hide Text.Normal, ValidEmail;
    var row := FirstRow(email, c);
    var read := ReadForCode(1, email, "i", "h", 0);
    var s := Do(Start(2), read, c);
    assert s == State(map[], [], [Idle, Holding(Code, row, None)]);
    steps := Then(Start(2), [], Start(2), read, c, loose);
    steps := Then(Start(2), steps, s, Save(1, Answered), c, loose);
    var t := Do(s, Save(1, Answered), c);
    assert t.users == map[email := row] && t.log == [CodeSaved(email, 0)];
    assert t.requests == [Idle, Holding(Rollback, WithoutCode(row), Some(row))];
  }

  /** What request 1 holds of the first row, by the kind of its save. */
  function HeldRow(kind: Kind, email: string, c: Config): User {
    var row := FirstRow(email, c);
    match kind
    case Code => row.(otpExpires := Later(c) + c.otpTtl, otpRequested := Some(Later(c)))
    case Rollback => WithoutCode(row)
    case Login => WithoutCode(row).(verified := true)
    case Approval => ApprovedRow(row)
  }

  function HeldCopy(kind: Kind, email: string, c: Config): Phase {
    Holding(kind, HeldRow(kind, email, c), Some(FirstRow(email, c)))
  }

  /** Request 1 holds a copy of the first row. */
  lemma HoldsCopy(kind: Kind, c: Config, email: string, loose: set<Kind>) returns (steps: seq<Step>)
    requires Ordinary(c, email)
    ensures Run(Start(2), steps, c, loose) ==
            Some(Pair(FirstRow(email, c), [CodeSaved(email, 0)], Idle, HeldCopy(kind, email, c)))
  {
    hide Text.Normal, ValidEmail, Run;
    steps := FirstCode(c, email, loose);
    if kind != Rollback {
      var row := FirstRow(email, c);
      var s := Pair(row, [CodeSaved(email, 0)], Idle, HeldCopy(Rollback, email, c));
      var idle := Pair(row, [CodeSaved(email, 0)], Idle, Idle);
      assert Do(s, Delivered(1), c).requests == idle.requests;
      steps := Then(Start(2), steps, s, Delivered(1), c, loose);
      var read := if kind == Code then ReadForCode(1, email, "i", "h", Later(c))
                  else if kind == Approval then ReadForApproval(1, email)
                  else ReadForLogin(1, email, "h", 0);
      assert Do(idle, read, c).requests == [Idle, HeldCopy(kind, email, c)];
      steps := Then(Start(2), steps, idle, read, c, loose);
    }
  }

  /** A copy saved over a changed row. */
  lemma Overwrites(row: User, log: seq<Event>, q: Phase, c: Config, loose: set<Kind>)
    requires q.Holding? && q.kind in loose && q.row.email == row.email && q.row.id == row.id
    requires StoredRow(q.row) == q.row
    ensures var s := Pair(row, log, Idle, q);
            && Ready(s, Save(1, Answered), loose)
            && Do(s, Save(1, Answered), c) == Pair(q.row, log + EventsOf(q, Answered), Idle, NextPhase(q, Answered))
  {
    var t := Do(Pair(row, log, Idle, q), Save(1, Answered), c);
    assert t.users == map[q.row.email := q.row];
    assert t.requests == [Idle, NextPhase(q, Answered)];
  }

  /** Request 0 reads and saves while request 1 keeps its copy. */
  lemma ReadsAndSaves(from: State, steps: seq<Step>, row: User, log: seq<Event>, q: Phase, read: Step, held: Phase,
                      c: Config, loose: set<Kind>)
    returns (longer: seq<Step>)
    requires Run(from, steps, c, loose) == Some(Pair(row, log, Idle, q))
    requires read.request == 0 && Ready(Pair(row, log, Idle, q), read, loose) && !read.Save? && !read.Delivered?
    requires Do(Pair(row, log, Idle, q), read, c) == Pair(row, log, held, q)
    requires held.Holding? && held.seen == Some(row) && held.row.email == row.email && held.row.id == row.id
    requires StoredRow(held.row) == held.row
    ensures |longer| == |steps| + 2 && steps <= longer
    ensures Run(from, longer, c, loose) ==
            Some(Pair(held.row, log + EventsOf(held, Answered), NextPhase(held, Answered), q))
  {
    hide Run, Text.Normal;
    longer := Then(from, steps, Pair(row, log, Idle, q), read, c, loose);
    var s := Pair(row, log, held, q);
    var t := Do(s, Save(0, Answered), c);
    assert t.users == map[held.row.email := held.row];
    assert t.requests == [NextPhase(held, Answered), q];
    longer := Then(from, longer, s, Save(0, Answered), c, loose);
  }

  /** An approval is undone by a copy that was read before it. */
  lemma ApprovalUndone(kind: Kind, c: Config, email: string, loose: set<Kind>) returns (steps: seq<Step>)
    requires Ordinary(c, email) && kind in loose && kind != Approval
    ensures !KeepsApproval(2, steps, c, loose)
  {
    hide Text.Normal, ValidEmail, Run;
    var row, q := FirstRow(email, c), HeldCopy(kind, email, c);
    var log := [CodeSaved(email, 0)];
    steps := HoldsCopy(kind, c, email, loose);
    var held := Holding(Approval, ApprovedRow(row), Some(row));
    assert Do(Pair(row, log, Idle, q), ReadForApproval(0, email), c).requests == [held, q];
    steps := ReadsAndSaves(Start(2), steps, row, log, q, ReadForApproval(0, email), held, c, loose);
    var k := |steps|;
    assert log + EventsOf(held, Answered) == log;
    Overwrites(ApprovedRow(row), log, q, c, loose);
    ghost var approved := steps;
    steps := Then(Start(2), steps, Pair(ApprovedRow(row), log, Idle, q), Save(1, Answered), c, loose);
    assert steps[..k] == approved;
    assert !Keeps(map[email := ApprovedRow(row)], map[email := q.row]) by { assert email in map[email := row]; }
  }

  /** Approval is kept in every run exactly when no save but an approval may be stale. */
  lemma ApprovalKeptExactlyWhen(c: Config, loose: set<Kind>)
    requires WithDefaults(c)
    ensures (forall requests: nat, steps :: KeepsApproval(requests, steps, c, loose)) <==> loose <= {Approval}
  {
    hide KeepsApproval, Ordinary;
    if loose <= {Approval} {
      forall requests: nat, steps ensures KeepsApproval(requests, steps, c, loose) {
        AllKept(requests, steps, c, loose);
      }
    } else {
      var kind :| kind in loose && kind != Approval;
      var email := SomeAddress(c);
      var steps := ApprovalUndone(kind, c, email, loose);
    }
  }

  lemma AllKept(requests: nat, steps: seq<Step>, c: Config, loose: set<Kind>)
    requires loose <= {Approval}
    ensures KeepsApproval(requests, steps, c, loose)
  {
    hide Run, Keeps, Sound;
    StartSound(requests, c);
    if Run(Start(requests), steps, c, loose).Some? {
      forall k | 0 <= k <= |steps|
        ensures Run(Start(requests), steps[..k], c, loose).Some?
        ensures Keeps(Run(Start(requests), steps[..k], c, loose).value.users,
                      Run(Start(requests), steps, c, loose).value.users)
      {
        assert steps[..k] + steps[k..] == steps;
        RunKeeps(Start(requests), steps[..k], steps[k..], c, loose);
      }
    }
  }

  /** Two logins read the same code. */
  lemma CodeUsedTwice(c: Config, email: string, loose: set<Kind>) returns (steps: seq<Step>)
    requires Ordinary(c, email) && Login in loose
    ensures !CodesOnce(2, steps, c, loose)
  {
    hide Text.Normal, ValidEmail, Run;
    var row, q := FirstRow(email, c), HeldCopy(Login, email, c);
    var log := [CodeSaved(email, 0)];
    steps := HoldsCopy(Login, c, email, loose);
    var read := ReadForLogin(0, email, "h", 0);
    assert Do(Pair(row, log, Idle, q), read, c).requests == [q, q];
    steps := ReadsAndSaves(Start(2), steps, row, log, q, read, q, c, loose);
    Overwrites(q.row, log + [LoggedIn(email)], q, c, loose);
    steps := Then(Start(2), steps, Pair(q.row, log + [LoggedIn(email)], Idle, q), Save(1, Answered), c, loose);
    NotArmed(email, log + [LoggedIn(email)] + [LoggedIn(email)]);
  }

  lemma NotArmed(email: string, log: seq<Event>)
    requires |log| >= 2 && log[|log| - 1] == log[|log| - 2] == LoggedIn(email)
    ensures !LoginsFollowCodes(log)
  {
    assert log[..|log| - 1][|log| - 2] == LoggedIn(email);
  }

  /** A row whose first code is still good, whatever became of its approval. */
  predicate Reusable(row: User, email: string, c: Config) {
    row in [FirstRow(email, c), ApprovedRow(FirstRow(email, c))]
  }

  /** An approval that overlaps a login puts the used code back. */
  lemma CodePutBack(steps: seq<Step>, row: User, log: seq<Event>, c: Config, email: string, loose: set<Kind>)
    returns (longer: seq<Step>)
    requires Ordinary(c, email) && Approval in loose && Reusable(row, email, c)
    requires Run(Start(2), steps, c, loose) == Some(Pair(row, log, Idle, Idle))
    ensures Run(Start(2), longer, c, loose) ==
            Some(Pair(ApprovedRow(row), log + [LoggedIn(email)], Idle, Idle))
  {
    hide Text.Normal, ValidEmail, Run;
    var q, held := Holding(Approval, ApprovedRow(row), Some(row)), Holding(Login, LoginRow(row, c), Some(row));
    var idle := Pair(row, log, Idle, Idle);
    assert Do(idle, ReadForApproval(1, email), c).requests == [Idle, q];
    longer := Then(Start(2), steps, idle, ReadForApproval(1, email), c, loose);
    var read := ReadForLogin(0, email, "h", 0);
    assert Do(Pair(row, log, Idle, q), read, c).requests == [held, q];
    longer := ReadsAndSaves(Start(2), longer, row, log, q, read, held, c, loose);
    Overwrites(held.row, log + [LoggedIn(email)], q, c, loose);
    longer := Then(Start(2), longer, Pair(held.row, log + [LoggedIn(email)], Idle, q), Save(1, Answered), c, loose);
    assert log + [LoggedIn(email)] + [] == log + [LoggedIn(email)];
  }

  /** One code and any number of logins, two requests at a time. */
  lemma {:induction false} CodeReused(n: nat, c: Config, email: string, loose: set<Kind>)
    returns (steps: seq<Step>, log: seq<Event>, row: User)
    requires Ordinary(c, email) && Approval in loose
    ensures Reusable(row, email, c) && Run(Start(2), steps, c, loose) == Some(Pair(row, log, Idle, Idle))
    ensures LoginsSince(log, email) == n
    ensures n >= 2 ==> |log| >= 2 && log[|log| - 1] == log[|log| - 2] == LoggedIn(email)
    ensures n >= 1 ==> |log| >= 1 && log[|log| - 1] == LoggedIn(email)
  {
    hide Text.Normal, ValidEmail, Run, Ordinary;
    if n == 0 {
      row, log := FirstRow(email, c), [CodeSaved(email, 0)];
      steps := FirstCode(c, email, loose);
      var s := Pair(row, log, Idle, HeldCopy(Rollback, email, c));
      assert Do(s, Delivered(1), c).requests == [Idle, Idle];
      steps := Then(Start(2), steps, s, Delivered(1), c, loose);
    } else {
      steps, log, row := CodeReused(n - 1, c, email, loose);
      steps := CodePutBack(steps, row, log, c, email, loose);
      SinceGrows(log, LoggedIn(email), email);
      row, log := ApprovedRow(row), log + [LoggedIn(email)];
    }
  }

  lemma CodesNotOnce(c: Config, loose: set<Kind>) returns (steps: seq<Step>)
    requires WithDefaults(c) && !(loose <= {Code, Rollback})
    ensures !CodesOnce(2, steps, c, loose)
  {
    hide Run, LoginsFollowCodes, Ordinary, LoginsSince, Text.Normal, Reusable;
    var email := SomeAddress(c);
    if Approval !in loose {
      var kind :| kind in loose && kind !in {Code, Rollback};
      assert kind == Login;
      steps := CodeUsedTwice(c, email, loose);
    } else {
      var log, row;
      steps, log, row := CodeReused(2, c, email, loose);
      NotArmed(email, log);
    }
  }

  /** Between two logins of a user a code was saved, in every run, exactly when no login and no
      approval may be stale. */
  lemma CodesOnceExactlyWhen(c: Config, loose: set<Kind>)
    requires WithDefaults(c)
    ensures (forall requests: nat, steps :: CodesOnce(requests, steps, c, loose)) <==> loose <= {Code, Rollback}
  {
    hide Run, LoginsFollowCodes;
    if loose <= {Code, Rollback} {
      forall requests: nat, steps ensures CodesOnce(requests, steps, c, loose) {
        if Run(Start(requests), steps, c, loose).Some? { AllArmed(requests, steps, c, loose); }
      }
    } else {
      var steps := CodesNotOnce(c, loose);
    }
  }

  lemma AllArmed(requests: nat, steps: seq<Step>, c: Config, loose: set<Kind>)
    requires loose <= {Code, Rollback} && Run(Start(requests), steps, c, loose).Some?
    ensures LoginsFollowCodes(Run(Start(requests), steps, c, loose).value.log)
  {
    hide Run, Sound;
    StartSound(requests, c);
    RunArms(Start(requests), steps, c, loose);
  }

  lemma LoginsNotBounded(c: Config, loose: set<Kind>) returns (steps: seq<Step>)
    requires WithDefaults(c) && Approval in loose
    ensures !LoginsBounded(2, steps, c, loose)
  {
    hide Run, Ordinary, LoginsSince, Text.Normal, Reusable;
    var email := SomeAddress(c);
    var log, row;
    steps, log, row := CodeReused(3, c, email, loose);
    assert LoginsSince(Run(Start(2), steps, c, loose).value.log, email) == 3;
  }

  /** With that many requests in flight a code opens at most as many sessions, in every run, exactly
      when no approval may be stale; otherwise there is no bound (`CodeReused`). */
  lemma LoginsBoundedExactlyWhen(c: Config, loose: set<Kind>)
    requires WithDefaults(c)
    ensures (forall requests: nat, steps :: LoginsBounded(requests, steps, c, loose)) <==> Approval !in loose
  {
    hide Run, LoginsSince;
    if Approval !in loose {
      forall requests: nat, steps ensures LoginsBounded(requests, steps, c, loose) {
        if Run(Start(requests), steps, c, loose).Some? {
          forall e ensures LoginsSince(Run(Start(requests), steps, c, loose).value.log, e) <= requests {
            AllBounded(requests, steps, c, loose, e);
          }
        }
      }
    } else {
      var steps := LoginsNotBounded(c, loose);
    }
  }

  lemma AllBounded(requests: nat, steps: seq<Step>, c: Config, loose: set<Kind>, email: string)
    requires Approval !in loose && Run(Start(requests), steps, c, loose).Some?
    ensures LoginsSince(Run(Start(requests), steps, c, loose).value.log, email) <= requests
  {
    hide Run, Sound;
    StartSound(requests, c);
    CountNone(Start(requests).requests, p => LoggingIn(p, email));
    RunSound(Start(requests), steps, c, loose);
    RunBounds(Start(requests), steps, c, loose, email);
  }

  /** A stale save of any kind brings two codes too close to each other. */
  lemma CodesTooClose(kind: Kind, c: Config, email: string, loose: set<Kind>) returns (steps: seq<Step>)
    requires Ordinary(c, email) && kind in loose && !c.dev
    ensures !CodesSpaced(2, steps, c, loose)
  {
    hide Text.Normal, ValidEmail, Run;
    var row, q, at := FirstRow(email, c), HeldCopy(kind, email, c), Later(c);
    var log := [CodeSaved(email, 0)];
    steps := HoldsCopy(kind, c, email, loose);
    var held := HeldCopy(Code, email, c);
    var read := ReadForCode(0, email, "i", "h", at);
    assert Do(Pair(row, log, Idle, q), read, c).requests == [held, q];
    steps := ReadsAndSaves(Start(2), steps, row, log, q, read, held, c, loose);
    var again := log + [CodeSaved(email, at)];
    var s := Pair(held.row, again, NextPhase(held, Answered), q);
    assert Do(s, Delivered(0), c).requests == [Idle, q];
    steps := Then(Start(2), steps, s, Delivered(0), c, loose);
    Overwrites(held.row, again, q, c, loose);
    steps := Then(Start(2), steps, Pair(held.row, again, Idle, q), Save(1, Answered), c, loose);
    if kind == Code {
      TooClose(again, [], email, at, c.rateLimit);
      assert again + [] == again;
    } else {
      steps := RequestsAgain(steps, kind, again, c, email, loose);
    }
  }

  /** The copy has put back the instant of the first request. */
  lemma RequestsAgain(steps: seq<Step>, kind: Kind, log: seq<Event>, c: Config, email: string, loose: set<Kind>)
    returns (longer: seq<Step>)
    requires Ordinary(c, email) && kind != Code && log != [] && log[|log| - 1] == CodeSaved(email, Later(c)) && !c.dev
    requires var q := HeldCopy(kind, email, c);
             Run(Start(2), steps, c, loose) == Some(Pair(q.row, log + EventsOf(q, Answered), Idle, Idle))
    ensures !CodesSpaced(2, longer, c, loose)
  {
    hide Text.Normal, ValidEmail, Run, Spaced;
    var q, at := HeldCopy(kind, email, c), Later(c);
    var events := EventsOf(q, Answered);
    var s := Pair(q.row, log + events, Idle, Idle);
    var read := ReadForCode(0, email, "i", "h", at);
    var held := Holding(Code, CodeRow(q.row, "h", at, c), Some(q.row));
    assert Do(s, read, c).requests == [held, Idle];
    longer := ReadsAndSaves(Start(2), steps, q.row, log + events, Idle, read, held, c, loose);
    TooClose(log, events, email, at, c.rateLimit);
    assert EventsOf(held, Answered) == [CodeSaved(email, at)];
  }

  lemma TooClose(log: seq<Event>, events: seq<Event>, email: string, at: int, gap: int)
    requires gap > 0 && log != [] && log[|log| - 1] == CodeSaved(email, at) && events in [[], [LoggedIn(email)]]
    ensures !Spaced(log + events + [CodeSaved(email, at)], gap)
  {
    var all := log + events + [CodeSaved(email, at)];
    assert all[..|all| - 1] == log + events;
    if events == [] { assert log + events == log; } else { assert (log + events)[..|log|] == log; }
    assert LastSaved(all[..|all| - 1], email) == Some(at);
  }

  /** Codes of one email are the rate limit apart, in every run, exactly when no save may be stale. */
  lemma CodesSpacedExactlyWhen(c: Config, loose: set<Kind>)
    requires WithDefaults(c) && !c.dev
    ensures (forall requests: nat, steps :: CodesSpaced(requests, steps, c, loose)) <==> loose == {}
  {
    hide Run, Sound, SpacedRows, Spaced, Ordinary, Text.Normal;
    if loose == {} {
      forall requests: nat, steps ensures CodesSpaced(requests, steps, c, loose) {
        if Run(Start(requests), steps, c, loose).Some? { AllSpaced(requests, steps, c); }
      }
    } else {
      var kind :| kind in loose;
      var email := SomeAddress(c);
      var steps := CodesTooClose(kind, c, email, loose);
    }
  }

  lemma AllSpaced(requests: nat, steps: seq<Step>, c: Config)
    requires !c.dev && Run(Start(requests), steps, c, {}).Some?
    ensures Spaced(Run(Start(requests), steps, c, {}).value.log, c.rateLimit)
  {
    hide Run, Sound;
    StartSound(requests, c);
    RunSpaces(Start(requests), steps, c);
  }

  // ----- what the saves may rely on -----

  /** A session outlives whatever the requests do, as long as no save but an approval is stale. */
  lemma SessionHoldsInRuns(signer: Token.Signer, requests: nat, steps: seq<Step>, k: nat, c: Config, loose: set<Kind>,
                           email: string, signedAt: int, now: int)
    requires loose <= {Approval} && k <= |steps| && Run(Start(requests), steps, c, loose).Some?
    requires Run(Start(requests), steps[..k], c, loose).Some?
    requires var users := Run(Start(requests), steps[..k], c, loose).value.users;
             && email in users && users[email].approved
             && var claims := SessionClaims(signer, users[email], signedAt);
                signer.unmarshal(signer.marshal(claims)) == Some(claims) && now < claims.expires * Clock.SECOND
    ensures var users := Run(Start(requests), steps[..k], c, loose).value.users;
            var later := Run(Start(requests), steps, c, loose).value.users;
            var claims := Token.Verify(signer, Token.Sign(signer, SessionClaims(signer, users[email], signedAt)), now);
            claims.Some? && email in later && later[email].id == claims.value.subject && later[email].approved
  {
    hide Run, Keeps, Token.Sign, Token.Verify, SessionClaims;
    AllKept(requests, steps, c, loose);
    var users := Run(Start(requests), steps[..k], c, loose).value.users;
    SessionHolds(signer, users, Run(Start(requests), steps, c, loose).value.users, email, signedAt, now);
  }

  /** Between two logins of a user a code was saved. */
  lemma CodeBetweenLoginsInRuns(requests: nat, steps: seq<Step>, c: Config, loose: set<Kind>, i: nat, j: nat)
    requires loose <= {Code, Rollback} && Run(Start(requests), steps, c, loose).Some?
    requires var log := Run(Start(requests), steps, c, loose).value.log;
             i < j < |log| && log[i].LoggedIn? && log[j] == log[i]
    ensures var log := Run(Start(requests), steps, c, loose).value.log;
            exists k :: i < k < j && log[k].CodeSaved? && log[k].email == log[i].email
  {
    hide Run, LoginsFollowCodes;
    AllArmed(requests, steps, c, loose);
    CodeBetweenLogins(Run(Start(requests), steps, c, loose).value.log, i, j);
  }

  /** Any two codes of a user are the rate limit apart. */
  lemma CodesApartInRuns(requests: nat, steps: seq<Step>, c: Config, i: nat, j: nat)
    requires !c.dev && c.rateLimit > 0 && Run(Start(requests), steps, c, {}).Some?
    requires var log := Run(Start(requests), steps, c, {}).value.log;
             i < j < |log| && log[i].CodeSaved? && log[j].CodeSaved? && log[i].email == log[j].email
    ensures var log := Run(Start(requests), steps, c, {}).value.log;
            log[j].at - log[i].at >= c.rateLimit
  {
    hide Run, Spaced;
    AllSpaced(requests, steps, c);
    CodesApart(Run(Start(requests), steps, c, {}).value.log, c.rateLimit, i, j);
  }
}
