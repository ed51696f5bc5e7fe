/** OTP login and approval: packages/go/auth/service.go:83-272, over
    packages/go/auth/postgres_repository.go:62-161.  Here one call runs at a time;
    `AuthConcurrency` lets the reads and saves of several calls interleave. */
module Auth {
  import opened Wrappers
  import Clock
  import Text
  import Token

  datatype Status = Active | PendingApproval

  datatype User = User(
    id: string,
    email: string,
    role: string,
    status: Status,
    verified: bool,
    approved: bool,
    otpHash: string,
    otpExpires: int,
    otpRequested: Option<int>)

  type Users = map<string, User>

  /** The configuration after the defaults of NewServiceWithDelivery. */
  datatype Config = Config(admin: string, otpTtl: int, rateLimit: int, dev: bool)

  function Configured(admin: string, otpTtl: int, rateLimit: int, dev: bool): (c: Config)
    ensures c.otpTtl > 0 && c.rateLimit > 0
  {
    Config(admin, if otpTtl <= 0 then 10 * Clock.MINUTE else otpTtl,
           if rateLimit <= 0 then Clock.MINUTE else rateLimit, dev)
  }

  predicate ValidEmail(email: string) {
    email != "" && '@' in email
  }

  /** applyAdminPolicy. */
  function UnderPolicy(u: User, c: Config): (p: User)
    ensures p.status == Active <==> p.approved
    ensures u.approved ==> p.approved
    ensures p == u.(role := p.role, status := p.status, approved := p.approved)
  {
    if Text.Normal(u.email) != Text.Normal(c.admin) then
      u.(role := if u.role == "" then "user" else u.role,
         status := if u.approved then Active else PendingApproval)
    else u.(role := "admin", approved := true, status := Active)
  }

  /** newUser, under the policy. */
  function NewUser(id: string, email: string, c: Config): User {
    UnderPolicy(User(id, email, "user", PendingApproval, false, false, "", 0, None), c)
  }

  /** The admin is whoever signs up or logs in with the configured email; nobody else is approved or
      becomes one, and everybody else keeps the role they have. */
  lemma PolicyMeaning(u: User, id: string, c: Config)
    ensures var admin := Text.Normal(u.email) == Text.Normal(c.admin);
            var p, first := UnderPolicy(u, c), NewUser(id, u.email, c);
            && (first.role == "admin" <==> admin) && (first.role != "admin" ==> first.role == "user")
            && (first.approved <==> admin) && (first.status == Active <==> admin)
            && first.id == id && first.email == u.email && !first.verified
            && first.otpHash == "" && first.otpExpires == 0 && first.otpRequested == None
            && (p.approved <==> u.approved || admin)
            && (admin ==> p.role == "admin")
            && (!admin && u.role != "" ==> p.role == u.role)
            && (!admin && u.role == "" ==> p.role == "user")
  {
    hide Text.Normal;
  }

  function WithCode(u: User, hash: string, now: int, c: Config): User {
    u.(otpHash := hash, otpExpires := now + c.otpTtl, otpRequested := Some(now))
  }

  function WithoutCode(u: User): User {
    u.(otpHash := "", otpExpires := 0)
  }

  /** The row that RequestOTP saves, from the row that it read. */
  function CodeRow(read: User, hash: string, now: int, c: Config): User {
    WithCode(UnderPolicy(read, c), hash, now, c)
  }

  /** The row that VerifyOTP saves. */
  function LoginRow(read: User, c: Config): User {
    WithoutCode(UnderPolicy(read, c).(verified := true))
  }

  /** The row that ApproveUser saves. */
  function ApprovedRow(read: User): User {
    read.(approved := true, status := Active)
  }

  /** How SaveUser stores a row: under its normalised email. */
  function StoredRow(u: User): User {
    u.(email := Text.Normal(u.email), role := if u.role == "" then "user" else u.role)
  }

  function Saved(users: Users, u: User): Users {
    users[Text.Normal(u.email) := StoredRow(u)]
  }

  function AfterSave(users: Users, u: User, reply: Reply): Users {
    if reply == NotSent then users else Saved(users, u)
  }

  /** Exactly when RequestOTP refuses, by the row that it finds. */
  ghost predicate RequestRefused(users: Users, email: string, now: int, lookup: bool, c: Config, r: OtpReply) {
    var known := lookup && email in users && '@' in email && !c.dev;
    && (r == BadInput <==> '@' !in email)
    && (r == StillActive <==> known && users[email].otpHash != "" && now < users[email].otpExpires)
    && (r == RateLimited <==>
          known && r != StillActive && users[email].otpRequested.Some? &&
          now - users[email].otpRequested.value < c.rateLimit)
  }

  /** The row holds the code with this hash. */
  ghost predicate CodeStands(users: Users, email: string, hash: string, now: int, c: Config) {
    email in users && users[email].otpHash == hash && users[email].otpExpires == now + c.otpTtl
  }

  /** The row that is found for the email, or that of a new user. */
  function RowRead(users: Users, email: string, id: string, c: Config): User {
    if email in users then users[email] else NewUser(id, email, c)
  }

  ghost predicate NoCode(users: Users, email: string) {
    email in users && users[email].otpHash == "" && users[email].otpExpires == 0
  }

  ghost predicate OthersKept(before: Users, after: Users, email: string) {
    forall e :: e != email && e in after ==> e in before && after[e] == before[e]
  }

  /** One user was approved, and nothing else about anybody changed. */
  ghost predicate ApprovedAt(before: Users, after: Users, email: string) {
    && email in before && after.Keys == before.Keys && OthersKept(before, after, email)
    && after[email].approved && after[email].status == Active
    && after[email] == before[email].(approved := true, status := Active, role := after[email].role)
    && (before[email].role != "" ==> after[email].role == before[email].role)
  }

  datatype OtpReply = Issued | StillActive | RateLimited | BadInput | Broken

  datatype LoginReply = Session(user: User, token: string) | Pending(user: User) | WrongOtp | BadLogin | BrokenLogin

  // ----- the history of codes -----

  /** A code was saved for an email at an instant, or a login used the code up. */
  datatype Event = CodeSaved(email: string, at: int) | LoggedIn(email: string)

  /** When the last code of an email was saved. */
  function LastSaved(log: seq<Event>, email: string): Option<int> {
    if log == [] then None
    else
      var last := log[|log| - 1];
      if last.CodeSaved? && last.email == email then Some(last.at) else LastSaved(log[..|log| - 1], email)
  }

  /** A code was saved for the email since its last login. */
  predicate Armed(log: seq<Event>, email: string) {
    log != [] &&
    var last := log[|log| - 1];
    if last.email == email then last.CodeSaved? else Armed(log[..|log| - 1], email)
  }

  ghost predicate LoginsFollowCodes(log: seq<Event>) {
    forall i :: 0 <= i < |log| && log[i].LoggedIn? ==> Armed(log[..i], log[i].email)
  }

  /** Codes of one email are at least `gap` apart. */
  ghost predicate Spaced(log: seq<Event>, gap: int) {
    forall i :: 0 <= i < |log| && log[i].CodeSaved? && LastSaved(log[..i], log[i].email).Some? ==>
      log[i].at - LastSaved(log[..i], log[i].email).value >= gap
  }

  // ----- what every call keeps -----

  ghost predicate GoodUsers(users: Users) {
    && (forall e :: e in users ==> users[e].email == e && Text.Normal(e) == e)
    && (forall e :: e in users ==> (users[e].status == Active <==> users[e].approved))
    && (forall e, f :: e in users && f in users && users[e].id == users[f].id ==> e == f)
  }

  ghost predicate GoodLog(users: Users, log: seq<Event>, c: Config) {
    && (forall e :: e in users && users[e].otpHash != "" ==> Armed(log, e))
    && (forall e :: e in users ==> users[e].otpRequested == LastSaved(log, e))
    && (forall e :: e !in users ==> LastSaved(log, e) == None)
    && LoginsFollowCodes(log) && (c.dev || Spaced(log, c.rateLimit))
  }

  /** Users stay, under their id, and approval is never lost. */
  ghost predicate Keeps(before: Users, after: Users) {
    forall e :: e in before ==> e in after && after[e].id == before[e].id && (before[e].approved ==> after[e].approved)
  }

  /** Saving a changed user, or a new one under a fresh id. */
  ghost predicate MaySave(users: Users, u: User) {
    && Text.Normal(u.email) == u.email && (u.status == Active <==> u.approved)
    && (u.email in users ==> u.id == users[u.email].id && (users[u.email].approved ==> u.approved))
    && (u.email !in users ==> forall e :: e in users ==> users[e].id != u.id)
  }

  lemma SaveKeeps(users: Users, u: User, reply: Reply)
    requires GoodUsers(users) && MaySave(users, u)
    ensures GoodUsers(AfterSave(users, u, reply)) && Keeps(users, AfterSave(users, u, reply))
  {
    hide Text.Normal;
  }

  lemma CodeLogged(users: Users, log: seq<Event>, c: Config, u: User, now: int)
    requires GoodUsers(users) && GoodLog(users, log, c) && MaySave(users, u) && u.otpRequested == Some(now)
    requires u.email in users && users[u.email].otpRequested.Some? && !c.dev ==>
               now - users[u.email].otpRequested.value >= c.rateLimit
    ensures GoodLog(Saved(users, u), log + [CodeSaved(u.email, now)], c)
  {
    hide Text.Normal;
    var longer := log + [CodeSaved(u.email, now)];
    LogGrows(log, CodeSaved(u.email, now));
    assert Spaced(log, c.rateLimit) ==> Spaced(longer, c.rateLimit) || c.dev by {
      forall i | 0 <= i < |log| ensures longer[..i] == log[..i] && longer[i] == log[i] {}
      assert longer[..|log|] == log;
    }
    assert LoginsFollowCodes(longer) by {
      forall i | 0 <= i < |log| ensures longer[..i] == log[..i] && longer[i] == log[i] {}
    }
  }

  lemma LogGrows(log: seq<Event>, e: Event)
    ensures forall email :: Armed(log + [e], email) <==> if e.email == email then e.CodeSaved? else Armed(log, email)
    ensures forall email :: LastSaved(log + [e], email) ==
                            if e.CodeSaved? && e.email == email then Some(e.at) else LastSaved(log, email)
  {
    assert (log + [e])[..|log|] == log;
  }

  /** Saving a user without touching the codes, or dropping the code. */
  lemma CodeKept(users: Users, log: seq<Event>, c: Config, u: User, reply: Reply)
    requires GoodUsers(users) && GoodLog(users, log, c) && MaySave(users, u) && u.email in users
    requires u.otpHash in {"", users[u.email].otpHash} && u.otpRequested == users[u.email].otpRequested
    ensures GoodLog(AfterSave(users, u, reply), log, c)
  {
    hide Text.Normal;
  }

  lemma LoginLogged(users: Users, log: seq<Event>, c: Config, u: User)
    requires GoodUsers(users) && GoodLog(users, log, c) && MaySave(users, u) && u.email in users
    requires users[u.email].otpHash != "" && u.otpHash == "" && u.otpRequested == users[u.email].otpRequested
    ensures GoodLog(Saved(users, u), log + [LoggedIn(u.email)], c)
  {
    hide Text.Normal;
    var longer := log + [LoggedIn(u.email)];
    LogGrows(log, LoggedIn(u.email));
    forall i | 0 <= i < |log| ensures longer[..i] == log[..i] && longer[i] == log[i] {}
    assert longer[..|log|] == log;
  }

  /** Between two logins of a user a new code was saved. */
  lemma CodeBetweenLogins(log: seq<Event>, i: nat, j: nat)
    requires LoginsFollowCodes(log) && i < j < |log| && log[i].LoggedIn? && log[j] == log[i]
    ensures exists k :: i < k < j && log[k].CodeSaved? && log[k].email == log[i].email
  {
    var k := ArmedSince(log[..j], log[i].email, i);
    assert log[..j][k] == log[k];
  }

  lemma {:induction false} ArmedSince(log: seq<Event>, email: string, i: nat) returns (k: nat)
    requires Armed(log, email) && i < |log| && log[i] == LoggedIn(email)
    ensures i < k < |log| && log[k].CodeSaved? && log[k].email == email
  {
    var n := |log| - 1;
    if log[n].email == email { k := n; } else { k := ArmedSince(log[..n], email, i); }
  }

  /** Any two codes of one email lie apart, not only neighbours. */
  lemma CodesApart(log: seq<Event>, gap: int, i: nat, j: nat)
    requires Spaced(log, gap) && gap > 0 && i < j < |log|
    requires log[i].CodeSaved? && log[j].CodeSaved? && log[i].email == log[j].email
    ensures log[j].at - log[i].at >= gap
  {
    LaterCode(log, gap, i, j, log[i].email);
  }

  lemma {:induction false} LaterCode(log: seq<Event>, gap: int, i: nat, j: nat, email: string)
    requires Spaced(log, gap) && gap > 0 && i < j <= |log| && log[i].CodeSaved? && log[i].email == email
    ensures LastSaved(log[..j], email).Some? && LastSaved(log[..j], email).value >= log[i].at
    decreases j
  {
    assert log[..j][..j - 1] == log[..j - 1] && log[..j][j - 1] == log[j - 1];
    if i == j - 1 {
    } else {
      LaterCode(log, gap, i, j - 1, email);
    }
  }

  // ----- the service -----

  class Service {
    const cfg: Config
    /** The keyed hash of an email and a code, in hexadecimal. */
    const hash: (string, string) -> string
    const signer: Token.Signer
    var users: Users
    ghost var log: seq<Event>

    /** NewServiceWithDelivery: times that are not positive get their defaults. */
    constructor (admin: string, otpTtl: int, rateLimit: int, dev: bool, hash: (string, string) -> string,
                 signer: Token.Signer)
      ensures this.hash == hash && this.signer == signer && cfg.admin == admin && cfg.dev == dev
      ensures cfg.otpTtl == if otpTtl > 0 then otpTtl else 600_000_000_000
      ensures cfg.rateLimit == if rateLimit > 0 then rateLimit else 60_000_000_000
      ensures users == map[] && log == [] && Valid()
    {
      cfg, this.hash, this.signer := Configured(admin, otpTtl, rateLimit, dev), hash, signer;
      users, log := map[], [];
    }

    ghost predicate Valid()
      reads this
    {
      cfg.otpTtl > 0 && cfg.rateLimit > 0 && GoodUsers(users) && GoodLog(users, log, cfg)
    }

    /** SaveUser: users are stored under their normalised email. */
    method SaveUser(u: User, reply: Reply) returns (ok: bool)
      modifies this`users
      ensures users == AfterSave(old(users), u, reply)
      ensures ok <==> reply == Answered
    {
      if reply != NotSent { users := Saved(users, u); }
      ok := reply == Answered;
    }

    /** RequestOTP.  `id` and `code` are what the random source gives, `deliver` is None without a
        delivery channel, and `rollback` is what becomes of the save after a failed delivery. */
    method RequestOtp(
      address: string, now: int, lookup: bool, id: Option<string>, code: Option<string>, save: Reply,
      deliver: Option<bool>, rollback: Reply)
      returns (r: OtpReply)
      requires Valid() && (id.Some? ==> forall e :: e in users ==> users[e].id != id.value)
      modifies this
      ensures Valid() && Keeps(old(users), users)
      ensures RequestRefused(old(users), Text.Normal(address), now, lookup, cfg, r)
      ensures r in {BadInput, StillActive, RateLimited} ==> users == old(users) && log == old(log)
      ensures log == old(log) || (log == old(log) + [CodeSaved(Text.Normal(address), now)] && r in {Issued, Broken})
      ensures r == Issued ==>
                && log == old(log) + [CodeSaved(Text.Normal(address), now)] && code.Some? && deliver != Some(false)
                && CodeStands(users, Text.Normal(address), hash(Text.Normal(address), code.value), now, cfg)
      ensures r == Issued ==>
                var email := Text.Normal(address);
                var read := RowRead(old(users), email, if id.Some? then id.value else "", cfg);
                code.Some? && users == Saved(old(users), CodeRow(read, hash(email, code.value), now, cfg))
      ensures log != old(log) && save == Answered && deliver == Some(false) && rollback != NotSent ==>
                NoCode(users, Text.Normal(address))
      ensures OthersKept(old(users), users, Text.Normal(address))
    {
      hide Text.Normal, UnderPolicy, GoodUsers, GoodLog, Keeps;
      var email := Text.Normal(address);
      Text.NormalMeaning(address);
      KeepsItself(users);
      if !ValidEmail(email) { return BadInput; }
      if !lookup || (email !in users && id.None?) { return Broken; }
      GoodEmail(users, email);
      var user := UnderPolicy(RowRead(users, email, if id.Some? then id.value else "", cfg), cfg);
      if user.otpHash != "" && now < user.otpExpires && !cfg.dev { return StillActive; }
      if user.otpRequested.Some? && now - user.otpRequested.value < cfg.rateLimit && !cfg.dev { return RateLimited; }
      if code.None? { return Broken; }
      r := IssueCode(user, now, code.value, save, deliver, rollback);
    }

    /** RequestOTP, from the new code on. */
    method IssueCode(u: User, now: int, code: string, save: Reply, deliver: Option<bool>, rollback: Reply)
      returns (r: OtpReply)
      requires Valid() && MaySave(users, u)
      requires u.email in users && users[u.email].otpRequested.Some? && !cfg.dev ==>
                 now - users[u.email].otpRequested.value >= cfg.rateLimit
      modifies this
      ensures Valid() && Keeps(old(users), users)
      ensures r in {Issued, Broken}
      ensures log == old(log) + if save == NotSent then [] else [CodeSaved(u.email, now)]
      ensures r == Issued <==> save == Answered && deliver != Some(false)
      ensures save != NotSent && deliver != Some(false) ==>
                && users == Saved(old(users), WithCode(u, hash(u.email, code), now, cfg))
                && CodeStands(users, u.email, hash(u.email, code), now, cfg)
      ensures save == Answered && deliver == Some(false) && rollback != NotSent ==> NoCode(users, u.email)
      ensures OthersKept(old(users), users, u.email)
    {
      hide Text.Normal, GoodUsers, GoodLog, Keeps;
      KeepsItself(users);
      var user := WithCode(u, hash(u.email, code), now, cfg);
      SaveKeeps(users, user, save);
      CodeLogged(users, log, cfg, user, now);
      ghost var before := users;
      var ok := SaveUser(user, save);
      if save != NotSent { log := log + [CodeSaved(u.email, now)]; }
      if !ok { return Broken; }
      if deliver == Some(false) {
        user := WithoutCode(user);
        SaveKeeps(users, user, rollback);
        CodeKept(users, log, cfg, user, rollback);
        KeepsOn(before, users, AfterSave(users, user, rollback));
        var _ := SaveUser(user, rollback);
        return Broken;
      }
      r := Issued;
    }

    /** VerifyOTP.  `signedAt` is when the session begins. */
    method VerifyOtp(address: string, otp: string, now: int, lookup: bool, save: Reply, signedAt: int)
      returns (r: LoginReply)
      requires Valid()
      modifies this
      ensures Valid() && Keeps(old(users), users)
      ensures var email, code := Text.Normal(address), Text.Trim(otp);
              && (r.Session? || r.Pending? <==>
                    && '@' in email && code != "" && lookup && email in old(users)
                    && old(users)[email].otpHash == hash(email, code) != "" && now <= old(users)[email].otpExpires
                    && save == Answered)
              && (r.Session? || r.Pending? ==>
                    && log == old(log) + [LoggedIn(email)] && email in users && r.user == users[email]
                    && NoCode(users, email) && users[email].verified
                    && (r.Session? <==> users[email].approved))
              && (r.Session? ==> r.token == Token.Sign(signer, SessionClaims(signer, r.user, signedAt)))
              && (r.Session? || r.Pending? ==> users == Saved(old(users), LoginRow(old(users)[email], cfg)))
              && (!r.Session? && !r.Pending? ==> log == old(log))
              && OthersKept(old(users), users, email)
              && (r.WrongOtp? || r.BadLogin? ==> users == old(users))
    {
      hide Text.Normal, Text.Trim, UnderPolicy, GoodUsers, GoodLog, Keeps, Token.Sign;
      var email, code := Text.Normal(address), Text.Trim(otp);
      Text.NormalMeaning(address);
      KeepsItself(users);
      if !ValidEmail(email) || code == "" { return BadLogin; }
      if !lookup || email !in users { return BrokenLogin; }
      GoodEmail(users, email);
      var user := users[email];
      if user.otpHash == "" || now > user.otpExpires { return WrongOtp; }
      if user.otpHash != hash(email, code) { return WrongOtp; }
      user := LoginRow(user, cfg);
      SaveKeeps(users, user, save);
      CodeKept(users, log, cfg, user, save);
      LoginLogged(users, log, cfg, user);
      var ok := SaveUser(user, save);
      if !ok { return BrokenLogin; }
      log := log + [LoggedIn(email)];
      var stored := users[email];
      if !stored.approved { return Pending(stored); }
      r := Session(stored, Token.Sign(signer, SessionClaims(signer, stored, signedAt)));
    }

    /** ApproveUser. */
    method ApproveUser(id: string, lookup: bool, save: Reply) returns (ok: bool)
      requires Valid()
      modifies this
      ensures Valid() && Keeps(old(users), users) && log == old(log)
      ensures ok <==> lookup && save == Answered && exists e :: e in old(users) && old(users)[e].id == Text.Trim(id)
      ensures ok ==>
                exists e :: e in users && users[e].id == Text.Trim(id) && users[e].approved && users[e].status == Active
      ensures if lookup && save != NotSent && exists e :: e in old(users) && old(users)[e].id == Text.Trim(id)
              then exists e :: e in old(users) && old(users)[e].id == Text.Trim(id) && ApprovedAt(old(users), users, e)
              else users == old(users)
    {
      hide Text.Normal, Text.Trim, GoodUsers, GoodLog, Keeps;
      KeepsItself(users);
      if !lookup || !exists e :: e in users && users[e].id == Text.Trim(id) { return false; }
      var e :| e in users && users[e].id == Text.Trim(id);
      GoodEmail(users, e);
      var user := ApprovedRow(users[e]);
      SaveKeeps(users, user, save);
      CodeKept(users, log, cfg, user, save);
      ok := SaveUser(user, save);
      assert save != NotSent ==> e in users && users[e].approved;
    }

    /** Authenticate. */
    method Authenticate(token: string, now: int) returns (r: Option<User>)
      requires Valid()
      ensures r.Some? ==>
                && Token.Verify(signer, token, now).Some? && r.value.approved
                && r.value.id == Token.Verify(signer, token, now).value.subject && r.value.email in users
                && users[r.value.email] == r.value
      ensures r.None? ==>
                Token.Verify(signer, token, now).None? ||
                forall e :: e in users && users[e].id == Token.Verify(signer, token, now).value.subject ==>
                              !users[e].approved
    {
      hide Token.Verify, Text.Normal;
      var claims := Token.Verify(signer, token, now);
      if claims.None? || !exists e :: e in users && users[e].id == claims.value.subject { return None; }
      var e :| e in users && users[e].id == claims.value.subject;
      if !users[e].approved { return None; }
      r := Some(users[e]);
    }
  }

  function SessionClaims(s: Token.Signer, u: User, now: int): Token.Claims {
    Token.ClaimsOf(s, u.id, u.email, u.role, u.approved, now)
  }

  lemma GoodEmail(users: Users, email: string)
    requires GoodUsers(users)
    ensures email in users ==> users[email].email == email && Text.Normal(email) == email
  {}

  lemma KeepsItself(users: Users)
    ensures Keeps(users, users)
  {}

  lemma KeepsOn(a: Users, b: Users, c: Users)
    requires Keeps(a, b) && Keeps(b, c)
    ensures Keeps(a, c)
  {}

  /** A session outlives whatever happens to the users: until its token expires, it finds the same
      user, approved. */
  lemma SessionHolds(s: Token.Signer, users: Users, later: Users, email: string, signedAt: int, now: int)
    requires Keeps(users, later) && email in users && users[email].approved
    requires var c := SessionClaims(s, users[email], signedAt);
             s.unmarshal(s.marshal(c)) == Some(c) && now < c.expires * Clock.SECOND
    ensures var c := Token.Verify(s, Token.Sign(s, SessionClaims(s, users[email], signedAt)), now);
            && c.Some? && email in later && later[email].id == c.value.subject && later[email].approved
            && c.value.email == users[email].email && c.value.role == users[email].role && c.value.approved
  {
    hide Token.Sign, Token.Verify;
    Token.TokenRoundTrip(s, SessionClaims(s, users[email], signedAt), now);
  }
}
