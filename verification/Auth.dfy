// The consumer auth handlers over their four tables (internal/app/auth.go).
//
// Each request is one atomic step, Go time and SQL NOW() are one clock, and the database
// statements succeed. Random draws (uuids, tokens, codes) arrive as part of the request. A `raw`
// text is as the client sent it; every other email, name and code is trimmed and lower-cased as
// its handler does first. Passwords are byte strings.
module Auth {
  import opened Common
  import Lockout
  import Sessions
  import Text

  const VERIFICATION_TTL: nat := 600
  const OTP_SPACING: nat := 30
  const MAX_OTP_ATTEMPTS: nat := 5
  const MIN_PASSWORD: nat := 8

  // ---------- tables ----------

  datatype CodeHash = Bcrypt(code: string)

  datatype Otp = Otp(email: string, hash: CodeHash, expiresAt: nat, attempts: nat, consumedAt: Option<nat>, createdAt: nat)

  datatype Verification = Verification(email: string, expiresAt: nat, consumedAt: Option<nat>)

  /** `account` holds the email_password columns and is None for guests. */
  datatype User = User(email: Option<string>, isGuest: bool, account: Option<Lockout.Account>)

  /** `emails` is the unique index on app_users.email; otps are kept in insertion order. */
  datatype State = State(users: map<nat, User>, emails: map<string, nat>, otps: seq<Otp>,
                         verifications: map<string, Verification>, sessions: Sessions.Table)

  const Empty := State(map[], map[], [], map[], map[])

  // ---------- requests and replies ----------

  datatype Request =
    | RequestOTP(raw: string, code: string, ttl: nat)
    | VerifyOTP(email: string, code: string, token: string)
    | Register(email: string, verification: string, name: string, password: string, uid: nat, family: nat, refresh: string)
    | Login(email: string, password: string, family: nat, refresh: string)
    | Guest(uid: nat)
    | Refresh(token: string, next: string)
    | Logout(token: string)
    | RequestDeleteOTP(uid: nat, code: string, ttl: nat)
    | DeleteAccount(uid: nat, raw: string)

  datatype Reply =
    | Sent | NotSent | BadRequest | AlreadyRegistered
    | InvalidCode | CodeExpired | TooManyAttempts | Verified(token: string)
    | InvalidToken | TokenExpired | EmailTaken | ServerError
    | Session(uid: nat, refresh: string) | GuestSession(uid: nat) | InvalidCredentials
    | InvalidRefresh | Rotated(next: string) | NoContent
    | NotFound | Deleted(uid: nat)

  // ---------- SQL statements ----------

  /** ORDER BY created_at DESC LIMIT 1 over a user's unconsumed codes; -1 when there is none. */
  function Latest(otps: seq<Otp>, email: string): (i: int)
    ensures -1 <= i < |otps|
    ensures i >= 0 ==> otps[i].email == email && otps[i].consumedAt.None?
  {
    if otps == [] then -1 else
      var n := |otps| - 1;
      if otps[n].email == email && otps[n].consumedAt.None? then n else Latest(otps[..n], email)
  }

  predicate RecentCode(otps: seq<Otp>, email: string, now: nat) {
    exists i | 0 <= i < |otps| :: otps[i].email == email && otps[i].consumedAt.None? && otps[i].createdAt + OTP_SPACING > now
  }

  function NewOtp(email: string, code: string, ttl: nat, now: nat): Otp {
    Otp(email, Bcrypt(code), now + ttl, 0, None, now)
  }

  // ---------- the handlers as functions ----------

  function SendCode(s: State, now: nat, email: string, code: string, ttl: nat): State {
    if RecentCode(s.otps, email, now) then s else s.(otps := s.otps + [NewOtp(email, code, ttl, now)])
  }

  /** The address that a text is taken for. */
  function Address(raw: string): string { Text.Lower(Text.Trim(raw)) }

  function StepRequestOTP(s: State, now: nat, raw: string, code: string, ttl: nat): (State, Reply) {
    if raw == "" then (s, BadRequest)
    else if Address(raw) in s.emails then (s, AlreadyRegistered)
    else (SendCode(s, now, Address(raw), code, ttl), Sent)
  }

  function StepVerifyOTP(s: State, now: nat, email: string, code: string, token: string): (State, Reply) {
    var i := Latest(s.otps, email);
    if i < 0 then (s, InvalidCode)
    else if s.otps[i].expiresAt <= now then (s, CodeExpired)
    else if s.otps[i].attempts >= MAX_OTP_ATTEMPTS then (s, TooManyAttempts)
    else
      var tried := s.otps[i].(attempts := s.otps[i].attempts + 1);
      if tried.hash != Bcrypt(code) then (s.(otps := s.otps[i := tried]), InvalidCode)
      else (s.(otps := s.otps[i := tried.(consumedAt := Some(now))],
               verifications := s.verifications[token := Verification(email, now + VERIFICATION_TTL, None)]),
            Verified(token))
  }

  function Mint(s: State, now: nat, uid: nat, family: nat, refresh: string): State {
    s.(sessions := Sessions.Step(s.sessions, now, Sessions.Mint(uid, family, refresh)))
  }

  function StepRegister(s: State, now: nat, r: Request): (State, Reply)
    requires r.Register?
  {
    if r.email == "" || r.verification == "" || r.name == "" || |r.password| < MIN_PASSWORD then (s, BadRequest)
    else if r.verification !in s.verifications then (s, InvalidToken)
    else
      var v := s.verifications[r.verification];
      if v.consumedAt.Some? then (s, InvalidToken)
      else if v.expiresAt < now then (s, TokenExpired)
      else if v.email != r.email then (s, InvalidToken)
      else
        var s1 := s.(verifications := s.verifications[r.verification := v.(consumedAt := Some(now))]);
        if r.email in s.emails then (s1, EmailTaken)
        else if |r.password| > Lockout.MAX_PASSWORD then (s1, ServerError)
        else
          var account := Lockout.Account(Lockout.HashOf(r.password), 0, None);
          var s2 := s1.(users := s.users[r.uid := User(Some(r.email), false, Some(account))],
                        emails := s.emails[r.email := r.uid]);
          (Mint(s2, now, r.uid, r.family, r.refresh), Session(r.uid, r.refresh))
  }

  /** The email_password user a login names. */
  function Named(s: State, email: string): Option<nat> {
    if email in s.emails && s.emails[email] in s.users && s.users[s.emails[email]].account.Some?
    then Some(s.emails[email]) else None
  }

  function StepLogin(s: State, now: nat, r: Request): (State, Reply)
    requires r.Login?
  {
    var uid := Named(s, r.email);
    if r.email == "" || r.password == "" || uid.None? then (s, InvalidCredentials)
    else
      var u := s.users[uid.value];
      var s1 := s.(users := s.users[uid.value := u.(account := Some(Lockout.Attempt(u.account.value, r.password, now)))]);
      match Lockout.Judge(u.account.value, r.password, now)
      case Locked => (s, TooManyAttempts)
      case Wrong => (s1, InvalidCredentials)
      case Correct => (Mint(s1, now, uid.value, r.family, r.refresh), Session(uid.value, r.refresh))
  }

  function StepRefresh(s: State, now: nat, token: string, next: string): (State, Reply) {
    if token == "" then (s, InvalidRefresh)
    else (s.(sessions := Sessions.Step(s.sessions, now, Sessions.Refresh(token, next))),
          if Sessions.Accepts(s.sessions, token, now) then Rotated(next) else InvalidRefresh)
  }

  function StepLogout(s: State, now: nat, token: string): (State, Reply) {
    if token == "" then (s, NoContent)
    else (s.(sessions := Sessions.Step(s.sessions, now, Sessions.Logout(token))), NoContent)
  }

  /** Scanning a NULL email into a Go string fails, so a guest without email is answered "not found". */
  function StepRequestDeleteOTP(s: State, now: nat, uid: nat, code: string, ttl: nat): (State, Reply) {
    if uid !in s.users || s.users[uid].email.None? then (s, NotFound)
    else if s.users[uid].isGuest || s.users[uid].email.value == "" then (s, NotSent)
    else (SendCode(s, now, s.users[uid].email.value, code, ttl), Sent)
  }

  function RemoveUser(s: State, now: nat, uid: nat): State
    requires uid in s.users && s.users[uid].email.Some?
  {
    s.(sessions := Sessions.Step(s.sessions, now, Sessions.DeleteUser(uid)),
       users := s.users - {uid}, emails := s.emails - {s.users[uid].email.value})
  }

  function StepDeleteAccount(s: State, now: nat, uid: nat, raw: string): (State, Reply) {
    if uid !in s.users || s.users[uid].email.None? then (s, NotFound)
    else
      var email := s.users[uid].email.value;
      if s.users[uid].isGuest || email == "" then (RemoveUser(s, now, uid), Deleted(uid))
      else if raw == "" then (s, BadRequest)
      else
        var i := Latest(s.otps, email);
        if i < 0 then (s, InvalidCode)
        else if now > s.otps[i].expiresAt then (s, CodeExpired)
        else if s.otps[i].hash != Bcrypt(Text.Trim(raw)) then (s, InvalidCode)
        else (RemoveUser(s.(otps := s.otps[i := s.otps[i].(consumedAt := Some(now))]), now, uid), Deleted(uid))
  }

  function Step(s: State, now: nat, r: Request): (State, Reply) {
    match r
    case RequestOTP(raw, code, ttl) => StepRequestOTP(s, now, raw, code, ttl)
    case VerifyOTP(email, code, token) => StepVerifyOTP(s, now, email, code, token)
    case Register(_, _, _, _, _, _, _) => StepRegister(s, now, r)
    case Login(_, _, _, _) => StepLogin(s, now, r)
    case Guest(uid) => (s.(users := s.users[uid := User(None, true, None)]), GuestSession(uid))
    case Refresh(token, next) => StepRefresh(s, now, token, next)
    case Logout(token) => StepLogout(s, now, token)
    case RequestDeleteOTP(uid, code, ttl) => StepRequestDeleteOTP(s, now, uid, code, ttl)
    case DeleteAccount(uid, raw) => StepDeleteAccount(s, now, uid, raw)
  }

  /** What the random draws of a request avoid. */
  predicate FreshDraws(s: State, r: Request) {
    match r
    case VerifyOTP(_, _, token) => token !in s.verifications
    case Register(_, _, _, _, uid, family, refresh) =>
      uid !in s.users && Sessions.FreshDraws(s.sessions, Sessions.Mint(uid, family, refresh))
    case Login(_, _, family, refresh) => Sessions.FreshDraws(s.sessions, Sessions.Mint(0, family, refresh))
    case Guest(uid) => uid !in s.users
    case Refresh(token, next) => Sessions.FreshDraws(s.sessions, Sessions.Refresh(token, next))
    case _ => true
  }

  // ---------- runs ----------

  datatype Event = Event(at: nat, req: Request)

  function After(run: seq<Event>): State {
    if run == [] then Empty else
      var n := |run| - 1;
      Step(After(run[..n]), run[n].at, run[n].req).0
  }

  function ReplyTo(run: seq<Event>, i: nat): Reply
    requires i < |run|
  {
    Step(After(run[..i]), run[i].at, run[i].req).1
  }

  /** Every run of every mix of requests, on a clock that never goes back. */
  predicate ValidRun(run: seq<Event>) {
    run == [] ||
    var n := |run| - 1;
    ValidRun(run[..n]) && FreshDraws(After(run[..n]), run[n].req) && (n > 0 ==> run[n - 1].at <= run[n].at)
  }

  lemma {:induction false} ReplyInPrefix(run: seq<Event>, n: nat, i: nat)
    requires i < n <= |run|
    ensures ReplyTo(run[..n], i) == ReplyTo(run, i) && run[..n][..i] == run[..i]
  {
    assert run[..n][..i] == run[..i];
  }

  lemma {:induction false} ValidPrefix(run: seq<Event>, n: nat)
    requires ValidRun(run) && n <= |run|
    ensures ValidRun(run[..n])
  {
    if n < |run| {
      ValidPrefix(run[..|run| - 1], n);
      assert run[..|run| - 1][..n] == run[..n];
    } else {
      assert run[..n] == run;
    }
  }

  // ---------- refresh tokens over every run of all handlers ----------

  /** What one request does to the refresh_tokens table. */
  function SessionEvents(e: Event, reply: Reply): seq<Sessions.Timed> {
    match reply
    case Session(uid, refresh) =>
      if e.req.Register? || e.req.Login? then [Sessions.Timed(e.at, Sessions.Mint(uid, e.req.family, refresh))] else []
    case Deleted(uid) => [Sessions.Timed(e.at, Sessions.DeleteUser(uid))]
    case _ =>
      if e.req.Refresh? && e.req.token != "" then [Sessions.Timed(e.at, Sessions.Refresh(e.req.token, e.req.next))]
      else if e.req.Logout? && e.req.token != "" then [Sessions.Timed(e.at, Sessions.Logout(e.req.token))]
      else []
  }

  function SessionRun(run: seq<Event>): seq<Sessions.Timed> {
    if run == [] then [] else
      var n := |run| - 1;
      SessionRun(run[..n]) + SessionEvents(run[n], ReplyTo(run, n))
  }

  /** The request's reply names the one event, if any, that took the refresh_tokens table from t to t'. */
  ghost predicate OneEvent(e: Event, t: Sessions.Table, t': Sessions.Table, reply: Reply) {
    var es := SessionEvents(e, reply);
    if es == [] then t' == t
    else |es| == 1 && Sessions.FreshDraws(t, es[0].ev) && t' == Sessions.Step(t, es[0].at, es[0].ev)
  }

  /** Requests about codes leave users, emails and sessions alone. */
  ghost predicate OnlyCodes(s: State, t: State, r: Reply) {
    t.users == s.users && t.emails == s.emails && t.sessions == s.sessions && !r.Session? && !r.Deleted?
  }

  predicate AboutCodes(q: Request) {
    q.RequestOTP? || q.VerifyOTP? || q.RequestDeleteOTP?
  }

  lemma {:induction false} CodesAlone(s: State, e: Event)
    requires AboutCodes(e.req)
    ensures OnlyCodes(s, Step(s, e.at, e.req).0, Step(s, e.at, e.req).1)
  {
  }

  lemma {:induction false} RegisterSessionEvent(s: State, e: Event)
    requires e.req.Register? && FreshDraws(s, e.req)
    ensures OneEvent(e, s.sessions, StepRegister(s, e.at, e.req).0.sessions, StepRegister(s, e.at, e.req).1)
  {
  }

  lemma {:induction false} LoginSessionEvent(s: State, e: Event)
    requires e.req.Login? && FreshDraws(s, e.req)
    ensures OneEvent(e, s.sessions, StepLogin(s, e.at, e.req).0.sessions, StepLogin(s, e.at, e.req).1)
  {
  }

  lemma {:induction false} DeleteSessionEvent(s: State, e: Event)
    requires e.req.DeleteAccount?
    ensures var (s', reply) := StepDeleteAccount(s, e.at, e.req.uid, e.req.raw); OneEvent(e, s.sessions, s'.sessions, reply)
  {
  }

  lemma {:induction false} OneSessionEvent(s: State, e: Event)
    requires FreshDraws(s, e.req)
    ensures OneEvent(e, s.sessions, Step(s, e.at, e.req).0.sessions, Step(s, e.at, e.req).1)
  {
    match e.req
    case Register(_, _, _, _, _, _, _) => RegisterSessionEvent(s, e);
    case Login(_, _, _, _) => LoginSessionEvent(s, e);
    case DeleteAccount(_, _) => DeleteSessionEvent(s, e);
    case RequestOTP(_, _, _) | VerifyOTP(_, _, _) | RequestDeleteOTP(_, _, _) => CodesAlone(s, e);
    case _ =>
  }

  lemma {:induction false} SessionsProject(run: seq<Event>)
    requires ValidRun(run)
    ensures Sessions.ValidRun(SessionRun(run)) && Sessions.After(SessionRun(run)) == After(run).sessions
  {
    if run != [] {
      var n := |run| - 1;
      SessionsProject(run[..n]);
      OneSessionEvent(After(run[..n]), run[n]);
      var es := SessionEvents(run[n], ReplyTo(run, n));
      var ss := SessionRun(run);
      assert es == [] ==> ss == SessionRun(run[..n]);
      assert es != [] ==> ss[..|ss| - 1] == SessionRun(run[..n]);
    }
  }

  /**
   * Whatever requests ran before, Refresh answers token x with a new pair exactly when the
   * history of x's family is clean and x is at most 60 days old (Sessions.RefreshAcceptsExactly).
   */
  lemma {:induction false} RefreshExactly(run: seq<Event>, x: string, next: string, now: nat)
    requires ValidRun(run) && x != ""
    ensures Step(After(run), now, Refresh(x, next)).1 == Rotated(next) <==> Sessions.GoodAndYoung(SessionRun(run), x, now)
  {
    SessionsProject(run);
    Sessions.RefreshAcceptsExactly(SessionRun(run), x, now);
  }

  // ---------- password comparisons per account ----------

  /** The request is a Login naming account uid, with both fields filled in. */
  predicate Names(s: State, e: Event, uid: nat) {
    e.req.Login? && e.req.email != "" && e.req.password != "" && Named(s, e.req.email) == Some(uid)
  }

  /** … and the account is not locked, so bcrypt.CompareHashAndPassword runs. */
  predicate ComparesIn(s: State, e: Event, uid: nat) {
    Names(s, e, uid) && !Lockout.IsLocked(s.users[uid].account.value, e.at)
  }

  /** Comparisons against uid's password hash from request a on. */
  function ComparisonCount(run: seq<Event>, a: nat, uid: nat): nat
    requires a <= |run|
  {
    if |run| == a then 0 else
      var n := |run| - 1;
      ComparisonCount(run[..n], a, uid) + if ComparesIn(After(run[..n]), run[n], uid) then 1 else 0
  }

  function TriesFrom(run: seq<Event>, a: nat, uid: nat): seq<Lockout.Try>
    requires a <= |run|
  {
    if |run| == a then [] else
      var n := |run| - 1;
      TriesFrom(run[..n], a, uid)
      + if Names(After(run[..n]), run[n], uid) then [Lockout.Try(run[n].at, run[n].req.password)] else []
  }

  predicate HasAccount(s: State, uid: nat) {
    uid in s.users && s.users[uid].account.Some?
  }

  /** From request a on, nobody logged in to uid and the account was not deleted. */
  predicate QuietStretch(run: seq<Event>, a: nat, uid: nat) {
    a <= |run| && HasAccount(After(run[..a]), uid)
    && forall i | a <= i < |run| ::
         !(run[i].req.Login? && ReplyTo(run, i) == Session(uid, run[i].req.refresh)) && ReplyTo(run, i) != Deleted(uid)
  }

  /** The account after a request: a Login naming it is judged, and nothing else touches its counter and lock. */
  ghost predicate AccountKept(s: State, e: Event, uid: nat, s': State, reply: Reply)
    requires HasAccount(s, uid)
  {
    var acc := s.users[uid].account.value;
    && HasAccount(s', uid)
    && s'.users[uid].account.value == (if Names(s, e, uid) then Lockout.Attempt(acc, e.req.password, e.at) else acc)
    && (Names(s, e, uid) && Lockout.Judge(acc, e.req.password, e.at) == Lockout.Correct ==> reply == Session(uid, e.req.refresh))
  }

  lemma {:induction false} LoginAccount(s: State, e: Event, uid: nat)
    requires HasAccount(s, uid) && e.req.Login?
    ensures AccountKept(s, e, uid, StepLogin(s, e.at, e.req).0, StepLogin(s, e.at, e.req).1)
  {
  }

  lemma {:induction false} RegisterAccount(s: State, e: Event, uid: nat)
    requires HasAccount(s, uid) && e.req.Register? && FreshDraws(s, e.req)
    ensures AccountKept(s, e, uid, StepRegister(s, e.at, e.req).0, StepRegister(s, e.at, e.req).1)
  {
  }

  lemma {:induction false} DeleteAccountElsewhere(s: State, e: Event, uid: nat)
    requires HasAccount(s, uid) && e.req.DeleteAccount?
    ensures var (s', reply) := StepDeleteAccount(s, e.at, e.req.uid, e.req.raw); reply != Deleted(uid) ==> AccountKept(s, e, uid, s', reply)
  {
  }

  lemma {:induction false} AccountStep(s: State, e: Event, uid: nat)
    requires HasAccount(s, uid) && FreshDraws(s, e.req) && Step(s, e.at, e.req).1 != Deleted(uid)
    ensures AccountKept(s, e, uid, Step(s, e.at, e.req).0, Step(s, e.at, e.req).1)
  {
    match e.req
    case Register(_, _, _, _, _, _, _) => RegisterAccount(s, e, uid);
    case Login(_, _, _, _) => LoginAccount(s, e, uid);
    case DeleteAccount(_, _) => DeleteAccountElsewhere(s, e, uid);
    case RequestOTP(_, _, _) | VerifyOTP(_, _, _) | RequestDeleteOTP(_, _, _) => CodesAlone(s, e);
    case _ =>
  }

  lemma {:induction false} QuietPrefix(run: seq<Event>, a: nat, uid: nat)
    requires QuietStretch(run, a, uid) && a < |run|
    ensures QuietStretch(run[..|run| - 1], a, uid)
    ensures ReplyTo(run, |run| - 1) != Deleted(uid)
    ensures run[|run| - 1].req.Login? ==> ReplyTo(run, |run| - 1) != Session(uid, run[|run| - 1].req.refresh)
  {
    var n := |run| - 1;
    assert run[..n][..a] == run[..a];
    forall i | a <= i < n ensures ReplyTo(run[..n], i) == ReplyTo(run, i) { ReplyInPrefix(run, n, i); }
  }

  ghost predicate Follows(s: State, uid: nat, acc: Lockout.Account, ts: seq<Lockout.Try>, count: nat) {
    HasAccount(s, uid) && s.users[uid].account.value == Lockout.AfterTries(acc, ts)
    && Lockout.Comparisons(acc, ts) == count && Lockout.NoSuccess(acc, ts)
  }

  lemma {:induction false} FollowsStep(s: State, e: Event, uid: nat, acc: Lockout.Account, ts: seq<Lockout.Try>, count: nat)
    requires Follows(s, uid, acc, ts, count) && FreshDraws(s, e.req)
    requires Step(s, e.at, e.req).1 != Deleted(uid)
    requires e.req.Login? ==> Step(s, e.at, e.req).1 != Session(uid, e.req.refresh)
    ensures Follows(Step(s, e.at, e.req).0, uid, acc,
                    ts + if Names(s, e, uid) then [Lockout.Try(e.at, e.req.password)] else [],
                    count + if ComparesIn(s, e, uid) then 1 else 0)
  {
    AccountStep(s, e, uid);
    if Names(s, e, uid) {
      var t := Lockout.Try(e.at, e.req.password);
      Lockout.OneMoreTry(acc, ts, t);
      Lockout.OneMoreFailure(acc, ts, t);
    } else {
      assert ts + [] == ts;
    }
  }

  lemma {:induction false} StretchIsTries(run: seq<Event>, a: nat, uid: nat)
    requires ValidRun(run) && QuietStretch(run, a, uid)
    ensures Follows(After(run), uid, After(run[..a]).users[uid].account.value, TriesFrom(run, a, uid),
                    ComparisonCount(run, a, uid))
    decreases |run|
  {
    if a == |run| {
      assert run[..a] == run;
    } else {
      var n := |run| - 1;
      assert run[..n][..a] == run[..a];
      QuietPrefix(run, a, uid);
      StretchIsTries(run[..n], a, uid);
      FollowsStep(After(run[..n]), run[n], uid, After(run[..a]).users[uid].account.value, TriesFrom(run[..n], a, uid),
                  ComparisonCount(run[..n], a, uid));
    }
  }

  lemma {:induction false} TriesInOrder(run: seq<Event>, a: nat, uid: nat)
    requires ValidRun(run) && a <= |run|
    ensures var ts := TriesFrom(run, a, uid);
      Lockout.InOrder(ts) && (ts != [] ==> a < |run| && Within(ts, run[a].at, run[|run| - 1].at))
    decreases |run|
  {
    hide Step;
    if a < |run| {
      var n := |run| - 1;
      var ts := TriesFrom(run[..n], a, uid);
      TriesInOrder(run[..n], a, uid);
      TimesGrow(run, a, n);
      if a < n { TimesGrow(run, n - 1, n); }
      OneMoreInOrder(ts, Lockout.Try(run[n].at, if run[n].req.Login? then run[n].req.password else ""), run[a].at);
      assert ts + [] == ts;
    }
  }

  predicate Within(ts: seq<Lockout.Try>, lo: nat, hi: nat) {
    forall i | 0 <= i < |ts| :: lo <= ts[i].at <= hi
  }

  lemma OneMoreInOrder(ts: seq<Lockout.Try>, t: Lockout.Try, lo: nat)
    requires Lockout.InOrder(ts) && Within(ts, lo, t.at) && lo <= t.at
    ensures Lockout.InOrder(ts + [t]) && Within(ts + [t], lo, t.at)
  {
  }

  lemma {:induction false} TimesGrow(run: seq<Event>, i: nat, j: nat)
    requires ValidRun(run) && i <= j < |run|
    ensures run[i].at <= run[j].at
    decreases |run|
  {
    if j < |run| - 1 { TimesGrow(run[..|run| - 1], i, j); }
    else if i < j { TimesGrow(run[..|run| - 1], i, j - 1); }
  }

  /**
   * In any stretch of any run without a successful login, at most 5 + T / 5 min passwords are
   * compared for one account, T being the length of the stretch.
   */
  lemma {:induction false} LoginComparisonsBounded(run: seq<Event>, a: nat, uid: nat)
    requires ValidRun(run) && a < |run| && QuietStretch(run, a, uid)
    ensures ComparisonCount(run, a, uid)
            <= Lockout.MAX_FAILURES + (run[|run| - 1].at - run[a].at) / Lockout.LOCK_SECONDS
  {
    StretchIsTries(run, a, uid);
    TriesInOrder(run, a, uid);
    TimesGrow(run, a, |run| - 1);
    Lockout.ComparisonsWithin(After(run[..a]).users[uid].account.value, TriesFrom(run, a, uid), run[a].at, run[|run| - 1].at);
  }

  // ---------- one account per verification token, one token per code ----------

  /** Request k created an account. */
  predicate Registers(run: seq<Event>, k: nat)
    requires k < |run|
  {
    run[k].req.Register? && ReplyTo(run, k).Session?
  }

  /** Request j was a VerifyOTP that handed out verification token v. */
  predicate Verifies(run: seq<Event>, j: nat, v: string)
    requires j < |run|
  {
    run[j].req.VerifyOTP? && ReplyTo(run, j) == Verified(v)
  }

  /** The row of otp_codes that VerifyOTP request j looked at. */
  function PickedCode(run: seq<Event>, j: nat): int
    requires j < |run| && run[j].req.VerifyOTP?
  {
    Latest(After(run[..j]).otps, run[j].req.email)
  }

  ghost predicate KeepsVerifications(s: State, s': State) {
    forall v | v in s.verifications ::
      && v in s'.verifications && s'.verifications[v].email == s.verifications[v].email
      && (s.verifications[v].consumedAt.Some? ==> s'.verifications[v].consumedAt.Some?)
  }

  ghost predicate KeepsCodes(s: State, s': State) {
    |s.otps| <= |s'.otps| && forall i | 0 <= i < |s.otps| ::
      && s'.otps[i].email == s.otps[i].email && s'.otps[i].createdAt == s.otps[i].createdAt
      && (s.otps[i].consumedAt.Some? ==> s'.otps[i].consumedAt.Some?)
  }

  lemma {:induction false} VerificationsKept(s: State, e: Event)
    requires FreshDraws(s, e.req)
    ensures KeepsVerifications(s, Step(s, e.at, e.req).0)
  {
  }

  lemma {:induction false} VerifyKeepsCodes(s: State, now: nat, email: string, code: string, token: string)
    ensures KeepsCodes(s, StepVerifyOTP(s, now, email, code, token).0)
  {
  }

  lemma {:induction false} DeleteKeepsCodes(s: State, now: nat, uid: nat, raw: string)
    ensures KeepsCodes(s, StepDeleteAccount(s, now, uid, raw).0)
  {
  }

  lemma {:induction false} SendKeepsCodes(s: State, now: nat, email: string, code: string, ttl: nat)
    ensures KeepsCodes(s, SendCode(s, now, email, code, ttl))
  {
  }

  lemma {:induction false} CodesKept(s: State, e: Event)
    ensures KeepsCodes(s, Step(s, e.at, e.req).0)
  {
    match e.req
    case RequestOTP(raw, code, ttl) => SendKeepsCodes(s, e.at, Address(raw), code, ttl);
    case VerifyOTP(email, code, token) => VerifyKeepsCodes(s, e.at, email, code, token);
    case DeleteAccount(uid, raw) => DeleteKeepsCodes(s, e.at, uid, raw);
    case RequestDeleteOTP(uid, code, ttl) =>
      if uid in s.users && s.users[uid].email.Some? { SendKeepsCodes(s, e.at, s.users[uid].email.value, code, ttl); }
    case _ =>
  }

  /** The state s' and reply r that a VerifyOTP or Register request e leaves behind. */
  ghost predicate SignupShaped(s: State, e: Event, s': State, r: Reply) {
    && (forall v | v in s'.verifications && v !in s.verifications ::
          e.req.VerifyOTP? && r == Verified(v) && s'.verifications[v].email == e.req.email)
    && (e.req.VerifyOTP? && r.Verified? ==>
          && r.token == e.req.token && e.req.token in s'.verifications && e.req.token !in s.verifications
          && Latest(s.otps, e.req.email) >= 0 && |s'.otps| == |s.otps|
          && s'.otps[Latest(s.otps, e.req.email)].consumedAt.Some?)
    && (e.req.Register? && r.Session? ==>
          && e.req.verification in s.verifications && s.verifications[e.req.verification].consumedAt.None?
          && s.verifications[e.req.verification].email == e.req.email
          && e.req.verification in s'.verifications && s'.verifications[e.req.verification].consumedAt.Some?)
  }

  lemma {:induction false} SignupStep(s: State, e: Event)
    requires FreshDraws(s, e.req)
    ensures KeepsVerifications(s, Step(s, e.at, e.req).0) && KeepsCodes(s, Step(s, e.at, e.req).0)
    ensures SignupShaped(s, e, Step(s, e.at, e.req).0, Step(s, e.at, e.req).1)
  {
    VerificationsKept(s, e);
    CodesKept(s, e);
    if e.req.VerifyOTP? { VerifyShaped(s, e); }
    if e.req.Register? { RegisterShaped(s, e); }
  }

  lemma {:induction false} VerifyShaped(s: State, e: Event)
    requires e.req.VerifyOTP? && FreshDraws(s, e.req)
    ensures var (s', r) := StepVerifyOTP(s, e.at, e.req.email, e.req.code, e.req.token); SignupShaped(s, e, s', r)
  {
  }

  lemma {:induction false} RegisterShaped(s: State, e: Event)
    requires e.req.Register? && FreshDraws(s, e.req)
    ensures SignupShaped(s, e, StepRegister(s, e.at, e.req).0, StepRegister(s, e.at, e.req).1)
  {
  }

  lemma {:induction false} SignupPersists(run: seq<Event>, n: nat)
    requires ValidRun(run) && n <= |run|
    ensures KeepsVerifications(After(run[..n]), After(run)) && KeepsCodes(After(run[..n]), After(run))
    decreases |run|
  {
    if n == |run| {
      assert run[..n] == run;
    } else {
      var m := |run| - 1;
      assert run[..m][..n] == run[..n];
      SignupPersists(run[..m], n);
      SignupStep(After(run[..m]), run[m]);
    }
  }

  /** The state right after request i, seen from the end of the run. */
  lemma {:induction false} SignupSince(run: seq<Event>, i: nat)
    requires ValidRun(run) && i < |run|
    ensures FreshDraws(After(run[..i]), run[i].req)
    ensures After(run[..i + 1]) == Step(After(run[..i]), run[i].at, run[i].req).0
    ensures KeepsVerifications(After(run[..i + 1]), After(run)) && KeepsCodes(After(run[..i + 1]), After(run))
  {
    ValidPrefix(run, i + 1);
    assert run[..i + 1][..i] == run[..i];
    SignupPersists(run, i + 1);
  }

  lemma {:induction false} TokenOrigin(run: seq<Event>, v: string) returns (j: nat)
    requires ValidRun(run) && v in After(run).verifications
    ensures j < |run| && Verifies(run, j, v) && run[j].req.email == After(run).verifications[v].email
  {
    var n := |run| - 1;
    SignupStep(After(run[..n]), run[n]);
    if v in After(run[..n]).verifications {
      j := TokenOrigin(run[..n], v);
      ReplyInPrefix(run, n, j);
    } else {
      j := n;
    }
  }

  /** Every account rests on a consumed verification token, and that on a consumed code, all for its own email. */
  lemma {:induction false} RegistrationBacked(run: seq<Event>, k: nat) returns (j: nat)
    requires ValidRun(run) && k < |run| && Registers(run, k)
    ensures j < k && Verifies(run, j, run[k].req.verification) && run[j].req.email == run[k].req.email
    ensures var s, v, i := After(run), run[k].req.verification, PickedCode(run, j);
      && v in s.verifications && s.verifications[v].consumedAt.Some? && s.verifications[v].email == run[k].req.email
      && 0 <= i < |s.otps| && s.otps[i].consumedAt.Some? && s.otps[i].email == run[k].req.email
  {
    ValidPrefix(run, k);
    SignupSince(run, k);
    SignupStep(After(run[..k]), run[k]);
    j := TokenOrigin(run[..k], run[k].req.verification);
    ReplyInPrefix(run, k, j);
    SignupSince(run, j);
    SignupStep(After(run[..j]), run[j]);
  }

  /** No verification token ever supports two accounts. */
  lemma {:induction false} OneAccountPerToken(run: seq<Event>, k: nat, l: nat)
    requires ValidRun(run) && k < l < |run| && Registers(run, k) && Registers(run, l)
    ensures run[k].req.verification != run[l].req.verification
  {
    ValidPrefix(run, l);
    ReplyInPrefix(run, l, k);
    SignupSince(run[..l], k);
    SignupStep(After(run[..k]), run[k]);
    SignupSince(run, l);
    SignupStep(After(run[..l]), run[l]);
  }

  /** No code ever yields two verification tokens. */
  lemma {:induction false} OneTokenPerCode(run: seq<Event>, i: nat, j: nat, v: string, w: string)
    requires ValidRun(run) && i < j < |run| && Verifies(run, i, v) && Verifies(run, j, w)
    ensures v != w && PickedCode(run, i) != PickedCode(run, j)
  {
    ValidPrefix(run, j);
    ReplyInPrefix(run, j, i);
    SignupSince(run[..j], i);
    SignupStep(After(run[..i]), run[i]);
    SignupSince(run, j);
    SignupStep(After(run[..j]), run[j]);
  }

  lemma {:induction false} UserStep(s: State, e: Event, uid: nat)
    requires FreshDraws(s, e.req) && HasAccount(Step(s, e.at, e.req).0, uid)
    ensures (HasAccount(s, uid) && Step(s, e.at, e.req).0.users[uid].email == s.users[uid].email)
      || (e.req.Register? && Step(s, e.at, e.req).1.Session? && e.req.uid == uid
          && Step(s, e.at, e.req).0.users[uid].email == Some(e.req.email))
  {
  }

  lemma {:induction false} AccountOrigin(run: seq<Event>, uid: nat) returns (k: nat)
    requires ValidRun(run) && HasAccount(After(run), uid)
    ensures k < |run| && Registers(run, k) && run[k].req.uid == uid
            && After(run).users[uid].email == Some(run[k].req.email)
  {
    var n := |run| - 1;
    UserStep(After(run[..n]), run[n], uid);
    if HasAccount(After(run[..n]), uid) && After(run).users[uid].email == After(run[..n]).users[uid].email {
      k := AccountOrigin(run[..n], uid);
      ReplyInPrefix(run, n, k);
    } else {
      k := n;
    }
  }

  /** Different accounts of a reachable state rest on different tokens and on different codes. */
  lemma {:induction false} AccountsRestOnDistinctCodes(run: seq<Event>, a: nat, b: nat) returns (k: nat, l: nat, i: nat, j: nat)
    requires ValidRun(run) && a != b && HasAccount(After(run), a) && HasAccount(After(run), b)
    ensures k < |run| && l < |run| && Registers(run, k) && Registers(run, l) && run[k].req.uid == a && run[l].req.uid == b
    ensures i < |run| && j < |run| && Verifies(run, i, run[k].req.verification) && Verifies(run, j, run[l].req.verification)
    ensures run[k].req.verification != run[l].req.verification && PickedCode(run, i) != PickedCode(run, j)
  {
    k := AccountOrigin(run, a);
    l := AccountOrigin(run, b);
    i := RegistrationBacked(run, k);
    j := RegistrationBacked(run, l);
    if k < l { OneAccountPerToken(run, k, l); } else { OneAccountPerToken(run, l, k); }
    if i < j { OneTokenPerCode(run, i, j, run[k].req.verification, run[l].req.verification); }
    if j < i { OneTokenPerCode(run, j, i, run[l].req.verification, run[k].req.verification); }
  }

  // ---------- guesses per code ----------

  /** Request e compares the submitted code with row i of otp_codes. */
  predicate ComparesCode(s: State, e: Event, i: int) {
    e.req.VerifyOTP? && Latest(s.otps, e.req.email) == i && 0 <= i
    && e.at < s.otps[i].expiresAt && s.otps[i].attempts < MAX_OTP_ATTEMPTS
  }

  function CodeComparisons(run: seq<Event>, i: nat): nat {
    if run == [] then 0 else
      var n := |run| - 1;
      CodeComparisons(run[..n], i) + if ComparesCode(After(run[..n]), run[n], i) then 1 else 0
  }

  lemma {:induction false} CodeStep(s: State, e: Event, i: nat)
    requires i < |Step(s, e.at, e.req).0.otps|
    ensures Step(s, e.at, e.req).0.otps[i].attempts ==
            (if i < |s.otps| then s.otps[i].attempts else 0) + if ComparesCode(s, e, i) then 1 else 0
  {
    if e.req.VerifyOTP? { VerifyCounts(s, e, i); }
    if e.req.DeleteAccount? { DeleteCountsNothing(s, e, i); }
  }

  lemma {:induction false} VerifyCounts(s: State, e: Event, i: nat)
    requires e.req.VerifyOTP?
    ensures var os := StepVerifyOTP(s, e.at, e.req.email, e.req.code, e.req.token).0.otps;
      |os| == |s.otps| && (i < |os| ==> os[i].attempts == s.otps[i].attempts + if ComparesCode(s, e, i) then 1 else 0)
  {
  }

  lemma {:induction false} DeleteCountsNothing(s: State, e: Event, i: nat)
    requires e.req.DeleteAccount?
    ensures var os := StepDeleteAccount(s, e.at, e.req.uid, e.req.raw).0.otps;
      |os| == |s.otps| && (i < |os| ==> os[i].attempts == s.otps[i].attempts)
  {
  }

  /** VerifyOTP compares no code more than five times, and its attempts column counts them exactly. */
  lemma {:induction false} FiveGuessesPerCode(run: seq<Event>, i: nat)
    requires ValidRun(run)
    ensures CodeComparisons(run, i) <= MAX_OTP_ATTEMPTS
    ensures CodeComparisons(run, i) == if i < |After(run).otps| then After(run).otps[i].attempts else 0
  {
    if run != [] {
      var n := |run| - 1;
      FiveGuessesPerCode(run[..n], i);
      SignupStep(After(run[..n]), run[n]);
      if i < |After(run).otps| { CodeStep(After(run[..n]), run[n], i); }
    }
  }

  // ---------- "the most recent unconsumed code" is well defined ----------

  ghost predicate Spaced(otps: seq<Otp>) {
    forall i, j | 0 <= i < j < |otps| && otps[i].email == otps[j].email
      && otps[i].consumedAt.None? && otps[j].consumedAt.None? :: otps[i].createdAt + OTP_SPACING <= otps[j].createdAt
  }

  lemma {:induction false} SendKeepsSpaced(s: State, now: nat, email: string, code: string, ttl: nat)
    requires Spaced(s.otps)
    ensures Spaced(SendCode(s, now, email, code, ttl).otps)
  {
  }

  /** Counting an attempt or consuming a code never brings two open codes closer. */
  lemma {:induction false} TouchKeepsSpaced(otps: seq<Otp>, i: nat, row: Otp)
    requires Spaced(otps) && i < |otps|
    requires row.email == otps[i].email && row.createdAt == otps[i].createdAt
    requires otps[i].consumedAt.Some? ==> row.consumedAt.Some?
    ensures Spaced(otps[i := row])
  {
  }

  lemma {:induction false} VerifyKeepsSpaced(s: State, now: nat, email: string, code: string, token: string)
    requires Spaced(s.otps)
    ensures Spaced(StepVerifyOTP(s, now, email, code, token).0.otps)
  {
    var i := Latest(s.otps, email);
    if i >= 0 {
      var tried := s.otps[i].(attempts := s.otps[i].attempts + 1);
      TouchKeepsSpaced(s.otps, i, tried);
      TouchKeepsSpaced(s.otps, i, tried.(consumedAt := Some(now)));
    }
  }

  lemma {:induction false} SpacedStep(s: State, e: Event)
    requires Spaced(s.otps)
    ensures Spaced(Step(s, e.at, e.req).0.otps)
  {
    match e.req
    case RequestOTP(raw, code, ttl) => SendKeepsSpaced(s, e.at, Address(raw), code, ttl);
    case RequestDeleteOTP(uid, code, ttl) =>
      if uid in s.users && s.users[uid].email.Some? { SendKeepsSpaced(s, e.at, s.users[uid].email.value, code, ttl); }
    case VerifyOTP(email, code, token) => VerifyKeepsSpaced(s, e.at, email, code, token);
    case DeleteAccount(uid, _) =>
      if uid in s.users && s.users[uid].email.Some? {
        var i := Latest(s.otps, s.users[uid].email.value);
        if i >= 0 { TouchKeepsSpaced(s.otps, i, s.otps[i].(consumedAt := Some(e.at))); }
      }
    case _ =>
  }

  lemma {:induction false} LatestIsNewest(run: seq<Event>, email: string, j: nat)
    requires ValidRun(run) && j < |After(run).otps|
    requires After(run).otps[j].email == email && After(run).otps[j].consumedAt.None?
    ensures var i := Latest(After(run).otps, email);
      0 <= i && (j != i ==> After(run).otps[j].createdAt + OTP_SPACING <= After(run).otps[i].createdAt)
  {
    CodesSpaced(run);
    LatestIsLast(After(run).otps, email, j);
  }

  lemma {:induction false} CodesSpaced(run: seq<Event>)
    requires ValidRun(run)
    ensures Spaced(After(run).otps)
  {
    if run != [] {
      var n := |run| - 1;
      CodesSpaced(run[..n]);
      SpacedStep(After(run[..n]), run[n]);
    }
  }

  lemma {:induction false} LatestIsLast(otps: seq<Otp>, email: string, j: nat)
    requires j < |otps| && otps[j].email == email && otps[j].consumedAt.None?
    ensures Latest(otps, email) >= j
  {
    var n := |otps| - 1;
    if !(otps[n].email == email && otps[n].consumedAt.None?) { LatestIsLast(otps[..n], email, j); }
  }
}
