// What the sign-up, login and deletion handlers accept, told by the history of requests and replies
// (internal/app/auth.go).
module SignUp {
  import opened Common
  import Lockout
  import Text
  import opened Auth

  // ---------- codes ----------

  /** Request k stored row i of otp_codes: a code it made up for an address, good until its time to live is over. */
  predicate Sends(run: seq<Event>, k: nat, i: nat) {
    k < |run| && |After(run[..k]).otps| == i && |After(run[..k + 1]).otps| == i + 1
    && (run[k].req.RequestOTP? || run[k].req.RequestDeleteOTP?)
  }

  function CodeOf(e: Event): string
    requires e.req.RequestOTP? || e.req.RequestDeleteOTP?
  {
    e.req.code
  }

  function GoodUntil(e: Event): nat
    requires e.req.RequestOTP? || e.req.RequestDeleteOTP?
  {
    e.at + e.req.ttl
  }

  predicate IsRow(e: Event, row: Otp)
    requires e.req.RequestOTP? || e.req.RequestDeleteOTP?
  {
    row.hash == Bcrypt(CodeOf(e)) && row.expiresAt == GoodUntil(e)
  }

  /** Old rows keep address, code and expiry; a request adds at most one row, and only a code request does. */
  ghost predicate CodesMove(s: State, e: Event, t: State) {
    && |s.otps| <= |t.otps| <= |s.otps| + 1
    && (forall i | 0 <= i < |s.otps| :: SameCode(s.otps[i], t.otps[i]))
    && (|t.otps| > |s.otps| ==> (e.req.RequestOTP? || e.req.RequestDeleteOTP?) && IsRow(e, t.otps[|s.otps|]))
  }

  predicate SameCode(row: Otp, row': Otp) {
    row'.hash == row.hash && row'.expiresAt == row.expiresAt && row'.email == row.email
  }

  lemma {:induction false} VerifyMovesCodes(s: State, e: Event)
    requires e.req.VerifyOTP?
    ensures CodesMove(s, e, StepVerifyOTP(s, e.at, e.req.email, e.req.code, e.req.token).0)
  {
  }

  lemma {:induction false} DeleteMovesCodes(s: State, e: Event)
    requires e.req.DeleteAccount?
    ensures CodesMove(s, e, StepDeleteAccount(s, e.at, e.req.uid, e.req.raw).0)
  {
  }

  lemma {:induction false} SendMovesCodes(s: State, e: Event, email: string)
    requires e.req.RequestOTP? || e.req.RequestDeleteOTP?
    ensures CodesMove(s, e, SendCode(s, e.at, email, e.req.code, e.req.ttl))
  {
  }

  lemma {:induction false} StepMovesCodes(s: State, e: Event)
    ensures CodesMove(s, e, Step(s, e.at, e.req).0)
  {
    match e.req
    case VerifyOTP(_, _, _) => VerifyMovesCodes(s, e);
    case DeleteAccount(_, _) => DeleteMovesCodes(s, e);
    case RequestOTP(raw, _, _) => SendMovesCodes(s, e, Address(raw));
    case RequestDeleteOTP(uid, _, _) =>
      if uid in s.users && s.users[uid].email.Some? { SendMovesCodes(s, e, s.users[uid].email.value); }
    case _ =>
  }

  lemma SendsInPrefix(run: seq<Event>, n: nat, k: nat, i: nat)
    requires k < n <= |run|
    ensures Sends(run[..n], k, i) == Sends(run, k, i)
  {
    assert run[..n][..k] == run[..k] && run[..n][..k + 1] == run[..k + 1];
  }

  /** Every stored code was sent by exactly the request that the table's length points at, and holds what it sent. */
  lemma {:induction false} CodeOrigin(run: seq<Event>, i: nat) returns (k: nat)
    requires i < |After(run).otps|
    ensures Sends(run, k, i) && IsRow(run[k], After(run).otps[i])
  {
    var n := |run| - 1;
    StepMovesCodes(After(run[..n]), run[n]);
    assert run[..n + 1] == run;
    if i < |After(run[..n]).otps| {
      k := CodeOrigin(run[..n], i);
      SendsInPrefix(run, n, k, i);
    } else {
      k := n;
    }
  }

  // ---------- tokens ----------

  /** One request and what it was answered. */
  datatype Answered = Answered(at: nat, req: Request, reply: Reply)

  function History(run: seq<Event>): seq<Answered> {
    if run == [] then []
    else
      var n := |run| - 1;
      History(run[..n]) + [Answered(run[n].at, run[n].req, Step(After(run[..n]), run[n].at, run[n].req).1)]
  }

  predicate Gives(x: Answered, v: string) {
    x.req.VerifyOTP? && x.reply == Verified(v)
  }

  /** The request used verification token v up, even if its email turned out taken or its password too long. */
  predicate Spends(x: Answered, v: string) {
    x.req.Register? && x.req.verification == v && (x.reply.Session? || x.reply.EmailTaken? || x.reply.ServerError?)
  }

  /** Request j handed out v and nothing has used it up since. */
  ghost predicate Open(h: seq<Answered>, j: nat, v: string) {
    j < |h| && Gives(h[j], v) && forall m | j < m < |h| :: !Spends(h[m], v)
  }

  function TokenRow(x: Answered): Verification
    requires x.req.VerifyOTP?
  {
    Verification(x.req.email, x.at + VERIFICATION_TTL, None)
  }

  predicate Unused(s: State, v: string) {
    v in s.verifications && s.verifications[v].consumedAt.None?
  }

  ghost predicate TokenMoves(s: State, x: Answered, t: State, v: string) {
    && (Unused(t, v) <==> Gives(x, v) || (Unused(s, v) && !Spends(x, v)))
    && (Gives(x, v) ==> Unused(t, v) && t.verifications[v] == TokenRow(x) && v !in s.verifications)
    && (Unused(s, v) && Unused(t, v) ==> t.verifications[v] == s.verifications[v])
  }

  lemma {:induction false} VerifyMovesTokens(s: State, e: Event, v: string)
    requires e.req.VerifyOTP? && FreshDraws(s, e.req)
    ensures var (t, r) := StepVerifyOTP(s, e.at, e.req.email, e.req.code, e.req.token);
      TokenMoves(s, Answered(e.at, e.req, r), t, v)
  {
  }

  lemma {:induction false} RegisterMovesTokens(s: State, e: Event, v: string)
    requires e.req.Register?
    ensures var (t, r) := StepRegister(s, e.at, e.req); TokenMoves(s, Answered(e.at, e.req, r), t, v)
  {
  }

  lemma {:induction false} StepMovesTokens(s: State, e: Event, v: string)
    requires FreshDraws(s, e.req)
    ensures var (t, r) := Step(s, e.at, e.req); TokenMoves(s, Answered(e.at, e.req, r), t, v)
  {
    match e.req
    case VerifyOTP(_, _, _) => VerifyMovesTokens(s, e, v);
    case Register(_, _, _, _, _, _, _) => RegisterMovesTokens(s, e, v);
    case _ =>
  }

  /** A token's row is there unconsumed while some VerifyOTP's token is open, with that request's email and time. */
  ghost predicate TokenIs(h: seq<Answered>, v: string, s: State) {
    && (Unused(s, v) <==> exists j: nat :: Open(h, j, v))
    && (forall j: nat | Open(h, j, v) :: v in s.verifications && s.verifications[v] == TokenRow(h[j]))
  }

  lemma {:induction false} TokenFollows(h: seq<Answered>, x: Answered, v: string, s: State, t: State)
    requires TokenIs(h, v, s) && TokenMoves(s, x, t, v)
    ensures TokenIs(h + [x], v, t)
  {
    var n := |h|;
    forall j: nat | j < n ensures Open(h + [x], j, v) <==> Open(h, j, v) && !Spends(x, v) { OpenStep(h, x, j, v); }
    assert Open(h + [x], n, v) <==> Gives(x, v);
    if Unused(t, v) && !Gives(x, v) {
      var j: nat :| Open(h, j, v);
      assert Open(h + [x], j, v);
    }
  }

  lemma {:induction false} OpenStep(h: seq<Answered>, x: Answered, j: nat, v: string)
    requires j < |h|
    ensures Open(h + [x], j, v) <==> Open(h, j, v) && !Spends(x, v)
  {
    var g := h + [x];
    assert g[|h|] == x && forall m | 0 <= m < |h| :: g[m] == h[m];
    if Open(g, j, v) { assert forall m | j < m < |h| :: !Spends(g[m], v); }
  }

  /** The unconsumed tokens are those that VerifyOTP handed out and no registration used up. */
  lemma {:induction false} TokensMirror(run: seq<Event>, v: string)
    requires ValidRun(run)
    ensures TokenIs(History(run), v, After(run))
  {
    if run != [] {
      var n := |run| - 1;
      TokensMirror(run[..n], v);
      StepMovesTokens(After(run[..n]), run[n], v);
      var (t, r) := Step(After(run[..n]), run[n].at, run[n].req);
      TokenFollows(History(run[..n]), Answered(run[n].at, run[n].req, r), v, After(run[..n]), t);
    }
  }

  // ---------- accounts ----------

  /** Emails are unique and indexed exactly; whoever has one registered with it and a password. */
  ghost predicate UsersOk(s: State) {
    && (forall email | email in s.emails :: s.emails[email] in s.users && s.users[s.emails[email]].email == Some(email))
    && (forall uid | uid in s.users :: UserOk(s.users[uid], s.emails, uid))
  }

  predicate UserOk(u: User, emails: map<string, nat>, uid: nat) {
    if u.email.None? then u.account.None?
    else u.account.Some? && !u.isGuest && u.email.value != "" && u.email.value in emails && emails[u.email.value] == uid
  }

  lemma {:induction false} RegisterKeepsUsers(s: State, e: Event)
    requires UsersOk(s) && e.req.Register? && FreshDraws(s, e.req)
    ensures UsersOk(StepRegister(s, e.at, e.req).0)
  {
  }

  lemma {:induction false} LoginKeepsUsers(s: State, e: Event)
    requires UsersOk(s) && e.req.Login?
    ensures UsersOk(StepLogin(s, e.at, e.req).0)
  {
  }

  lemma {:induction false} RemoveKeepsUsers(s: State, now: nat, uid: nat)
    requires UsersOk(s) && uid in s.users && s.users[uid].email.Some?
    ensures UsersOk(RemoveUser(s, now, uid))
  {
  }

  lemma {:induction false} DeleteKeepsUsers(s: State, e: Event)
    requires UsersOk(s) && e.req.DeleteAccount?
    ensures UsersOk(StepDeleteAccount(s, e.at, e.req.uid, e.req.raw).0)
  {
    var uid := e.req.uid;
    if StepDeleteAccount(s, e.at, uid, e.req.raw).1 == Deleted(uid) {
      var i := Latest(s.otps, s.users[uid].email.value);
      var consumed := s.(otps := s.otps[i := s.otps[i].(consumedAt := Some(e.at))]);
      RemoveKeepsUsers(consumed, e.at, uid);
    }
  }

  lemma {:induction false} StepKeepsUsers(s: State, e: Event)
    requires UsersOk(s) && FreshDraws(s, e.req)
    ensures UsersOk(Step(s, e.at, e.req).0)
  {
    match e.req
    case Register(_, _, _, _, _, _, _) => RegisterKeepsUsers(s, e);
    case Login(_, _, _, _) => LoginKeepsUsers(s, e);
    case DeleteAccount(_, _) => DeleteKeepsUsers(s, e);
    case _ =>
  }

  lemma {:induction false} RunKeepsUsers(run: seq<Event>)
    requires ValidRun(run)
    ensures UsersOk(After(run))
  {
    if run != [] {
      var n := |run| - 1;
      RunKeepsUsers(run[..n]);
      StepKeepsUsers(After(run[..n]), run[n]);
    }
  }

  predicate SignsUp(x: Answered, uid: nat) {
    x.req.Register? && x.reply.Session? && x.req.uid == uid
  }

  /** Registration k of uid stands: no deletion has followed it. */
  ghost predicate Stands(h: seq<Answered>, k: nat, uid: nat) {
    k < |h| && SignsUp(h[k], uid) && forall m | k < m < |h| :: h[m].reply != Deleted(uid)
  }

  function Fresh(q: Request): Lockout.Account
    requires q.Register?
  {
    Lockout.Account(Lockout.HashOf(q.password), 0, None)
  }

  predicate IsTry(x: Answered, email: string) {
    x.req.Login? && x.req.email == email && x.req.password != ""
  }

  /** The logins since registration k that name its email. */
  function Tries(h: seq<Answered>, k: nat): seq<Lockout.Try>
    requires k < |h| && h[k].req.Register?
  {
    var n := |h| - 1;
    if n == k then []
    else Tries(h[..n], k) + if IsTry(h[n], h[k].req.email) then [Lockout.Try(h[n].at, h[n].req.password)] else []
  }

  /** Password, counter and lock, from the registration and the logins since. */
  function AccountNow(h: seq<Answered>, k: nat): Lockout.Account
    requires k < |h| && h[k].req.Register?
  {
    Lockout.AfterTries(Fresh(h[k].req), Tries(h, k))
  }

  predicate IsAccount(s: State, uid: nat, email: string, account: Lockout.Account) {
    uid in s.users && s.users[uid].email == Some(email) && s.users[uid].account == Some(account)
  }

  /** An account appears by registration, disappears by deletion, and in between only logins that name it touch it. */
  ghost predicate AccountMoves(s: State, x: Answered, t: State, uid: nat) {
    && (HasAccount(t, uid) <==> SignsUp(x, uid) || (HasAccount(s, uid) && x.reply != Deleted(uid)))
    && (SignsUp(x, uid) ==> !HasAccount(s, uid) && IsAccount(t, uid, x.req.email, Fresh(x.req)))
    && (forall email, a | IsAccount(s, uid, email, a) && x.reply != Deleted(uid) ::
          IsAccount(t, uid, email, if IsTry(x, email) then Lockout.Attempt(a, x.req.password, x.at) else a))
  }

  lemma {:induction false} RegisterMoves(s: State, e: Event, uid: nat)
    requires e.req.Register? && FreshDraws(s, e.req)
    ensures var (t, r) := StepRegister(s, e.at, e.req); AccountMoves(s, Answered(e.at, e.req, r), t, uid)
  {
  }

  lemma {:induction false} LoginMoves(s: State, e: Event, uid: nat)
    requires UsersOk(s) && e.req.Login?
    ensures var (t, r) := StepLogin(s, e.at, e.req); AccountMoves(s, Answered(e.at, e.req, r), t, uid)
  {
    if uid in s.users { assert UserOk(s.users[uid], s.emails, uid); }
  }

  lemma {:induction false} DeleteMoves(s: State, e: Event, uid: nat)
    requires e.req.DeleteAccount?
    ensures var (t, r) := StepDeleteAccount(s, e.at, e.req.uid, e.req.raw); AccountMoves(s, Answered(e.at, e.req, r), t, uid)
  {
  }

  lemma {:induction false} StepMovesAccount(s: State, e: Event, uid: nat)
    requires UsersOk(s) && FreshDraws(s, e.req)
    ensures var (t, r) := Step(s, e.at, e.req); AccountMoves(s, Answered(e.at, e.req, r), t, uid)
  {
    match e.req
    case Register(_, _, _, _, _, _, _) => RegisterMoves(s, e, uid);
    case Login(_, _, _, _) => LoginMoves(s, e, uid);
    case DeleteAccount(_, _) => DeleteMoves(s, e, uid);
    case _ =>
  }

  /** The account is there while some registration stands, as that registration and the logins since have left it. */
  ghost predicate AccountIs(h: seq<Answered>, uid: nat, s: State) {
    && (HasAccount(s, uid) <==> exists k: nat :: Stands(h, k, uid))
    && (forall k: nat | Stands(h, k, uid) :: IsAccount(s, uid, h[k].req.email, AccountNow(h, k)))
  }

  lemma {:induction false} AccountFollows(h: seq<Answered>, x: Answered, uid: nat, s: State, t: State)
    requires AccountIs(h, uid, s) && AccountMoves(s, x, t, uid)
    ensures AccountIs(h + [x], uid, t)
  {
    var g, n := h + [x], |h|;
    forall k: nat | k < n ensures Stands(g, k, uid) <==> Stands(h, k, uid) && x.reply != Deleted(uid) {
      StandsStep(h, x, k, uid);
    }
    assert Stands(g, n, uid) <==> SignsUp(x, uid);
    if HasAccount(t, uid) && !SignsUp(x, uid) {
      var k: nat :| Stands(h, k, uid);
      assert Stands(g, k, uid);
    }
    forall k: nat | Stands(g, k, uid) ensures IsAccount(t, uid, g[k].req.email, AccountNow(g, k)) {
      if k < n { TriesStep(h, x, k); }
    }
  }

  lemma {:induction false} TriesStep(h: seq<Answered>, x: Answered, k: nat)
    requires k < |h| && h[k].req.Register?
    ensures AccountNow(h + [x], k) ==
      if IsTry(x, h[k].req.email) then Lockout.Attempt(AccountNow(h, k), x.req.password, x.at) else AccountNow(h, k)
  {
    assert (h + [x])[..|h|] == h;
    var ts := Tries(h, k);
    if IsTry(x, h[k].req.email) {
      Lockout.OneMoreTry(Fresh(h[k].req), ts, Lockout.Try(x.at, x.req.password));
    } else {
      assert ts + [] == ts;
    }
  }

  lemma {:induction false} StandsStep(h: seq<Answered>, x: Answered, k: nat, uid: nat)
    requires k < |h|
    ensures Stands(h + [x], k, uid) <==> Stands(h, k, uid) && x.reply != Deleted(uid)
  {
    var g := h + [x];
    assert g[|h|] == x && forall m | 0 <= m < |h| :: g[m] == h[m];
    if Stands(g, k, uid) { assert forall m | k < m < |h| :: g[m].reply != Deleted(uid); }
  }

  /** Accounts are the registrations that no deletion followed. */
  lemma {:induction false} AccountsMirror(run: seq<Event>, uid: nat)
    requires ValidRun(run)
    ensures AccountIs(History(run), uid, After(run))
  {
    if run != [] {
      var n := |run| - 1;
      AccountsMirror(run[..n], uid);
      RunKeepsUsers(run[..n]);
      StepMovesAccount(After(run[..n]), run[n], uid);
      var (t, r) := Step(After(run[..n]), run[n].at, run[n].req);
      AccountFollows(History(run[..n]), Answered(run[n].at, run[n].req, r), uid, After(run[..n]), t);
    }
  }

  /** No two standing registrations, of one user or of two, are for one email. */
  lemma {:induction false} OneAccountPerEmail(run: seq<Event>, a: nat, b: nat, j: nat, k: nat)
    requires ValidRun(run) && Stands(History(run), j, a) && Stands(History(run), k, b)
    requires History(run)[j].req.email == History(run)[k].req.email
    ensures a == b
  {
    AccountsMirror(run, a);
    AccountsMirror(run, b);
    RunKeepsUsers(run);
    assert UserOk(After(run).users[a], After(run).emails, a) && UserOk(After(run).users[b], After(run).emails, b);
  }

  // ---------- what Register, Login and DeleteAccount accept ----------

  ghost predicate Taken(h: seq<Answered>, email: string) {
    exists uid: nat, k: nat :: Stands(h, k, uid) && h[k].req.email == email
  }

  lemma {:induction false} EmailsMirror(run: seq<Event>, email: string)
    requires ValidRun(run)
    ensures email in After(run).emails <==> Taken(History(run), email)
  {
    var h, s := History(run), After(run);
    RunKeepsUsers(run);
    if email in s.emails {
      var uid := s.emails[email];
      AccountsMirror(run, uid);
      assert UserOk(s.users[uid], s.emails, uid);
      var k: nat :| Stands(h, k, uid);
      assert h[k].req.email == email;
    }
    if uid: nat, k: nat :| Stands(h, k, uid) && h[k].req.email == email {
      AccountsMirror(run, uid);
      assert UserOk(s.users[uid], s.emails, uid);
    }
  }

  predicate FilledIn(q: Request)
    requires q.Register?
  {
    q.email != "" && q.verification != "" && q.name != "" && |q.password| >= MIN_PASSWORD
  }

  /** VerifyOTP handed the token out for this email within the last ten minutes and no registration used it up. */
  ghost predicate TokenGood(h: seq<Answered>, now: nat, q: Request)
    requires q.Register?
  {
    exists j: nat :: Open(h, j, q.verification) && h[j].req.email == q.email && now <= h[j].at + VERIFICATION_TTL
  }

  predicate TokenAccepted(s: State, now: nat, q: Request)
    requires q.Register?
  {
    Unused(s, q.verification) && s.verifications[q.verification].email == q.email && now <= s.verifications[q.verification].expiresAt
  }

  lemma {:induction false} TokenGoodExactly(run: seq<Event>, now: nat, q: Request)
    requires ValidRun(run) && q.Register?
    ensures TokenAccepted(After(run), now, q) <==> TokenGood(History(run), now, q)
  {
    var h, s, v := History(run), After(run), q.verification;
    TokensMirror(run, v);
    if Unused(s, v) {
      var j: nat :| Open(h, j, v);
      assert s.verifications[v] == TokenRow(h[j]);
    }
    if j: nat :| Open(h, j, v) && h[j].req.email == q.email && now <= h[j].at + VERIFICATION_TTL {
      assert s.verifications[v] == TokenRow(h[j]);
    }
  }

  lemma {:induction false} RegisterStep(s: State, now: nat, q: Request)
    requires q.Register?
    ensures var r := StepRegister(s, now, q).1;
      && (r.Session? <==> FilledIn(q) && TokenAccepted(s, now, q) && q.email !in s.emails && |q.password| <= Lockout.MAX_PASSWORD)
      && (r.ServerError? <==> FilledIn(q) && TokenAccepted(s, now, q) && q.email !in s.emails && |q.password| > Lockout.MAX_PASSWORD)
      && (r.ServerError? ==> StepRegister(s, now, q).0.users == s.users && !Unused(StepRegister(s, now, q).0, q.verification))
  {
  }

  /**
   * Register opens a session exactly for a filled-in form with a good token, an email that no standing registration
   * has and a password of at most 72 bytes.
   */
  lemma {:induction false} RegisterExactly(run: seq<Event>, now: nat, q: Request)
    requires ValidRun(run) && q.Register?
    ensures Step(After(run), now, q).1.Session? <==>
      FilledIn(q) && TokenGood(History(run), now, q) && !Taken(History(run), q.email) && |q.password| <= Lockout.MAX_PASSWORD
  {
    TokenGoodExactly(run, now, q);
    EmailsMirror(run, q.email);
    RegisterStep(After(run), now, q);
  }

  /** A longer password, and nothing else, meets the server error: no account is made and the token is gone. */
  lemma {:induction false} LongPasswordExactly(run: seq<Event>, now: nat, q: Request)
    requires ValidRun(run) && q.Register?
    ensures var (t, r) := Step(After(run), now, q);
      && (r == ServerError <==>
            FilledIn(q) && TokenGood(History(run), now, q) && !Taken(History(run), q.email) && |q.password| > Lockout.MAX_PASSWORD)
      && (r == ServerError ==> t.users == After(run).users && !Unused(t, q.verification))
  {
    TokenGoodExactly(run, now, q);
    EmailsMirror(run, q.email);
    RegisterStep(After(run), now, q);
  }

  lemma AddressOfLetter()
    ensures Address("a") == "a"
  {
    assert Text.Trim("a") == "a";
    assert Text.Lower("a") == "a";
  }

  function CodeOut(): State { Empty.(otps := [NewOtp("a", "c", 60, 0)]) }

  function TokenOut(): State {
    CodeOut().(otps := [NewOtp("a", "c", 60, 0).(attempts := 1, consumedAt := Some(0))],
               verifications := map["t" := Verification("a", VERIFICATION_TTL, None)])
  }

  lemma {:induction false} CodeThenToken()
    ensures StepRequestOTP(Empty, 0, "a", "c", 60).0 == CodeOut()
    ensures StepVerifyOTP(CodeOut(), 0, "a", "c", "t").0 == TokenOut()
  {
    AddressOfLetter();
    assert CodeOut().otps[..0] == [];
  }

  /** A code is asked for and verified. */
  lemma {:induction false} TokenRun() returns (run: seq<Event>)
    ensures ValidRun(run) && |run| == 2 && run[1].at == 0 && After(run) == TokenOut()
  {
    var e0, e1 := Event(0, RequestOTP("a", "c", 60)), Event(0, VerifyOTP("a", "c", "t"));
    CodeThenToken();
    OneMore([], e0);
    OneMore([] + [e0], e1);
    run := [] + [e0] + [e1];
  }

  /** A sign-up by the book that fails on its password, and cannot be repeated with a shorter one. */
  lemma {:induction false} LongPasswordRun(long: string, short: string) returns (run: seq<Event>)
    requires |long| > Lockout.MAX_PASSWORD && |short| >= MIN_PASSWORD
    ensures ValidRun(run) && |run| == 3 && run[2].req == Register("a", "t", "n", long, 0, 0, "r") && ReplyTo(run, 2) == ServerError
    ensures Step(After(run), 0, Register("a", "t", "n", short, 0, 0, "r")).1 == InvalidToken
  {
    var q := Register("a", "t", "n", long, 0, 0, "r");
    run := TokenRun();
    OneMore(run, Event(0, q));
    run := run + [Event(0, q)];
    RegisterTwice(TokenOut(), q, Register("a", "t", "n", short, 0, 0, "r"));
  }

  lemma {:induction false} RegisterTwice(s: State, q: Request, again: Request)
    requires q.Register? && FilledIn(q) && TokenAccepted(s, 0, q) && q.email !in s.emails && |q.password| > Lockout.MAX_PASSWORD
    requires again.Register? && FilledIn(again) && again.verification == q.verification
    ensures StepRegister(s, 0, q).1 == ServerError
    ensures StepRegister(StepRegister(s, 0, q).0, 0, again).1 == InvalidToken
  {
  }

  lemma {:induction false} OneMore(run: seq<Event>, e: Event)
    ensures After(run + [e]) == Step(After(run), e.at, e.req).0 && ReplyTo(run + [e], |run|) == Step(After(run), e.at, e.req).1
    ensures ValidRun(run) && FreshDraws(After(run), e.req) && (run != [] ==> run[|run| - 1].at <= e.at) ==> ValidRun(run + [e])
  {
    assert (run + [e])[..|run|] == run;
  }

  /** The lock, from the registration and the logins since. */
  predicate LockedOut(h: seq<Answered>, k: nat, now: nat)
    requires k < |h| && h[k].req.Register?
  {
    Lockout.IsLocked(AccountNow(h, k), now)
  }

  /** Registration k of uid stands for these credentials and is not locked. */
  ghost predicate Admits(h: seq<Answered>, k: nat, uid: nat, q: Request, now: nat)
    requires q.Login?
  {
    Stands(h, k, uid) && h[k].req.email == q.email && Lockout.Opens(h[k].req.password, q.password)
    && !LockedOut(h, k, now)
  }

  ghost predicate Admitted(h: seq<Answered>, uid: nat, q: Request, now: nat)
    requires q.Login?
  {
    exists k: nat :: Admits(h, k, uid, q, now)
  }

  /** No registration made an account with a password over 72 bytes. */
  ghost predicate PasswordsFit(h: seq<Answered>) {
    forall k: nat, uid: nat | k < |h| && SignsUp(h[k], uid) :: |h[k].req.password| <= Lockout.MAX_PASSWORD
  }

  lemma {:induction false} RunFits(run: seq<Event>)
    ensures PasswordsFit(History(run))
  {
    if run != [] {
      var n := |run| - 1;
      RunFits(run[..n]);
      if run[n].req.Register? { RegisterStep(After(run[..n]), run[n].at, run[n].req); }
    }
  }

  /**
   * Login opens a session for uid exactly when a standing registration of uid has this email and a password that
   * opens for the one given, and the logins since that named the email have not locked it.
   */
  lemma {:induction false} LoginExactly(run: seq<Event>, now: nat, q: Request, uid: nat)
    requires ValidRun(run) && q.Login?
    ensures Step(After(run), now, q).1 == Session(uid, q.refresh) <==>
      q.password != "" && Admitted(History(run), uid, q, now)
  {
    AccountsMirror(run, uid);
    RunKeepsUsers(run);
    RunFits(run);
    AdmittedLogsIn(History(run), After(run), now, q, uid);
  }

  lemma {:induction false} AdmittedLogsIn(h: seq<Answered>, s: State, now: nat, q: Request, uid: nat)
    requires AccountIs(h, uid, s) && PasswordsFit(h) && UsersOk(s) && q.Login?
    ensures StepLogin(s, now, q).1 == Session(uid, q.refresh) <==> q.password != "" && Admitted(h, uid, q, now)
  {
    LoginStep(s, now, q, uid);
    AdmitsExactly(h, s, now, q, uid);
  }

  lemma {:induction false} AdmitsExactly(h: seq<Answered>, s: State, now: nat, q: Request, uid: nat)
    requires AccountIs(h, uid, s) && PasswordsFit(h) && q.Login?
    ensures LoginAdmits(s, now, q, uid) <==> Admitted(h, uid, q, now)
  {
    forall k: nat | Stands(h, k, uid) ensures Admits(h, k, uid, q, now) <==> LoginAdmits(s, now, q, uid) {
      assert IsAccount(s, uid, h[k].req.email, AccountNow(h, k));
      PasswordStays(Fresh(h[k].req), Tries(h, k));
      Lockout.SameHashExactly(h[k].req.password, q.password);
    }
    if LoginAdmits(s, now, q, uid) {
      var k: nat :| Stands(h, k, uid);
      assert Admits(h, k, uid, q, now);
    }
  }

  lemma {:induction false} PasswordStays(a: Lockout.Account, ts: seq<Lockout.Try>)
    ensures Lockout.AfterTries(a, ts).password == a.password
  {
    if ts != [] { PasswordStays(a, ts[..|ts| - 1]); }
  }

  predicate LoginAdmits(s: State, now: nat, q: Request, uid: nat)
    requires q.Login?
  {
    HasAccount(s, uid) && s.users[uid].email == Some(q.email)
    && !Lockout.IsLocked(s.users[uid].account.value, now) && s.users[uid].account.value.password == Lockout.HashOf(q.password)
  }

  lemma {:induction false} LoginStep(s: State, now: nat, q: Request, uid: nat)
    requires UsersOk(s) && q.Login?
    ensures StepLogin(s, now, q).1 == Session(uid, q.refresh) <==> q.password != "" && LoginAdmits(s, now, q, uid)
  {
    if uid in s.users { assert UserOk(s.users[uid], s.emails, uid); }
  }

  // ---------- the open codes of an address, by the history ----------

  /** A code that can still be used, and how often it was compared without success. */
  datatype OpenCode = OpenCode(text: string, sentAt: nat, until: nat, tries: nat)

  /** The address is that of uid's standing registration. */
  ghost predicate IsAddressOf(h: seq<Answered>, uid: nat, email: string) {
    exists k: nat :: Stands(h, k, uid) && h[k].req.email == email
  }

  /** One more code, unless the newest is younger than 30 seconds. */
  function Pushed(cs: seq<OpenCode>, code: string, now: nat, ttl: nat): seq<OpenCode> {
    if cs == [] || cs[|cs| - 1].sentAt + OTP_SPACING <= now then cs + [OpenCode(code, now, now + ttl, 0)] else cs
  }

  function Popped(cs: seq<OpenCode>): seq<OpenCode> { if cs == [] then [] else cs[..|cs| - 1] }

  /** A comparison with the newest code, if it is still in time and was compared less than five times. */
  function Compared(cs: seq<OpenCode>, now: nat, good: bool): seq<OpenCode> {
    if cs == [] || cs[|cs| - 1].until <= now || cs[|cs| - 1].tries >= MAX_OTP_ATTEMPTS then cs
    else if good then Popped(cs)
    else Popped(cs) + [cs[|cs| - 1].(tries := cs[|cs| - 1].tries + 1)]
  }

  /** What one more answered request makes of the open codes of an address, oldest first. */
  ghost function CodesNext(h: seq<Answered>, x: Answered, email: string, cs: seq<OpenCode>): seq<OpenCode> {
    match x.req
    case RequestOTP(raw, code, ttl) => if x.reply == Sent && Address(raw) == email then Pushed(cs, code, x.at, ttl) else cs
    case RequestDeleteOTP(uid, code, ttl) => if x.reply == Sent && IsAddressOf(h, uid, email) then Pushed(cs, code, x.at, ttl) else cs
    case VerifyOTP(to, _, _) => if to == email then Compared(cs, x.at, x.reply.Verified?) else cs
    case DeleteAccount(uid, _) => if x.reply == Deleted(uid) && IsAddressOf(h, uid, email) then Popped(cs) else cs
    case _ => cs
  }

  /** The codes of an address that can still be used. */
  ghost function Codes(h: seq<Answered>, email: string): seq<OpenCode> {
    if h == [] then []
    else
      var n := |h| - 1;
      CodesNext(h[..n], h[n], email, Codes(h[..n], email))
  }

  function AsOpen(row: Otp): OpenCode { OpenCode(row.hash.code, row.createdAt, row.expiresAt, row.attempts) }

  function IfOpen(row: Otp, email: string): seq<OpenCode> {
    if row.email == email && row.consumedAt.None? then [AsOpen(row)] else []
  }

  /** The unconsumed rows of an address. */
  function OpenRows(otps: seq<Otp>, email: string): seq<OpenCode> {
    if otps == [] then []
    else
      var n := |otps| - 1;
      OpenRows(otps[..n], email) + IfOpen(otps[n], email)
  }

  lemma OneMoreRow(otps: seq<Otp>, row: Otp, email: string)
    ensures OpenRows(otps + [row], email)
      == OpenRows(otps, email) + IfOpen(row, email)
  {
    assert (otps + [row])[..|otps|] == otps;
  }

  lemma {:induction false} LatestIsTop(otps: seq<Otp>, email: string)
    ensures var i, cs := Latest(otps, email), OpenRows(otps, email);
      if i < 0 then cs == [] else cs != [] && cs[|cs| - 1] == AsOpen(otps[i])
  {
    if otps != [] {
      LatestIsTop(otps[..|otps| - 1], email);
      assert OpenRows(otps[..|otps| - 1], email) + [] == OpenRows(otps[..|otps| - 1], email);
    }
  }

  /** What touching the newest code of one address makes of the open codes of any. */
  function Touched(cs: seq<OpenCode>, same: bool, row: Otp): seq<OpenCode> {
    if !same || cs == [] then cs else cs[..|cs| - 1] + if row.consumedAt.None? then [AsOpen(row)] else []
  }

  lemma TouchedMore(cs: seq<OpenCode>, same: bool, row: Otp, more: seq<OpenCode>)
    requires same ==> more == [] && cs != []
    ensures Touched(cs + more, same, row) == Touched(cs, same, row) + more
  {
    assert cs + [] == cs && Touched(cs, same, row) + [] == Touched(cs, same, row);
  }

  lemma LastRow(otps: seq<Otp>, email: string)
    requires otps != []
    ensures OpenRows(otps, email) == OpenRows(otps[..|otps| - 1], email) + IfOpen(otps[|otps| - 1], email)
  {
  }

  lemma TouchLast(otps: seq<Otp>, email: string, row: Otp, other: string)
    requires otps != [] && row.email == email == otps[|otps| - 1].email && otps[|otps| - 1].consumedAt.None?
    ensures OpenRows(otps[|otps| - 1 := row], other) == Touched(OpenRows(otps, other), other == email, row)
  {
    var n := |otps| - 1;
    LastRow(otps, other);
    assert otps[n := row] == otps[..n] + [row];
    OneMoreRow(otps[..n], row, other);
  }

  /** Counting an attempt or consuming the newest code of one address. */
  lemma {:induction false} TouchTop(otps: seq<Otp>, email: string, row: Otp, other: string)
    requires 0 <= Latest(otps, email) && row.email == email
    ensures OpenRows(otps[Latest(otps, email) := row], other) == Touched(OpenRows(otps, other), other == email, row)
  {
    var n, i := |otps| - 1, Latest(otps, email);
    if i == n {
      TouchLast(otps, email, row, other);
    } else {
      hide OpenRows, Touched;
      TouchTop(otps[..n], email, row, other);
      LatestIsTop(otps[..n], email);
      LastRow(otps, other);
      assert otps[i := row] == otps[..n][i := row] + [otps[n]];
      OneMoreRow(otps[..n][i := row], otps[n], other);
      TouchedMore(OpenRows(otps[..n], other), other == email, row, IfOpen(otps[n], other));
    }
  }

  /** As open codes are spaced, only the newest can be too young. */
  lemma {:induction false} RecentIsTop(otps: seq<Otp>, email: string, now: nat)
    requires Spaced(otps)
    ensures RecentCode(otps, email, now) <==>
      var cs := OpenRows(otps, email); cs != [] && now < cs[|cs| - 1].sentAt + OTP_SPACING
  {
    LatestIsTop(otps, email);
    var i := Latest(otps, email);
    if RecentCode(otps, email, now) {
      var j :| 0 <= j < |otps| && otps[j].email == email && otps[j].consumedAt.None? && otps[j].createdAt + OTP_SPACING > now;
      LatestIsLast(otps, email, j);
    }
  }

  lemma {:induction false} SendMoves(s: State, now: nat, to: string, code: string, ttl: nat, email: string)
    requires Spaced(s.otps)
    ensures var cs := OpenRows(s.otps, email);
      OpenRows(SendCode(s, now, to, code, ttl).otps, email) == if to == email then Pushed(cs, code, now, ttl) else cs
  {
    RecentIsTop(s.otps, to, now);
    OneMoreRow(s.otps, NewOtp(to, code, ttl, now), email);
    hide OpenRows, RecentCode, Spaced;
    assert OpenRows(s.otps, email) + [] == OpenRows(s.otps, email);
  }

  lemma {:induction false} VerifyMoves(s: State, now: nat, to: string, code: string, token: string, email: string)
    ensures var (t, r) := StepVerifyOTP(s, now, to, code, token);
      var cs := OpenRows(s.otps, email);
      OpenRows(t.otps, email) == if to == email then Compared(cs, now, r.Verified?) else cs
  {
    var i := Latest(s.otps, to);
    LatestIsTop(s.otps, to);
    hide Latest, OpenRows;
    if i >= 0 {
      var tried := s.otps[i].(attempts := s.otps[i].attempts + 1);
      TouchTop(s.otps, to, tried, email);
      TouchTop(s.otps, to, tried.(consumedAt := Some(now)), email);
    }
  }

  lemma {:induction false} ConsumeMoves(otps: seq<Otp>, to: string, now: nat, email: string)
    requires 0 <= Latest(otps, to)
    ensures var i, cs := Latest(otps, to), OpenRows(otps, email);
      OpenRows(otps[i := otps[i].(consumedAt := Some(now))], email) == if to == email then Popped(cs) else cs
  {
    var i := Latest(otps, to);
    TouchTop(otps, to, otps[i].(consumedAt := Some(now)), email);
  }

  lemma DeleteConsumes(s: State, now: nat, uid: nat, raw: string)
    requires uid in s.users && s.users[uid].email.Some? && !s.users[uid].isGuest && s.users[uid].email.value != ""
    ensures var (t, r) := StepDeleteAccount(s, now, uid, raw);
      var i := Latest(s.otps, s.users[uid].email.value);
      if r == Deleted(uid) then 0 <= i && t.otps == s.otps[i := s.otps[i].(consumedAt := Some(now))] else t == s
  {
    hide Latest;
  }

  lemma {:induction false} DeleteCodeMoves(s: State, now: nat, uid: nat, raw: string, email: string)
    requires UsersOk(s)
    ensures var (t, r) := StepDeleteAccount(s, now, uid, raw);
      var cs := OpenRows(s.otps, email);
      OpenRows(t.otps, email) ==
        if r == Deleted(uid) && uid in s.users && s.users[uid].email == Some(email) then Popped(cs) else cs
  {
    if uid in s.users && s.users[uid].email.Some? {
      assert UserOk(s.users[uid], s.emails, uid);
      var to := s.users[uid].email.value;
      DeleteConsumes(s, now, uid, raw);
      hide Latest, OpenRows, UsersOk, StepDeleteAccount, Popped;
      if Latest(s.otps, to) >= 0 { ConsumeMoves(s.otps, to, now, email); }
    }
  }

  lemma {:induction false} AskDeleteMoves(s: State, now: nat, uid: nat, code: string, ttl: nat, email: string)
    requires UsersOk(s) && Spaced(s.otps)
    ensures var (t, r) := StepRequestDeleteOTP(s, now, uid, code, ttl);
      var cs := OpenRows(s.otps, email);
      OpenRows(t.otps, email) ==
        if r == Sent && uid in s.users && s.users[uid].email == Some(email) then Pushed(cs, code, now, ttl) else cs
  {
    if uid in s.users && s.users[uid].email.Some? {
      assert UserOk(s.users[uid], s.emails, uid);
      hide OpenRows, UsersOk, Spaced, SendCode;
      SendMoves(s, now, s.users[uid].email.value, code, ttl, email);
    }
  }

  lemma {:induction false} KnownAddress(h: seq<Answered>, s: State, uid: nat, email: string)
    requires AccountIs(h, uid, s) && UsersOk(s)
    ensures IsAddressOf(h, uid, email) <==> uid in s.users && s.users[uid].email == Some(email)
  {
    if uid in s.users { assert UserOk(s.users[uid], s.emails, uid); }
    if HasAccount(s, uid) {
      var k: nat :| Stands(h, k, uid);
      assert IsAccount(s, uid, h[k].req.email, AccountNow(h, k));
    }
    forall k: nat | Stands(h, k, uid) ensures s.users[uid].email == Some(h[k].req.email) {
      assert IsAccount(s, uid, h[k].req.email, AccountNow(h, k));
    }
  }

  lemma {:induction false} StepFollows(h: seq<Answered>, s: State, e: Event, email: string)
    requires Spaced(s.otps) && UsersOk(s)
    requires e.req.DeleteAccount? || e.req.RequestDeleteOTP? ==> AccountIs(h, e.req.uid, s)
    ensures var (t, r) := Step(s, e.at, e.req);
      OpenRows(t.otps, email) == CodesNext(h, Answered(e.at, e.req, r), email, OpenRows(s.otps, email))
  {
    hide OpenRows, UsersOk, Spaced, AccountIs, IsAddressOf, SendCode, Pushed, Compared, Popped, StepVerifyOTP, StepDeleteAccount;
    match e.req
    case RequestOTP(raw, code, ttl) => SendMoves(s, e.at, Address(raw), code, ttl, email);
    case VerifyOTP(to, code, token) => VerifyMoves(s, e.at, to, code, token, email);
    case DeleteAccount(uid, raw) =>
      KnownAddress(h, s, uid, email);
      DeleteCodeMoves(s, e.at, uid, raw, email);
    case RequestDeleteOTP(uid, code, ttl) =>
      KnownAddress(h, s, uid, email);
      AskDeleteMoves(s, e.at, uid, code, ttl, email);
    case _ =>
  }

  /** The unconsumed codes of an address are those that the history of requests and replies leaves open. */
  lemma {:induction false} CodesMirror(run: seq<Event>, email: string)
    requires ValidRun(run)
    ensures OpenRows(After(run).otps, email) == Codes(History(run), email)
  {
    if run != [] {
      var n := |run| - 1;
      var e, h, s := run[n], History(run[..n]), After(run[..n]);
      CodesMirror(run[..n], email);
      CodesSpaced(run[..n]);
      RunKeepsUsers(run[..n]);
      if e.req.DeleteAccount? || e.req.RequestDeleteOTP? {
        AccountsMirror(run[..n], e.req.uid);
      }
      StepFollows(h, s, e, email);
      var (t, r) := Step(s, e.at, e.req);
      OneMoreCode(h, Answered(e.at, e.req, r), email);
    }
  }

  lemma OneMoreCode(h: seq<Answered>, x: Answered, email: string)
    ensures Codes(h + [x], email) == CodesNext(h, x, email, Codes(h, email))
  {
    assert (h + [x])[..|h|] == h;
  }

  /** The newest open code of an address is this one, before its time is over. */
  ghost predicate NewestIs(h: seq<Answered>, email: string, code: string) {
    var cs := Codes(h, email);
    cs != [] && cs[|cs| - 1].text == code
  }

  /**
   * VerifyOTP hands out a token exactly for the newest open code of the address, submitted as it was sent, before
   * it expires and before it was compared five times.
   */
  lemma {:induction false} VerifyExactly(run: seq<Event>, now: nat, email: string, code: string, token: string)
    requires ValidRun(run)
    ensures var cs := Codes(History(run), email);
      Step(After(run), now, VerifyOTP(email, code, token)).1 == Verified(token) <==>
        NewestIs(History(run), email, code) && now < cs[|cs| - 1].until && cs[|cs| - 1].tries < MAX_OTP_ATTEMPTS
  {
    CodesMirror(run, email);
    VerifyStep(History(run), After(run), now, email, code, token);
  }

  lemma VerifyStep(h: seq<Answered>, s: State, now: nat, email: string, code: string, token: string)
    requires OpenRows(s.otps, email) == Codes(h, email)
    ensures var cs := Codes(h, email);
      StepVerifyOTP(s, now, email, code, token).1 == Verified(token) <==>
        NewestIs(h, email, code) && now < cs[|cs| - 1].until && cs[|cs| - 1].tries < MAX_OTP_ATTEMPTS
  {
    LatestIsTop(s.otps, email);
    hide Codes, OpenRows, Latest;
  }

  /** Registration k of uid stands and the newest open code of its address is the one submitted, in time. */
  ghost predicate CodeAdmits(h: seq<Answered>, uid: nat, code: string, now: nat, k: nat) {
    Stands(h, k, uid) && NewestIs(h, h[k].req.email, code)
    && var cs := Codes(h, h[k].req.email); now <= cs[|cs| - 1].until
  }

  ghost predicate MayDelete(h: seq<Answered>, uid: nat, code: string, now: nat) {
    exists k: nat :: CodeAdmits(h, uid, code, now, k)
  }

  /** An account is deleted exactly on the newest open code of its own address, as it was sent and before it expires. */
  lemma {:induction false} DeleteExactly(run: seq<Event>, now: nat, uid: nat, raw: string)
    requires ValidRun(run)
    ensures Step(After(run), now, DeleteAccount(uid, raw)).1 == Deleted(uid) <==>
      raw != "" && MayDelete(History(run), uid, Text.Trim(raw), now)
  {
    hide Step, StepDeleteAccount, CodeAdmits, After, History, AccountIs, UsersOk;
    IsDelete(After(run), now, uid, raw);
    RunKeepsUsers(run);
    AccountsMirror(run, uid);
    forall email ensures OpenRows(After(run).otps, email) == Codes(History(run), email) { CodesMirror(run, email); }
    AdmittedDeletes(History(run), After(run), uid, raw, now);
  }

  lemma IsDelete(s: State, now: nat, uid: nat, raw: string)
    ensures Step(s, now, DeleteAccount(uid, raw)) == StepDeleteAccount(s, now, uid, raw)
  {
  }

  lemma {:induction false} AdmittedDeletes(h: seq<Answered>, s: State, uid: nat, raw: string, now: nat)
    requires AccountIs(h, uid, s) && UsersOk(s) && forall email :: OpenRows(s.otps, email) == Codes(h, email)
    ensures StepDeleteAccount(s, now, uid, raw).1 == Deleted(uid) <==>
      raw != "" && MayDelete(h, uid, Text.Trim(raw), now)
  {
    DeleteStep(s, now, uid, raw);
    AdmitsExists(h, s, uid, raw, now);
  }

  lemma {:induction false} AdmitsExists(h: seq<Answered>, s: State, uid: nat, raw: string, now: nat)
    requires AccountIs(h, uid, s) && forall email :: OpenRows(s.otps, email) == Codes(h, email)
    ensures DeleteAdmits(s, now, uid, raw) <==> MayDelete(h, uid, Text.Trim(raw), now)
  {
    hide CodeAdmits, Stands, OpenRows, Codes;
    forall k: nat | Stands(h, k, uid) ensures CodeAdmits(h, uid, Text.Trim(raw), now, k) <==> DeleteAdmits(s, now, uid, raw) {
      CodeAdmitsExactly(h, s, uid, raw, now, k);
    }
    if k: nat :| CodeAdmits(h, uid, Text.Trim(raw), now, k) { AdmitsStands(h, uid, Text.Trim(raw), now, k); }
    if DeleteAdmits(s, now, uid, raw) {
      var k: nat :| Stands(h, k, uid);
      assert CodeAdmits(h, uid, Text.Trim(raw), now, k);
    }
  }

  lemma AdmitsStands(h: seq<Answered>, uid: nat, code: string, now: nat, k: nat)
    requires CodeAdmits(h, uid, code, now, k)
    ensures Stands(h, k, uid)
  {
  }

  lemma {:induction false} CodeAdmitsExactly(h: seq<Answered>, s: State, uid: nat, raw: string, now: nat, k: nat)
    requires AccountIs(h, uid, s) && Stands(h, k, uid) && OpenRows(s.otps, h[k].req.email) == Codes(h, h[k].req.email)
    ensures CodeAdmits(h, uid, Text.Trim(raw), now, k) <==> DeleteAdmits(s, now, uid, raw)
  {
    assert IsAccount(s, uid, h[k].req.email, AccountNow(h, k));
    LatestIsTop(s.otps, h[k].req.email);
    hide Codes, OpenRows, Latest, AccountNow;
  }

  predicate DeleteAdmits(s: State, now: nat, uid: nat, raw: string) {
    HasAccount(s, uid) && s.users[uid].email.Some?
    && var i := Latest(s.otps, s.users[uid].email.value);
       0 <= i && now <= s.otps[i].expiresAt && s.otps[i].hash == Bcrypt(Text.Trim(raw))
  }

  lemma {:induction false} DeleteStep(s: State, now: nat, uid: nat, raw: string)
    requires UsersOk(s)
    ensures StepDeleteAccount(s, now, uid, raw).1 == Deleted(uid) <==> raw != "" && DeleteAdmits(s, now, uid, raw)
  {
    if uid in s.users { assert UserOk(s.users[uid], s.emails, uid); }
  }
}
