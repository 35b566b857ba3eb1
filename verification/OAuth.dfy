// The OAuth authorization-code and token store (internal/oauth/store.go).
//
// Each store call is one atomic step over oauth_auth_codes and oauth_tokens on one clock, and
// the database statements succeed unless a foreign key is missing.
module OAuth {
  import opened Common

  const ACCESS_TTL: nat := 3600
  const REFRESH_TTL: nat := 30 * 24 * 3600
  const CODE_TTL: nat := 600

  // ---------- tables ----------

  datatype Code = Code(client: string, user: string, redirect: string, scope: string, expiresAt: nat, usedAt: Option<nat>)

  datatype Pair = Pair(client: string, user: string, refresh: Hash, scope: string,
                       expiresAt: nat, refreshExpiresAt: nat, revokedAt: Option<nat>)

  /** `pairs` is keyed by access_token_hash; `refreshIndex` is the unique index on refresh_token_hash. */
  datatype State = State(users: set<string>, codes: map<string, Code>, pairs: map<Hash, Pair>,
                         refreshIndex: map<Hash, Hash>, drawn: set<string>)

  const Empty := State({}, map[], map[], map[], {})

  // ---------- requests ----------

  datatype Request =
    | AddUser(user: string)
    | DeleteUser(user: string)
    | CreateAuthCode(client: string, user: string, redirect: string, scope: string, code: string)
    | ExchangeAuthCode(code: string, client: string, redirect: string)
    | IssueTokenPair(client: string, user: string, scope: string, access: string, refresh: string)
    | RotateRefreshToken(refresh: string, client: string, newAccess: string, newRefresh: string)
    | RevokeByToken(token: string)

  /** What a successful call hands to its caller. */
  datatype Grant = Grant(access: string, refresh: string, client: string, user: string, scope: string)

  datatype Reply =
    | Done
    | CodeCreated(code: string)
    | Exchanged(user: string, scope: string)
    | Issued(grant: Grant)
    | InvalidCode | ClientMismatch | RedirectMismatch | CodeUsed | CodeExpired
    | InvalidRefresh | Revoked | RefreshExpired | ForeignKey

  // ---------- SQL statements ----------

  function RevokeOf(pairs: map<Hash, Pair>, client: string, user: string, now: nat): map<Hash, Pair> {
    map h | h in pairs ::
      if pairs[h].client == client && pairs[h].user == user && pairs[h].revokedAt.None?
      then pairs[h].(revokedAt := Some(now)) else pairs[h]
  }

  /** WHERE access_token_hash=$1 OR refresh_token_hash=$1. */
  function RevokeToken(pairs: map<Hash, Pair>, token: Hash, now: nat): map<Hash, Pair> {
    map h | h in pairs ::
      if h == token || pairs[h].refresh == token then pairs[h].(revokedAt := Some(now)) else pairs[h]
  }

  function RowOf(g: Grant, now: nat): Pair {
    Pair(g.client, g.user, Sha256(g.refresh), g.scope, now + ACCESS_TTL, now + REFRESH_TTL, None)
  }

  // ---------- the store calls as functions ----------

  function StepExchange(s: State, now: nat, code: string, client: string, redirect: string): (State, Reply) {
    if code !in s.codes then (s, InvalidCode)
    else
      var c := s.codes[code];
      if c.client != client then (s, ClientMismatch)
      else if c.redirect != redirect then (s, RedirectMismatch)
      else if c.usedAt.Some? then (s, CodeUsed)
      else if now > c.expiresAt then (s, CodeExpired)
      else (s.(codes := s.codes[code := c.(usedAt := Some(now))]), Exchanged(c.user, c.scope))
  }

  function StepIssue(s: State, now: nat, g: Grant): (State, Reply) {
    var s1 := s.(pairs := RevokeOf(s.pairs, g.client, g.user, now), drawn := s.drawn + {g.access, g.refresh});
    if g.user !in s.users then (s1, ForeignKey)
    else (s1.(pairs := s1.pairs[Sha256(g.access) := RowOf(g, now)],
              refreshIndex := s.refreshIndex[Sha256(g.refresh) := Sha256(g.access)]),
          Issued(g))
  }

  function StepRotate(s: State, now: nat, refresh: string, client: string, access': string, refresh': string): (State, Reply) {
    var r := Sha256(refresh);
    if r !in s.refreshIndex || s.refreshIndex[r] !in s.pairs then (s, InvalidRefresh)
    else
      var h := s.refreshIndex[r];
      var p := s.pairs[h];
      if p.client != client then (s, ClientMismatch)
      else if p.revokedAt.Some? then (s, Revoked)
      else if now > p.refreshExpiresAt then (s, RefreshExpired)
      else StepIssue(s.(pairs := s.pairs[h := p.(revokedAt := Some(now))]), now,
                     Grant(access', refresh', client, p.user, p.scope))
  }

  /** ON DELETE CASCADE from app_users. */
  function StepDelete(s: State, user: string): State {
    s.(users := s.users - {user},
       codes := map c | c in s.codes && s.codes[c].user != user :: s.codes[c],
       pairs := map h | h in s.pairs && s.pairs[h].user != user :: s.pairs[h],
       refreshIndex := map r | r in s.refreshIndex && s.refreshIndex[r] in s.pairs
                               && s.pairs[s.refreshIndex[r]].user != user :: s.refreshIndex[r])
  }

  function Step(s: State, now: nat, q: Request): (State, Reply) {
    match q
    case AddUser(user) => (s.(users := s.users + {user}), Done)
    case DeleteUser(user) => (StepDelete(s, user), Done)
    case CreateAuthCode(client, user, redirect, scope, code) =>
      if user !in s.users then (s, ForeignKey)
      else (s.(codes := s.codes[code := Code(client, user, redirect, scope, now + CODE_TTL, None)],
               drawn := s.drawn + {code}), CodeCreated(code))
    case ExchangeAuthCode(code, client, redirect) => StepExchange(s, now, code, client, redirect)
    case IssueTokenPair(client, user, scope, access, refresh) =>
      StepIssue(s, now, Grant(access, refresh, client, user, scope))
    case RotateRefreshToken(refresh, client, newAccess, newRefresh) =>
      StepRotate(s, now, refresh, client, newAccess, newRefresh)
    case RevokeByToken(token) => (s.(pairs := RevokeToken(s.pairs, Sha256(token), now)), Done)
  }

  datatype TokenInfo = TokenInfo(client: string, user: string, scope: string)

  function LookupAccessToken(s: State, now: nat, token: string): Option<TokenInfo> {
    var h := Sha256(token);
    if h !in s.pairs || s.pairs[h].revokedAt.Some? || now > s.pairs[h].expiresAt then None
    else Some(TokenInfo(s.pairs[h].client, s.pairs[h].user, s.pairs[h].scope))
  }

  /** secureToken never draws a value twice. */
  predicate FreshDraws(s: State, q: Request) {
    match q
    case CreateAuthCode(_, _, _, _, code) => code !in s.drawn
    case IssueTokenPair(_, _, _, access, refresh) => access !in s.drawn && refresh !in s.drawn && access != refresh
    case RotateRefreshToken(_, _, access, refresh) => access !in s.drawn && refresh !in s.drawn && access != refresh
    case _ => true
  }

  // ---------- runs and their history ----------

  datatype Event = Event(at: nat, req: Request)

  function After(run: seq<Event>): State {
    if run == [] then Empty else
      var n := |run| - 1;
      Step(After(run[..n]), run[n].at, run[n].req).0
  }

  predicate ValidRun(run: seq<Event>) {
    run == [] ||
    var n := |run| - 1;
    ValidRun(run[..n]) && FreshDraws(After(run[..n]), run[n].req)
  }

  /** The answers, in request order. */
  function Replies(run: seq<Event>): (rs: seq<Reply>)
    ensures |rs| == |run|
  {
    if run == [] then [] else
      var n := |run| - 1;
      Replies(run[..n]) + [Step(After(run[..n]), run[n].at, run[n].req).1]
  }

  predicate Gave(run: seq<Event>, i: nat, g: Grant)
    requires i < |run|
  {
    Replies(run)[i] == Issued(g)
  }

  /** A request so answered does not end grant g: no newer pair for its client and user, no revocation, no deletion. */
  predicate Spares(q: Request, r: Reply, g: Grant) {
    && (r.Issued? ==> !(r.grant.client == g.client && r.grant.user == g.user))
    && q != RevokeByToken(g.access) && q != RevokeByToken(g.refresh)
    && q != DeleteUser(g.user)
  }

  /** Request i issued g and nothing since has ended it. */
  ghost predicate StillGood(run: seq<Event>, i: nat, g: Grant)
    requires i < |run|
  {
    Gave(run, i, g) && forall j | i < j < |run| :: Spares(run[j].req, Replies(run)[j], g)
  }

  predicate LiveRow(s: State, g: Grant, at: nat) {
    Sha256(g.access) in s.pairs && s.pairs[Sha256(g.access)] == RowOf(g, at)
  }

  // ---------- invariant ----------

  ghost predicate StateOk(s: State) {
    && (forall h | h in s.pairs :: h.token in s.drawn && s.pairs[h].refresh.token in s.drawn
          && s.pairs[h].refresh in s.refreshIndex && s.refreshIndex[s.pairs[h].refresh] == h)
    && (forall r | r in s.refreshIndex :: s.refreshIndex[r] in s.pairs && s.pairs[s.refreshIndex[r]].refresh == r)
    && (forall h | h in s.pairs :: h !in s.refreshIndex)
    && (forall h | h in s.pairs && s.pairs[h].revokedAt.None? :: s.pairs[h].user in s.users)
  }

  /** At most one unrevoked pair per client and user. */
  ghost predicate OnePair(s: State) {
    forall g, h | g in s.pairs && h in s.pairs && s.pairs[g].revokedAt.None? && s.pairs[h].revokedAt.None?
      && s.pairs[g].client == s.pairs[h].client && s.pairs[g].user == s.pairs[h].user :: g == h
  }

  ghost predicate Sound(s: State) {
    StateOk(s) && OnePair(s)
  }

  predicate NoLivePair(s: State, client: string, user: string) {
    forall h | h in s.pairs && s.pairs[h].client == client && s.pairs[h].user == user :: s.pairs[h].revokedAt.Some?
  }

  function Insert(s: State, now: nat, g: Grant): State {
    s.(pairs := s.pairs[Sha256(g.access) := RowOf(g, now)],
       refreshIndex := s.refreshIndex[Sha256(g.refresh) := Sha256(g.access)], drawn := s.drawn + {g.access, g.refresh})
  }

  lemma {:induction false} RevokeOfKeepsSound(s: State, now: nat, client: string, user: string)
    requires Sound(s)
    ensures var s' := s.(pairs := RevokeOf(s.pairs, client, user, now)); Sound(s') && NoLivePair(s', client, user)
  {
  }

  lemma {:induction false} InsertKeepsState(s: State, now: nat, g: Grant)
    requires StateOk(s) && g.access !in s.drawn && g.refresh !in s.drawn && g.access != g.refresh && g.user in s.users
    ensures StateOk(Insert(s, now, g))
  {
    var s' := Insert(s, now, g);
    assert forall r | r in s.refreshIndex :: s.refreshIndex[r] in s.pairs && r.token in s.drawn by {
      forall r | r in s.refreshIndex ensures r.token in s.drawn { assert s.pairs[s.refreshIndex[r]].refresh == r; }
    }
  }

  lemma {:induction false} InsertKeepsOnePair(s: State, now: nat, g: Grant)
    requires OnePair(s) && NoLivePair(s, g.client, g.user)
    ensures OnePair(Insert(s, now, g))
  {
  }

  lemma {:induction false} IssueKeepsSound(s: State, now: nat, g: Grant)
    requires Sound(s) && g.access !in s.drawn && g.refresh !in s.drawn && g.access != g.refresh
    ensures Sound(StepIssue(s, now, g).0)
  {
    RevokeOfKeepsSound(s, now, g.client, g.user);
    var s1 := s.(pairs := RevokeOf(s.pairs, g.client, g.user, now));
    if g.user in s.users {
      InsertKeepsState(s1, now, g);
      InsertKeepsOnePair(s1, now, g);
      assert StepIssue(s, now, g).0 == Insert(s1, now, g);
    } else {
      assert Sound(s1.(drawn := s.drawn + {g.access, g.refresh}));
    }
  }

  lemma {:induction false} RevokeOneKeepsSound(s: State, now: nat, h: Hash)
    requires Sound(s) && h in s.pairs
    ensures Sound(s.(pairs := s.pairs[h := s.pairs[h].(revokedAt := Some(now))]))
  {
  }

  lemma {:induction false} RevokeTokenKeepsSound(s: State, now: nat, t: Hash)
    requires Sound(s)
    ensures Sound(s.(pairs := RevokeToken(s.pairs, t, now)))
  {
  }

  lemma {:induction false} DeleteKeepsSound(s: State, user: string)
    requires Sound(s)
    ensures Sound(StepDelete(s, user))
  {
  }

  lemma {:induction false} StepKeepsSound(s: State, now: nat, q: Request)
    requires Sound(s) && FreshDraws(s, q)
    ensures Sound(Step(s, now, q).0)
  {
    match q
    case IssueTokenPair(client, user, scope, access, refresh) =>
      IssueKeepsSound(s, now, Grant(access, refresh, client, user, scope));
    case RotateRefreshToken(refresh, client, access', refresh') => RotateKeepsSound(s, now, refresh, client, access', refresh');
    case RevokeByToken(token) => RevokeTokenKeepsSound(s, now, Sha256(token));
    case DeleteUser(user) => DeleteKeepsSound(s, user);
    case ExchangeAuthCode(_, _, _) => CodesKeepSound(s, Step(s, now, q).0);
    case CreateAuthCode(_, _, _, _, _) => CodesKeepSound(s, Step(s, now, q).0);
    case AddUser(_) => CodesKeepSound(s, Step(s, now, q).0);
  }

  lemma {:induction false} RotateKeepsSound(s: State, now: nat, refresh: string, client: string, access': string, refresh': string)
    requires Sound(s) && access' !in s.drawn && refresh' !in s.drawn && access' != refresh'
    ensures Sound(StepRotate(s, now, refresh, client, access', refresh').0)
  {
    if StepRotate(s, now, refresh, client, access', refresh').0 != s {
      var h := s.refreshIndex[Sha256(refresh)];
      RevokeOneKeepsSound(s, now, h);
      IssueKeepsSound(s.(pairs := s.pairs[h := s.pairs[h].(revokedAt := Some(now))]), now,
                      Grant(access', refresh', client, s.pairs[h].user, s.pairs[h].scope));
    }
  }

  lemma {:induction false} CodesKeepSound(s: State, t: State)
    requires Sound(s) && t.pairs == s.pairs && t.refreshIndex == s.refreshIndex && s.users <= t.users && s.drawn <= t.drawn
    ensures Sound(t)
  {
  }

  lemma {:induction false} RunKeepsSound(run: seq<Event>)
    requires ValidRun(run)
    ensures Sound(After(run))
  {
    if run != [] {
      var n := |run| - 1;
      RunKeepsSound(run[..n]);
      StepKeepsSound(After(run[..n]), run[n].at, run[n].req);
    }
  }

  // ---------- the table mirrors the history ----------

  lemma {:induction false} LiveRowIssue(s: State, now: nat, fresher: Grant, g: Grant, at: nat)
    requires Sound(s) && g.access in s.drawn && g.refresh in s.drawn && fresher.access !in s.drawn
    ensures LiveRow(StepIssue(s, now, fresher).0, g, at)
            <==> LiveRow(s, g, at) && !(fresher.user in s.users && fresher.client == g.client && fresher.user == g.user)
  {
  }

  lemma {:induction false} LiveRowRotate(s: State, now: nat, refresh: string, client: string, access': string, refresh': string,
                                         g: Grant, at: nat)
    requires Sound(s) && g.access in s.drawn && g.refresh in s.drawn
    requires access' !in s.drawn && refresh' !in s.drawn && access' != refresh'
    ensures LiveRow(StepRotate(s, now, refresh, client, access', refresh').0, g, at)
      <==> LiveRow(s, g, at)
           && var r := StepRotate(s, now, refresh, client, access', refresh').1;
              !(r.Issued? && r.grant.client == g.client && r.grant.user == g.user)
  {
    var r := Sha256(refresh);
    if r in s.refreshIndex && s.refreshIndex[r] in s.pairs {
      var h := s.refreshIndex[r];
      var p := s.pairs[h];
      RevokeOneKeepsSound(s, now, h);
      LiveRowIssue(s.(pairs := s.pairs[h := p.(revokedAt := Some(now))]), now,
                   Grant(access', refresh', client, p.user, p.scope), g, at);
    }
  }

  lemma {:induction false} LiveRowStep(s: State, now: nat, q: Request, g: Grant, at: nat)
    requires Sound(s) && FreshDraws(s, q) && g.access in s.drawn && g.refresh in s.drawn
    ensures LiveRow(Step(s, now, q).0, g, at) <==> LiveRow(s, g, at) && Spares(q, Step(s, now, q).1, g)
  {
    match q
    case IssueTokenPair(client, user, scope, access, refresh) =>
      LiveRowIssue(s, now, Grant(access, refresh, client, user, scope), g, at);
    case RotateRefreshToken(refresh, client, access', refresh') =>
      LiveRowRotate(s, now, refresh, client, access', refresh', g, at);
    case _ =>
  }

  lemma {:induction false} IssuedIsLive(s: State, now: nat, q: Request, g: Grant)
    requires Sound(s) && FreshDraws(s, q) && Step(s, now, q).1 == Issued(g)
    ensures LiveRow(Step(s, now, q).0, g, now)
    ensures g.access !in s.drawn && g.refresh !in s.drawn
    ensures g.access in Step(s, now, q).0.drawn && g.refresh in Step(s, now, q).0.drawn
  {
  }

  /** Whatever row is live after a request was live before it or was just issued. */
  lemma {:induction false} LiveComesFrom(s: State, now: nat, q: Request, h: Hash)
    requires Sound(s) && FreshDraws(s, q)
    requires var s' := Step(s, now, q).0; h in s'.pairs && s'.pairs[h].revokedAt.None?
    ensures var (s', r) := Step(s, now, q);
      (h in s.pairs && s.pairs[h] == s'.pairs[h]) || (r.Issued? && h == Sha256(r.grant.access) && s'.pairs[h] == RowOf(r.grant, now))
  {
  }

  ghost predicate Mirrors(run: seq<Event>) {
    var s := After(run);
    && (forall i, g | 0 <= i < |run| && Gave(run, i, g) ::
          g.access in s.drawn && g.refresh in s.drawn && (StillGood(run, i, g) <==> LiveRow(s, g, run[i].at)))
    && (forall h | h in s.pairs && s.pairs[h].revokedAt.None? :: RowHasGrant(run, h, s.pairs[h]))
  }

  lemma {:induction false} PrefixSame(run: seq<Event>, i: nat)
    requires i < |run| - 1
    ensures Replies(run[..|run| - 1])[i] == Replies(run)[i]
  {
  }

  lemma {:induction false} StillGoodStep(run: seq<Event>, i: nat, g: Grant)
    requires run != [] && i < |run| - 1
    ensures StillGood(run, i, g) <==>
      StillGood(run[..|run| - 1], i, g) && Spares(run[|run| - 1].req, Replies(run)[|run| - 1], g)
  {
    var n := |run| - 1;
    forall j | 0 <= j < n ensures Replies(run[..n])[j] == Replies(run)[j] { PrefixSame(run, j); }
    if StillGood(run[..n], i, g) {
      forall j | i < j < n ensures Spares(run[j].req, Replies(run)[j], g) { assert run[..n][j] == run[j]; }
    }
  }

  lemma {:induction false} DrawnGrows(s: State, now: nat, q: Request)
    ensures s.drawn <= Step(s, now, q).0.drawn
  {
  }

  lemma {:induction false} OldGrantMirrors(run: seq<Event>, i: nat, g: Grant)
    requires run != [] && ValidRun(run) && Mirrors(run[..|run| - 1]) && i < |run| - 1 && Gave(run, i, g)
    ensures g.access in After(run).drawn && g.refresh in After(run).drawn
    ensures StillGood(run, i, g) <==> LiveRow(After(run), g, run[i].at)
  {
    var n := |run| - 1;
    var pre := After(run[..n]);
    PrefixSame(run, i);
    assert Gave(run[..n], i, g);
    assert run[..n][i].at == run[i].at;
    StillGoodStep(run, i, g);
    RunKeepsSound(run[..n]);
    DrawnGrows(pre, run[n].at, run[n].req);
    LiveRowStep(pre, run[n].at, run[n].req, g, run[i].at);
  }

  lemma {:induction false} NewGrantMirrors(run: seq<Event>, g: Grant)
    requires run != [] && ValidRun(run) && Gave(run, |run| - 1, g)
    ensures g.access in After(run).drawn && g.refresh in After(run).drawn
    ensures StillGood(run, |run| - 1, g) && LiveRow(After(run), g, run[|run| - 1].at)
  {
    var n := |run| - 1;
    RunKeepsSound(run[..n]);
    IssuedIsLive(After(run[..n]), run[n].at, run[n].req, g);
  }

  ghost predicate RowHasGrant(run: seq<Event>, h: Hash, row: Pair) {
    exists i, g :: 0 <= i < |run| && Gave(run, i, g) && h == Sha256(g.access) && row == RowOf(g, run[i].at)
  }

  lemma {:induction false} GrantStays(run: seq<Event>, h: Hash, row: Pair)
    requires run != [] && RowHasGrant(run[..|run| - 1], h, row)
    ensures RowHasGrant(run, h, row)
  {
    var n := |run| - 1;
    var i, g :| 0 <= i < n && Gave(run[..n], i, g) && h == Sha256(g.access) && row == RowOf(g, run[..n][i].at);
    PrefixSame(run, i);
    assert Gave(run, i, g);
  }

  lemma {:induction false} LiveRowsHaveGrants(run: seq<Event>, h: Hash)
    requires run != [] && ValidRun(run) && Mirrors(run[..|run| - 1])
    requires h in After(run).pairs && After(run).pairs[h].revokedAt.None?
    ensures RowHasGrant(run, h, After(run).pairs[h])
  {
    var n := |run| - 1;
    var s := After(run[..n]);
    RunKeepsSound(run[..n]);
    LiveComesFrom(s, run[n].at, run[n].req, h);
    if h in s.pairs && s.pairs[h] == After(run).pairs[h] {
      GrantStays(run, h, s.pairs[h]);
    } else {
      assert Gave(run, n, Replies(run)[n].grant);
    }
  }

  lemma {:induction false} TableMirrors(run: seq<Event>)
    requires ValidRun(run)
    ensures Mirrors(run)
  {
    if run != [] {
      TableMirrors(run[..|run| - 1]);
      forall i, g | 0 <= i < |run| && Gave(run, i, g)
        ensures g.access in After(run).drawn && g.refresh in After(run).drawn
        ensures StillGood(run, i, g) <==> LiveRow(After(run), g, run[i].at)
      {
        if i < |run| - 1 { OldGrantMirrors(run, i, g); } else { NewGrantMirrors(run, g); }
      }
      forall h | h in After(run).pairs && After(run).pairs[h].revokedAt.None? ensures RowHasGrant(run, h, After(run).pairs[h]) {
        LiveRowsHaveGrants(run, h);
      }
    }
  }

  // ---------- main results ----------

  /**
   * LookupAccessToken accepts a token exactly when it is the access token of a pair issued at
   * most an hour ago that is still its client and user's newest and was not revoked by either token. It then
   * names that pair's client, user and scope.
   */
  lemma {:induction false} LookupExactly(run: seq<Event>, now: nat, access: string)
    requires ValidRun(run)
    ensures LookupAccessToken(After(run), now, access).Some?
      <==> exists i, g :: 0 <= i < |run| && StillGood(run, i, g) && g.access == access && now <= run[i].at + ACCESS_TTL
    ensures forall i, g | 0 <= i < |run| && StillGood(run, i, g) && g.access == access && now <= run[i].at + ACCESS_TTL ::
      LookupAccessToken(After(run), now, access) == Some(TokenInfo(g.client, g.user, g.scope))
  {
    TableMirrors(run);
    var s, h := After(run), Sha256(access);
    if LookupAccessToken(s, now, access).Some? {
      var i, g :| 0 <= i < |run| && Gave(run, i, g) && h == Sha256(g.access) && s.pairs[h] == RowOf(g, run[i].at);
      assert StillGood(run, i, g);
    }
  }

  lemma {:induction false} LiveRotates(s: State, now: nat, g: Grant, at: nat, access': string, refresh': string)
    requires Sound(s) && LiveRow(s, g, at) && now <= at + REFRESH_TTL
    ensures StepRotate(s, now, g.refresh, g.client, access', refresh').1 == Issued(Grant(access', refresh', g.client, g.user, g.scope))
  {
    assert s.refreshIndex[Sha256(g.refresh)] == Sha256(g.access);
  }

  /** RotateRefreshToken succeeds exactly for the client's own live pair of at most 30 days, for its user and scope. */
  lemma {:induction false} RotateExactly(run: seq<Event>, now: nat, refresh: string, client: string, access': string, refresh': string)
    requires ValidRun(run) && FreshDraws(After(run), RotateRefreshToken(refresh, client, access', refresh'))
    ensures Step(After(run), now, RotateRefreshToken(refresh, client, access', refresh')).1.Issued?
      <==> exists i, g :: 0 <= i < |run| && StillGood(run, i, g) && g.refresh == refresh && g.client == client
                          && now <= run[i].at + REFRESH_TTL
    ensures forall i, g | 0 <= i < |run| && StillGood(run, i, g) && g.refresh == refresh && g.client == client
                          && now <= run[i].at + REFRESH_TTL ::
      Step(After(run), now, RotateRefreshToken(refresh, client, access', refresh')).1
      == Issued(Grant(access', refresh', client, g.user, g.scope))
  {
    TableMirrors(run);
    RunKeepsSound(run);
    var s, r := After(run), Sha256(refresh);
    if Step(s, now, RotateRefreshToken(refresh, client, access', refresh')).1.Issued? {
      var h := s.refreshIndex[r];
      var i, g :| 0 <= i < |run| && Gave(run, i, g) && h == Sha256(g.access) && s.pairs[h] == RowOf(g, run[i].at);
      assert StillGood(run, i, g);
    }
    forall i, g | 0 <= i < |run| && StillGood(run, i, g) && g.refresh == refresh && g.client == client
                  && now <= run[i].at + REFRESH_TTL
      ensures Step(s, now, RotateRefreshToken(refresh, client, access', refresh')).1
              == Issued(Grant(access', refresh', client, g.user, g.scope))
    {
      LiveRotates(s, now, g, run[i].at, access', refresh');
    }
  }

  /** Each client and user has at most one unrevoked pair in every reachable state. */
  lemma {:induction false} OneLivePair(run: seq<Event>, a: string, b: string, now: nat)
    requires ValidRun(run)
    requires LookupAccessToken(After(run), now, a).Some? && LookupAccessToken(After(run), now, b).Some?
    requires var x, y := LookupAccessToken(After(run), now, a).value, LookupAccessToken(After(run), now, b).value;
      x.client == y.client && x.user == y.user
    ensures a == b
  {
    RunKeepsSound(run);
  }

  /** Once either token of a pair was revoked, neither works again. */
  lemma {:induction false} RevocationKillsBoth(run: seq<Event>, i: nat, j: nat, g: Grant, now: nat, client: string, access': string, refresh': string)
    requires ValidRun(run) && i < j < |run| && Gave(run, i, g)
    requires run[j].req == RevokeByToken(g.access) || run[j].req == RevokeByToken(g.refresh)
    requires FreshDraws(After(run), RotateRefreshToken(g.refresh, client, access', refresh'))
    ensures LookupAccessToken(After(run), now, g.access).None?
    ensures !Step(After(run), now, RotateRefreshToken(g.refresh, client, access', refresh')).1.Issued?
  {
    LookupExactly(run, now, g.access);
    RotateExactly(run, now, g.refresh, client, access', refresh');
    forall k, f | 0 <= k < |run| && Gave(run, k, f) && (f.access == g.access || f.refresh == g.refresh)
      ensures k == i && f == g
    {
      OneGrantPerToken(run, i, k, g, f);
    }
  }

  lemma {:induction false} OneGrantPerToken(run: seq<Event>, i: nat, k: nat, g: Grant, f: Grant)
    requires ValidRun(run) && i < |run| && k < |run| && Gave(run, i, g) && Gave(run, k, f)
    requires f.access == g.access || f.refresh == g.refresh
    ensures i == k && f == g
    decreases |run|
  {
    var n := |run| - 1;
    if i < n && k < n {
      PrefixSame(run, i);
      PrefixSame(run, k);
      OneGrantPerToken(run[..n], i, k, g, f);
    } else if i < n {
      NewGrantIsNew(run, i, g, f);
    } else if k < n {
      NewGrantIsNew(run, k, f, g);
    }
  }

  /** The last request of a run issues tokens that no earlier one did. */
  lemma {:induction false} NewGrantIsNew(run: seq<Event>, i: nat, g: Grant, f: Grant)
    requires ValidRun(run) && i < |run| - 1 && Gave(run, i, g) && Gave(run, |run| - 1, f)
    ensures g.access != f.access && g.refresh != f.refresh
  {
    var n := |run| - 1;
    TableMirrors(run[..n]);
    RunKeepsSound(run[..n]);
    PrefixSame(run, i);
    assert Gave(run[..n], i, g);
    IssuedIsLive(After(run[..n]), run[n].at, run[n].req, f);
  }

  // ---------- authorization codes ----------

  /** Request i created the code, for this client and redirect URI. */
  predicate CodeMade(run: seq<Event>, i: nat, code: string, client: string, redirect: string)
    requires i < |run|
  {
    Replies(run)[i] == CodeCreated(code) && run[i].req.CreateAuthCode?
    && run[i].req.client == client && run[i].req.redirect == redirect
  }

  /** The request did not consume the code and did not delete its user. */
  predicate SparesCode(q: Request, r: Reply, code: string, user: string) {
    !(q.ExchangeAuthCode? && q.code == code && r.Exchanged?) && q != DeleteUser(user)
  }

  ghost predicate CodeStillGood(run: seq<Event>, i: nat, code: string, client: string, redirect: string)
    requires i < |run|
  {
    CodeMade(run, i, code, client, redirect)
    && forall j | i < j < |run| :: SparesCode(run[j].req, Replies(run)[j], code, run[i].req.user)
  }

  function CodeRow(e: Event): Code
    requires e.req.CreateAuthCode?
  {
    Code(e.req.client, e.req.user, e.req.redirect, e.req.scope, e.at + CODE_TTL, None)
  }

  predicate CodesDrawn(s: State) {
    forall c | c in s.codes :: c in s.drawn
  }

  lemma {:induction false} CodeRowStep(s: State, now: nat, q: Request, code: string, row: Code)
    requires CodesDrawn(s) && FreshDraws(s, q) && code in s.drawn && row.usedAt.None?
    ensures CodesDrawn(Step(s, now, q).0)
    ensures (code in Step(s, now, q).0.codes && Step(s, now, q).0.codes[code] == row)
      <==> (code in s.codes && s.codes[code] == row && SparesCode(q, Step(s, now, q).1, code, row.user))
  {
  }

  lemma {:induction false} OpenCodeComesFrom(s: State, now: nat, q: Request, code: string)
    requires CodesDrawn(s) && FreshDraws(s, q)
    ensures CodesDrawn(Step(s, now, q).0)
    ensures var (s', r) := Step(s, now, q);
      code in s'.codes && s'.codes[code].usedAt.None? ==>
        (code in s.codes && s.codes[code] == s'.codes[code])
        || (r == CodeCreated(code) && q.CreateAuthCode? && s'.codes[code] == CodeRow(Event(now, q)))
    ensures var (s', r) := Step(s, now, q);
      r == CodeCreated(code) ==>
        q.CreateAuthCode? && q.code == code && code in s'.drawn && code !in s.drawn
        && code in s'.codes && s'.codes[code] == CodeRow(Event(now, q))
  {
  }

  ghost predicate CodesMirror(run: seq<Event>) {
    var s := After(run);
    && CodesDrawn(s)
    && (forall i, code | 0 <= i < |run| && Replies(run)[i] == CodeCreated(code) ::
          run[i].req.CreateAuthCode? && code in s.drawn
          && (CodeStillGood(run, i, code, run[i].req.client, run[i].req.redirect)
              <==> (code in s.codes && s.codes[code] == CodeRow(run[i]))))
    && (forall code | code in s.codes && s.codes[code].usedAt.None? ::
          exists i :: 0 <= i < |run| && Replies(run)[i] == CodeCreated(code) && run[i].req.CreateAuthCode?
                      && s.codes[code] == CodeRow(run[i]))
  }

  lemma {:induction false} CodeStillGoodStep(run: seq<Event>, i: nat, code: string, client: string, redirect: string)
    requires run != [] && i < |run| - 1 && run[i].req.CreateAuthCode?
    ensures CodeStillGood(run, i, code, client, redirect) <==>
      CodeStillGood(run[..|run| - 1], i, code, client, redirect)
      && SparesCode(run[|run| - 1].req, Replies(run)[|run| - 1], code, run[i].req.user)
  {
    var n := |run| - 1;
    if CodeStillGood(run[..n], i, code, client, redirect) {
      forall j | i < j < n ensures SparesCode(run[j].req, Replies(run)[j], code, run[i].req.user) { assert run[..n][j] == run[j]; }
    }
    if CodeStillGood(run, i, code, client, redirect) {
      forall j | i < j < n ensures SparesCode(run[..n][j].req, Replies(run[..n])[j], code, run[i].req.user) { assert run[..n][j] == run[j]; }
    }
  }

  lemma {:induction false} CodesAreMirrored(run: seq<Event>)
    requires ValidRun(run)
    ensures CodesMirror(run)
  {
    if run != [] {
      var n := |run| - 1;
      var s, s' := After(run[..n]), After(run);
      CodesAreMirrored(run[..n]);
      forall i, code | 0 <= i < |run| && Replies(run)[i] == CodeCreated(code)
        ensures run[i].req.CreateAuthCode? && code in s'.drawn
        ensures CodeStillGood(run, i, code, run[i].req.client, run[i].req.redirect)
                <==> (code in s'.codes && s'.codes[code] == CodeRow(run[i]))
      {
        CodeMirrors(run, i, code);
      }
      forall code | code in s'.codes && s'.codes[code].usedAt.None?
        ensures exists i :: 0 <= i < |run| && Replies(run)[i] == CodeCreated(code) && run[i].req.CreateAuthCode?
                            && s'.codes[code] == CodeRow(run[i])
      {
        var i := OpenCodeWasMade(run, code);
      }
      OpenCodeComesFrom(s, run[n].at, run[n].req, "");
    }
  }

  lemma {:induction false} CodeMirrors(run: seq<Event>, i: nat, code: string)
    requires run != [] && ValidRun(run) && CodesMirror(run[..|run| - 1])
    requires i < |run| && Replies(run)[i] == CodeCreated(code)
    ensures run[i].req.CreateAuthCode? && code in After(run).drawn
    ensures CodeStillGood(run, i, code, run[i].req.client, run[i].req.redirect)
            <==> (code in After(run).codes && After(run).codes[code] == CodeRow(run[i]))
  {
    var n := |run| - 1;
    var s := After(run[..n]);
    DrawnGrows(s, run[n].at, run[n].req);
    OpenCodeComesFrom(s, run[n].at, run[n].req, code);
    if i < n {
      assert Replies(run[..n])[i] == CodeCreated(code) && run[..n][i] == run[i];
      CodeRowStep(s, run[n].at, run[n].req, code, CodeRow(run[i]));
      CodeStillGoodStep(run, i, code, run[i].req.client, run[i].req.redirect);
    }
  }

  lemma {:induction false} OpenCodeWasMade(run: seq<Event>, code: string) returns (i: nat)
    requires run != [] && ValidRun(run) && CodesMirror(run[..|run| - 1])
    requires code in After(run).codes && After(run).codes[code].usedAt.None?
    ensures i < |run| && Replies(run)[i] == CodeCreated(code) && run[i].req.CreateAuthCode?
            && After(run).codes[code] == CodeRow(run[i])
  {
    var n := |run| - 1;
    var s, s' := After(run[..n]), After(run);
    OpenCodeComesFrom(s, run[n].at, run[n].req, code);
    i := n;
    if code in s.codes && s.codes[code] == s'.codes[code] {
      i :| 0 <= i < n && Replies(run[..n])[i] == CodeCreated(code) && run[..n][i].req.CreateAuthCode?
           && s.codes[code] == CodeRow(run[..n][i]);
      assert Replies(run)[i] == CodeCreated(code) && run[i] == run[..n][i];
    }
  }

  /**
   * A code is exchanged exactly by the client and redirect URI it was made for, at most ten
   * minutes after, and only while no earlier exchange of it succeeded and its user still exists. It then
   * names the user and scope it was made for.
   */
  lemma {:induction false} ExchangeExactly(run: seq<Event>, now: nat, code: string, client: string, redirect: string)
    requires ValidRun(run)
    ensures Step(After(run), now, ExchangeAuthCode(code, client, redirect)).1.Exchanged?
      <==> exists i :: 0 <= i < |run| && CodeStillGood(run, i, code, client, redirect) && now <= run[i].at + CODE_TTL
    ensures forall i | 0 <= i < |run| && CodeStillGood(run, i, code, client, redirect) && now <= run[i].at + CODE_TTL ::
      Step(After(run), now, ExchangeAuthCode(code, client, redirect)).1 == Exchanged(run[i].req.user, run[i].req.scope)
  {
    CodesAreMirrored(run);
    var s := After(run);
    if Step(s, now, ExchangeAuthCode(code, client, redirect)).1.Exchanged? {
      var i :| 0 <= i < |run| && Replies(run)[i] == CodeCreated(code) && run[i].req.CreateAuthCode?
               && s.codes[code] == CodeRow(run[i]);
      assert CodeStillGood(run, i, code, client, redirect);
    }
  }

  // ---------- the store object ----------

  class Store {
    var users: set<string>
    var codes: map<string, Code>
    var pairs: map<Hash, Pair>
    var refreshIndex: map<Hash, Hash>
    ghost var drawn: set<string>

    ghost function View(): State
      reads this
    {
      State(users, codes, pairs, refreshIndex, drawn)
    }

    constructor ()
      ensures View() == Empty
    {
      users, codes, pairs, refreshIndex, drawn := {}, map[], map[], map[], {};
    }

    method CreateCode(now: nat, client: string, user: string, redirect: string, scope: string, code: string) returns (r: Reply)
      modifies this
      ensures (View(), r) == Step(old(View()), now, CreateAuthCode(client, user, redirect, scope, code))
    {
      if user !in users { return ForeignKey; }
      codes := codes[code := Code(client, user, redirect, scope, now + CODE_TTL, None)];
      drawn := drawn + {code};
      return CodeCreated(code);
    }

    method Exchange(now: nat, code: string, client: string, redirect: string) returns (r: Reply)
      modifies this
      ensures (View(), r) == Step(old(View()), now, ExchangeAuthCode(code, client, redirect))
    {
      if code !in codes { return InvalidCode; }
      var c := codes[code];
      if c.client != client { return ClientMismatch; }
      if c.redirect != redirect { return RedirectMismatch; }
      if c.usedAt.Some? { return CodeUsed; }
      if now > c.expiresAt { return CodeExpired; }
      codes := codes[code := codes[code].(usedAt := Some(now))];
      return Exchanged(c.user, c.scope);
    }

    method Issue(now: nat, client: string, user: string, scope: string, access: string, refresh: string) returns (r: Reply)
      modifies this
      ensures (View(), r) == Step(old(View()), now, IssueTokenPair(client, user, scope, access, refresh))
      ensures codes == old(codes) && users == old(users)
    {
      pairs := RevokeOf(pairs, client, user, now);
      drawn := drawn + {access, refresh};
      if user !in users { return ForeignKey; }
      pairs := pairs[Sha256(access) :=
        Pair(client, user, Sha256(refresh), scope, now + ACCESS_TTL, now + REFRESH_TTL, None)];
      refreshIndex := refreshIndex[Sha256(refresh) := Sha256(access)];
      return Issued(Grant(access, refresh, client, user, scope));
    }

    method Rotate(now: nat, refresh: string, client: string, newAccess: string, newRefresh: string) returns (r: Reply)
      modifies this
      ensures (View(), r) == Step(old(View()), now, RotateRefreshToken(refresh, client, newAccess, newRefresh))
    {
      var rh := Sha256(refresh);
      if rh !in refreshIndex || refreshIndex[rh] !in pairs { return InvalidRefresh; }
      var id := refreshIndex[rh];
      var p := pairs[id];
      if p.client != client { return ClientMismatch; }
      if p.revokedAt.Some? { return Revoked; }
      if now > p.refreshExpiresAt { return RefreshExpired; }
      pairs := pairs[id := p.(revokedAt := Some(now))];
      r := Issue(now, client, p.user, p.scope, newAccess, newRefresh);
    }

    method Lookup(now: nat, token: string) returns (r: Option<TokenInfo>)
      ensures r == LookupAccessToken(View(), now, token)
    {
      var h := Sha256(token);
      if h !in pairs { return None; }
      if pairs[h].revokedAt.Some? { return None; }
      if now > pairs[h].expiresAt { return None; }
      return Some(TokenInfo(pairs[h].client, pairs[h].user, pairs[h].scope));
    }

    method Revoke(now: nat, token: string)
      modifies this
      ensures View() == Step(old(View()), now, RevokeByToken(token)).0
    {
      pairs := RevokeToken(pairs, Sha256(token), now);
    }
  }
}
