// The refresh_tokens table: rotation families with reuse detection
// (internal/app/auth.go, storeRefreshToken / mintSession / Refresh / Logout / DeleteAccount).
module Sessions {
  import opened Common

  const REFRESH_TTL: nat := 60 * 24 * 3600  // seconds

  datatype Row = Row(family: nat, user: nat, expiresAt: nat, usedAt: Option<nat>, revokedAt: Option<nat>)

  type Table = map<Hash, Row>

  // ---------- SQL statements ----------

  function StoreToken(t: Table, user: nat, family: nat, token: string, now: nat): Table {
    t[Sha256(token) := Row(family, user, now + REFRESH_TTL, None, None)]
  }

  function MarkUsed(t: Table, h: Hash, now: nat): Table
    requires h in t
  {
    t[h := t[h].(usedAt := Some(now))]
  }

  function RevokeFamily(t: Table, family: nat, now: nat): Table {
    map h | h in t :: if t[h].family == family then t[h].(revokedAt := Some(now)) else t[h]
  }

  function RevokeUser(t: Table, user: nat, now: nat): Table {
    map h | h in t :: if t[h].user == user && t[h].revokedAt.None? then t[h].(revokedAt := Some(now)) else t[h]
  }

  // ---------- one request ----------

  datatype Event =
    | Mint(user: nat, family: nat, token: string)  // Register or Login succeeded
    | Refresh(token: string, next: string)         // `next` is what secureToken would draw
    | Logout(token: string)
    | DeleteUser(user: nat)                        // DeleteAccount got past its checks

  predicate Live(t: Table, x: string) {
    Sha256(x) in t && t[Sha256(x)].usedAt.None? && t[Sha256(x)].revokedAt.None?
  }

  predicate Accepts(t: Table, x: string, now: nat) {
    Live(t, x) && now <= t[Sha256(x)].expiresAt
  }

  function Step(t: Table, now: nat, ev: Event): Table {
    match ev
    case Mint(user, family, token) => StoreToken(t, user, family, token, now)
    case Refresh(x, next) =>
      var h := Sha256(x);
      if h !in t || t[h].revokedAt.Some? then t
      else if t[h].usedAt.Some? then RevokeFamily(t, t[h].family, now)
      else if now > t[h].expiresAt then t
      else StoreToken(MarkUsed(t, h, now), t[h].user, t[h].family, next, now)
    case Logout(x) => if Live(t, x) then RevokeFamily(t, t[Sha256(x)].family, now) else t
    case DeleteUser(user) => RevokeUser(t, user, now)
  }

  /** uuid.New and secureToken draw values the table has never seen. */
  predicate FreshDraws(t: Table, ev: Event) {
    match ev
    case Mint(_, family, token) => Sha256(token) !in t && forall h | h in t :: t[h].family != family
    case Refresh(_, next) => Sha256(next) !in t
    case _ => true
  }

  // ---------- runs and their history ----------

  datatype Timed = Timed(at: nat, ev: Event)

  function After(run: seq<Timed>): Table {
    if run == [] then map[] else
      var n := |run| - 1;
      Step(After(run[..n]), run[n].at, run[n].ev)
  }

  predicate ValidRun(run: seq<Timed>) {
    run == [] ||
    var n := |run| - 1;
    ValidRun(run[..n]) && FreshDraws(After(run[..n]), run[n].ev)
  }

  /** Request i was a Refresh that was answered with a new pair. */
  predicate Rotated(run: seq<Timed>, i: nat)
    requires i < |run|
  {
    run[i].ev.Refresh? && Accepts(After(run[..i]), run[i].ev.token, run[i].at)
  }

  /** Request i handed out refresh token x. */
  predicate Issued(run: seq<Timed>, i: nat, x: string)
    requires i < |run|
  {
    (run[i].ev.Mint? && run[i].ev.token == x) || (Rotated(run, i) && run[i].ev.next == x)
  }

  /** The login that x descends from by rotations. */
  function Root(run: seq<Timed>, x: string): Option<nat> {
    if run == [] then None else
      var n := |run| - 1;
      if run[n].ev.Mint? && run[n].ev.token == x then Some(n)
      else if Rotated(run, n) && run[n].ev.next == x then Root(run[..n], run[n].ev.token)
      else Root(run[..n], x)
  }

  predicate SameFamily(run: seq<Timed>, x: string, y: string) {
    Root(run, x).Some? && Root(run, x) == Root(run, y)
  }

  predicate UsedBefore(run: seq<Timed>, j: nat, y: string)
    requires j <= |run|
  {
    exists k | 0 <= k < j :: Rotated(run, k) && run[k].ev.token == y
  }

  /** Request j presented to Refresh a token that had already been exchanged. */
  predicate Reuse(run: seq<Timed>, j: nat)
    requires j < |run|
  {
    run[j].ev.Refresh? && UsedBefore(run, j, run[j].ev.token)
  }

  /** The user whose login started x's family. */
  predicate OwnedBy(run: seq<Timed>, x: string, user: nat) {
    var r := Root(run, x);
    r.Some? && r.value < |run| && run[r.value].ev.Mint? && run[r.value].ev.user == user
  }

  /** What happened to x's family since request i issued x, read off the requests and answers alone. */
  ghost predicate StillGood(run: seq<Timed>, i: nat, x: string)
    requires i < |run|
  {
    && Issued(run, i, x)
    && (forall j | i < j < |run| :: Rotated(run, j) ==> !SameFamily(run, run[j].ev.token, x))
    && (forall j | 0 <= j < |run| :: Reuse(run, j) ==> !SameFamily(run, run[j].ev.token, x))
    && (forall j | i < j < |run| :: run[j].ev != Logout(x))
    && (forall j | i < j < |run| :: run[j].ev.DeleteUser? ==> !OwnedBy(run, x, run[j].ev.user))
  }

  // ---------- the table mirrors the history ----------

  /** The inductive core: one family, one owner, one revocation state, at most one live token. */
  ghost predicate FamiliesOk(t: Table) {
    forall g, h | g in t && h in t && t[g].family == t[h].family ::
      && t[g].user == t[h].user
      && (t[g].revokedAt.Some? <==> t[h].revokedAt.Some?)
      && (g != h ==> !(Live(t, g.token) && Live(t, h.token)))
  }

  ghost predicate KeysMirror(run: seq<Timed>, t: Table) {
    forall x :: Sha256(x) in t <==> Root(run, x).Some?
  }

  ghost predicate OwnersMirror(run: seq<Timed>, t: Table) {
    forall x | Sha256(x) in t :: OwnedBy(run, x, t[Sha256(x)].user)
  }

  ghost predicate FamiliesMirror(run: seq<Timed>, t: Table) {
    forall x, y | Sha256(x) in t && Sha256(y) in t ::
      t[Sha256(x)].family == t[Sha256(y)].family <==> Root(run, x) == Root(run, y)
  }

  ghost predicate UsesMirror(run: seq<Timed>, t: Table) {
    && (forall x | UsedBefore(run, |run|, x) :: Sha256(x) in t)
    && (forall x | Sha256(x) in t :: t[Sha256(x)].usedAt.Some? <==> UsedBefore(run, |run|, x))
  }

  ghost predicate ExpiriesMirror(run: seq<Timed>, t: Table) {
    forall i, x | 0 <= i < |run| && Issued(run, i, x) ::
      Sha256(x) in t && t[Sha256(x)].expiresAt == run[i].at + REFRESH_TTL
  }

  ghost predicate Mirrors(run: seq<Timed>, t: Table) {
    FamiliesOk(t) && KeysMirror(run, t) && OwnersMirror(run, t) && FamiliesMirror(run, t)
    && UsesMirror(run, t) && ExpiriesMirror(run, t)
  }

  /** Only these columns of old rows ever change, and only these rows are added. */
  ghost predicate StepShaped(t: Table, now: nat, ev: Event, t': Table) {
    var rotates := ev.Refresh? && Accepts(t, ev.token, now);
    && (forall h | h in t :: h in t' && t'[h].family == t[h].family && t'[h].user == t[h].user
          && t'[h].expiresAt == t[h].expiresAt
          && (t'[h].usedAt.Some? <==> t[h].usedAt.Some? || (rotates && h == Sha256(ev.token))))
    && (ev.Mint? ==>
          Sha256(ev.token) in t' && t'[Sha256(ev.token)] == Row(ev.family, ev.user, now + REFRESH_TTL, None, None))
    && (rotates ==>
          var used := t[Sha256(ev.token)];
          Sha256(ev.next) in t' && Sha256(ev.next) !in t
          && t'[Sha256(ev.next)] == Row(used.family, used.user, now + REFRESH_TTL, None, None))
    && (forall h | h in t' && h !in t :: (ev.Mint? && h == Sha256(ev.token)) || (rotates && h == Sha256(ev.next)))
  }

  lemma {:induction false} StepShape(t: Table, now: nat, ev: Event)
    requires FreshDraws(t, ev)
    ensures StepShaped(t, now, ev, Step(t, now, ev))
  {
  }

  lemma {:induction false} PrefixSame(run: seq<Timed>, n: nat, j: nat)
    requires j <= n <= |run|
    ensures run[..n][..j] == run[..j]
    ensures j < n ==> Rotated(run, j) == Rotated(run[..n], j)
    ensures j < n ==> forall x :: Issued(run, j, x) == Issued(run[..n], j, x)
  {
  }

  lemma {:induction false} UsedPrefix(run: seq<Timed>, n: nat, j: nat, y: string)
    requires j <= n <= |run|
    ensures UsedBefore(run, j, y) == UsedBefore(run[..n], j, y)
  {
    forall k | 0 <= k < j ensures Rotated(run, k) == Rotated(run[..n], k) { PrefixSame(run, n, k); }
    if UsedBefore(run, j, y) {
      var k :| 0 <= k < j && Rotated(run, k) && run[k].ev.token == y;
      assert Rotated(run[..n], k) && run[..n][k].ev.token == y;
    }
    if UsedBefore(run[..n], j, y) {
      var k :| 0 <= k < j && Rotated(run[..n], k) && run[..n][k].ev.token == y;
      assert Rotated(run, k) && run[k].ev.token == y;
    }
  }

  lemma {:induction false} UsedGrows(run: seq<Timed>, y: string)
    requires run != []
    ensures var n := |run| - 1;
      UsedBefore(run, |run|, y) <==> UsedBefore(run[..n], n, y) || (Rotated(run, n) && run[n].ev.token == y)
  {
    var n := |run| - 1;
    UsedPrefix(run, n, n, y);
    if Rotated(run, n) && run[n].ev.token == y { assert UsedBefore(run, |run|, y); }
    if UsedBefore(run, n, y) {
      var k :| 0 <= k < n && Rotated(run, k) && run[k].ev.token == y;
      assert UsedBefore(run, |run|, y);
    }
  }

  lemma {:induction false} FamiliesStep(t: Table, now: nat, ev: Event)
    requires FamiliesOk(t) && FreshDraws(t, ev)
    ensures FamiliesOk(Step(t, now, ev))
  {
    var t' := Step(t, now, ev);
    forall g, h | g in t' && h in t' && t'[g].family == t'[h].family
      ensures t'[g].user == t'[h].user && (t'[g].revokedAt.Some? <==> t'[h].revokedAt.Some?)
      ensures g != h ==> !(Live(t', g.token) && Live(t', h.token))
    {
      assert Sha256(g.token) == g && Sha256(h.token) == h;
    }
  }

  lemma {:induction false} TableMirrors(run: seq<Timed>)
    requires ValidRun(run)
    ensures Mirrors(run, After(run))
  {
    if run != [] {
      var n := |run| - 1;
      TableMirrors(run[..n]);
      MirrorStep(run);
    }
  }

  /** What is known of the last request of a run whose earlier part already mirrors its table. */
  ghost predicate LastStep(run: seq<Timed>, t: Table, t': Table) {
    run != [] &&
    var n := |run| - 1;
    ValidRun(run) && t == After(run[..n]) && t' == After(run) && Mirrors(run[..n], t)
  }

  lemma {:induction false} KeysStep(run: seq<Timed>, t: Table, t': Table)
    requires LastStep(run, t, t')
    ensures KeysMirror(run, t')
    ensures forall x | Sha256(x) in t :: Root(run, x) == Root(run[..|run| - 1], x)
  {
    StepShape(t, run[|run| - 1].at, run[|run| - 1].ev);
  }

  lemma {:induction false} OwnersStep(run: seq<Timed>, t: Table, t': Table)
    requires LastStep(run, t, t')
    ensures OwnersMirror(run, t')
  {
    var n := |run| - 1;
    StepShape(t, run[n].at, run[n].ev);
    KeysStep(run, t, t');
    forall x | Sha256(x) in t' ensures OwnedBy(run, x, t'[Sha256(x)].user) {
      if Sha256(x) in t { assert OwnedBy(run[..n], x, t[Sha256(x)].user); }
      else if run[n].ev.Refresh? { assert OwnedBy(run[..n], run[n].ev.token, t[Sha256(run[n].ev.token)].user); }
    }
  }

  lemma {:induction false} FamiliesMirrorStep(run: seq<Timed>, t: Table, t': Table)
    requires LastStep(run, t, t')
    ensures FamiliesMirror(run, t')
  {
    var n := |run| - 1;
    StepShape(t, run[n].at, run[n].ev);
    KeysStep(run, t, t');
    forall x | Sha256(x) in t ensures Root(run, x).value < n { assert OwnedBy(run[..n], x, t[Sha256(x)].user); }
  }

  lemma {:induction false} UsesStep(run: seq<Timed>, t: Table, t': Table)
    requires LastStep(run, t, t')
    ensures UsesMirror(run, t')
  {
    var n := |run| - 1;
    StepShape(t, run[n].at, run[n].ev);
    forall x ensures UsedBefore(run, |run|, x) <==> UsedBefore(run[..n], n, x) || (Rotated(run, n) && run[n].ev.token == x) {
      UsedGrows(run, x);
    }
  }

  lemma {:induction false} ExpiriesStep(run: seq<Timed>, t: Table, t': Table)
    requires LastStep(run, t, t')
    ensures ExpiriesMirror(run, t')
  {
    var n := |run| - 1;
    StepShape(t, run[n].at, run[n].ev);
    forall i, x | 0 <= i < |run| && Issued(run, i, x)
      ensures Sha256(x) in t' && t'[Sha256(x)].expiresAt == run[i].at + REFRESH_TTL
    {
      if i < n { PrefixSame(run, n, i); assert Issued(run[..n], i, x); }
    }
  }

  lemma {:induction false} MirrorStep(run: seq<Timed>)
    requires run != [] && LastStep(run, After(run[..|run| - 1]), After(run))
    ensures Mirrors(run, After(run))
  {
    var n := |run| - 1;
    var t, t' := After(run[..n]), After(run);
    FamiliesStep(t, run[n].at, run[n].ev);
    KeysStep(run, t, t');
    OwnersStep(run, t, t');
    FamiliesMirrorStep(run, t, t');
    UsesStep(run, t, t');
    ExpiriesStep(run, t, t');
  }

  // ---------- the main result ----------

  ghost predicate Good(run: seq<Timed>, x: string) {
    exists i | 0 <= i < |run| :: StillGood(run, i, x)
  }

  /** Some request issued x no more than 60 days ago and x's family history is clean since. */
  ghost predicate GoodAndYoung(run: seq<Timed>, x: string, now: nat) {
    exists i | 0 <= i < |run| :: StillGood(run, i, x) && now <= run[i].at + REFRESH_TTL
  }

  /** The last request leaves x's family untouched, judged by the history alone. */
  ghost predicate Spares(run: seq<Timed>, x: string)
    requires run != []
  {
    var n := |run| - 1;
    && (Rotated(run, n) ==> !SameFamily(run, run[n].ev.token, x))
    && (Reuse(run, n) ==> !SameFamily(run, run[n].ev.token, x))
    && run[n].ev != Logout(x)
    && (run[n].ev.DeleteUser? ==> !OwnedBy(run, x, run[n].ev.user))
  }

  lemma {:induction false} LiveStep(run: seq<Timed>, t: Table, t': Table, x: string)
    requires LastStep(run, t, t') && Sha256(x) in t
    ensures Live(t', x) <==> Live(t, x) && Spares(run, x)
  {
    var n := |run| - 1;
    var ev := run[n].ev;
    KeysStep(run, t, t');
    MirrorStep(run);
    assert OwnedBy(run, x, t'[Sha256(x)].user);
    if ev.Refresh? {
      UsedPrefix(run, n, n, ev.token);
      assert Reuse(run, n) <==> Sha256(ev.token) in t && t[Sha256(ev.token)].usedAt.Some?;
    }
  }

  /** What an earlier request did to x's family reads the same without the last request. */
  lemma {:induction false} EarlierSame(run: seq<Timed>, t: Table, t': Table, j: nat, x: string)
    requires LastStep(run, t, t') && Sha256(x) in t && j < |run| - 1
    ensures var pre := run[..|run| - 1];
      Rotated(run, j) == Rotated(pre, j) && Issued(run, j, x) == Issued(pre, j, x) && Reuse(run, j) == Reuse(pre, j)
      && (Rotated(run, j) || Reuse(run, j) ==> SameFamily(run, run[j].ev.token, x) == SameFamily(pre, run[j].ev.token, x))
  {
    var n := |run| - 1;
    var pre := run[..n];
    PrefixSame(run, n, j);
    if run[j].ev.Refresh? {
      KeysStep(run, t, t');
      UsedPrefix(run, n, j, run[j].ev.token);
      if Rotated(run, j) { assert UsedBefore(pre, n, run[j].ev.token); }
      if Reuse(run, j) {
        var k :| 0 <= k < j && Rotated(pre, k) && pre[k].ev.token == run[j].ev.token;
        assert UsedBefore(pre, n, run[j].ev.token);
      }
    }
  }

  lemma {:induction false} StillGoodStep(run: seq<Timed>, t: Table, t': Table, i: nat, x: string)
    requires LastStep(run, t, t') && Sha256(x) in t && i < |run| - 1
    ensures StillGood(run, i, x) <==> StillGood(run[..|run| - 1], i, x) && Spares(run, x)
  {
    var n := |run| - 1;
    var pre := run[..n];
    KeysStep(run, t, t');
    forall j | 0 <= j < n
      ensures Rotated(run, j) == Rotated(pre, j) && Issued(run, j, x) == Issued(pre, j, x) && Reuse(run, j) == Reuse(pre, j)
      ensures Rotated(run, j) || Reuse(run, j) ==> SameFamily(run, run[j].ev.token, x) == SameFamily(pre, run[j].ev.token, x)
    {
      EarlierSame(run, t, t', j, x);
    }
    forall u ensures OwnedBy(run, x, u) == OwnedBy(pre, x, u) { assert OwnedBy(pre, x, t[Sha256(x)].user); }
    if StillGood(run, i, x) { assert Spares(run, x); assert StillGood(pre, i, x); }
    if StillGood(pre, i, x) && Spares(run, x) { StillGoodExtends(run, i, x); }
  }

  lemma {:induction false} StillGoodExtends(run: seq<Timed>, i: nat, x: string)
    requires run != [] && i < |run| - 1 && Issued(run, i, x) && Spares(run, x)
    requires forall j | i < j < |run| - 1 :: Rotated(run, j) ==> !SameFamily(run, run[j].ev.token, x)
    requires forall j | 0 <= j < |run| - 1 :: Reuse(run, j) ==> !SameFamily(run, run[j].ev.token, x)
    requires forall j | i < j < |run| - 1 :: run[j].ev != Logout(x)
    requires forall j | i < j < |run| - 1 :: run[j].ev.DeleteUser? ==> !OwnedBy(run, x, run[j].ev.user)
    ensures StillGood(run, i, x)
  {
  }

  /** No reuse seen so far speaks against a token that the last request issued. */
  lemma {:induction false} NoReuseYet(run: seq<Timed>, t: Table, t': Table, x: string, j: nat)
    requires LastStep(run, t, t') && Issued(run, |run| - 1, x) && j < |run| - 1 && Reuse(run, j)
    requires run[|run| - 1].ev.Refresh? ==> Good(run[..|run| - 1], run[|run| - 1].ev.token)
    ensures !SameFamily(run, run[j].ev.token, x)
  {
    var n, y := |run| - 1, run[j].ev.token;
    var pre, ev := run[..n], run[n].ev;
    UsedPrefix(run, n, j, y);
    PrefixSame(run, n, j);
    assert Reuse(pre, j);
    var k :| 0 <= k < j && Rotated(pre, k) && pre[k].ev.token == y;
    assert UsedBefore(pre, n, y);
    KeysStep(run, t, t');
    assert Root(run, y) == Root(pre, y);
    assert OwnedBy(pre, y, t[Sha256(y)].user);
    if ev.Mint? {
      assert Root(run, x) == Some(n);
    } else {
      var i :| 0 <= i < n && StillGood(pre, i, ev.token);
      assert !SameFamily(pre, y, ev.token);
      assert Root(run, x) == Root(pre, ev.token);
    }
  }

  /** A token just issued is live, and nothing that happened before speaks against it. */
  lemma {:induction false} JustIssued(run: seq<Timed>, t: Table, t': Table, x: string)
    requires LastStep(run, t, t') && Issued(run, |run| - 1, x)
    requires forall y :: Live(t, y) <==> Good(run[..|run| - 1], y)
    ensures Live(t', x) && StillGood(run, |run| - 1, x)
  {
    var n := |run| - 1;
    StepShape(t, run[n].at, run[n].ev);
    UsedPrefix(run, n, n, if run[n].ev.Refresh? then run[n].ev.token else "");
    assert !Reuse(run, n);
    forall j | 0 <= j < |run| && Reuse(run, j) ensures !SameFamily(run, run[j].ev.token, x) {
      NoReuseYet(run, t, t', x, j);
    }
  }

  lemma {:induction false} LiveIffGood(run: seq<Timed>, x: string)
    requires ValidRun(run)
    ensures Live(After(run), x) <==> Good(run, x)
    decreases |run|
  {
    if run != [] {
      var n := |run| - 1;
      TableMirrors(run[..n]);
      forall y ensures Live(After(run[..n]), y) <==> Good(run[..n], y) { LiveIffGood(run[..n], y); }
      LiveGoodStep(run, After(run[..n]), After(run), x);
    }
  }

  lemma {:induction false} LiveGoodStep(run: seq<Timed>, t: Table, t': Table, x: string)
    requires LastStep(run, t, t') && forall y :: Live(t, y) <==> Good(run[..|run| - 1], y)
    ensures Live(t', x) <==> Good(run, x)
  {
    var n := |run| - 1;
    StepShape(t, run[n].at, run[n].ev);
    if Issued(run, n, x) {
      JustIssued(run, t, t', x);
    } else if Sha256(x) in t {
      LiveStep(run, t, t', x);
      OldGoodStep(run, t, t', x);
    } else {
      MirrorStep(run);
    }
  }

  lemma {:induction false} OldGoodStep(run: seq<Timed>, t: Table, t': Table, x: string)
    requires LastStep(run, t, t') && Sha256(x) in t && !Issued(run, |run| - 1, x)
    ensures Good(run, x) <==> Good(run[..|run| - 1], x) && Spares(run, x)
  {
    var n := |run| - 1;
    forall i | 0 <= i < n ensures StillGood(run, i, x) <==> StillGood(run[..n], i, x) && Spares(run, x) {
      StillGoodStep(run, t, t', i, x);
    }
    if Good(run, x) {
      var i :| 0 <= i < |run| && StillGood(run, i, x);
      assert i < n && StillGood(run[..n], i, x);
    }
  }

  /**
   * Over every run of logins, refreshes, logouts and account deletions, Refresh accepts token x
   * exactly when some request i issued it, at most 60 days ago, no later rotation of its family
   * was answered, no exchanged token of its family was ever presented again, x was not logged
   * out since, and its owner did not delete the account since.
   */
  lemma {:induction false} RefreshAcceptsExactly(run: seq<Timed>, x: string, now: nat)
    requires ValidRun(run)
    ensures Accepts(After(run), x, now) <==> GoodAndYoung(run, x, now)
  {
    LiveIffGood(run, x);
    TableMirrors(run);
    if Accepts(After(run), x, now) {
      var i :| 0 <= i < |run| && StillGood(run, i, x);
      assert Issued(run, i, x);
    }
    if i :| 0 <= i < |run| && StillGood(run, i, x) && now <= run[i].at + REFRESH_TTL {
      assert Issued(run, i, x);
    }
  }

  /** At most one token of a family is ever live, and a dead family stays dead. */
  lemma {:induction false} OneLiveTokenPerFamily(run: seq<Timed>, x: string, y: string)
    requires ValidRun(run) && Live(After(run), x) && Live(After(run), y) && SameFamily(run, x, y)
    ensures x == y
  {
    TableMirrors(run);
    var t := After(run);
    assert Sha256(x) in t && Sha256(y) in t;
  }

  lemma {:induction false} DeadFamilyStaysDead(run: seq<Timed>, n: nat, x: string, y: string)
    requires ValidRun(run) && n <= |run|
    requires Sha256(x) in After(run[..n]) && After(run[..n])[Sha256(x)].revokedAt.Some?
    requires SameFamily(run, x, y)
    ensures !Live(After(run), y)
  {
    RevokedPersists(run, n, x);
    TableMirrors(run);
  }

  lemma {:induction false} RevokedPersists(run: seq<Timed>, n: nat, x: string)
    requires ValidRun(run) && n <= |run|
    requires Sha256(x) in After(run[..n]) && After(run[..n])[Sha256(x)].revokedAt.Some?
    ensures Sha256(x) in After(run) && After(run)[Sha256(x)].revokedAt.Some?
    decreases |run|
  {
    if n < |run| {
      assert run[..|run| - 1][..n] == run[..n];
      RevokedPersists(run[..|run| - 1], n, x);
    } else {
      assert run[..n] == run;
    }
  }
}
