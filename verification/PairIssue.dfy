// IssueTokenPair and RotateRefreshToken as they run: each revokes in one statement, whose error is dropped, and
// inserts in another (internal/oauth/store.go). Any number of calls interleave between the statements; module
// OAuth takes each call as one step.
module PairIssue {
  import OAuth

  /** `of` is the pair whose refresh token a rotation presents. */
  datatype Pc = Selecting(of: nat) | RevokingOne(of: nat) | RevokingAll | Inserting | Refused | Issued | Failed

  datatype Call = Call(client: string, user: string, pc: Pc)

  datatype Row = Row(client: string, user: string, issuedAt: nat, revoked: bool)

  /** No token is drawn twice, so a pair is known by the call that draws it. */
  datatype World = World(now: nat, rows: map<nat, Row>, calls: map<nat, Call>)

  datatype Step =
    | Tick(seconds: nat)
    | Issue(c: nat, client: string, user: string)
    | Rotate(c: nat, client: string, of: nat)
    | Select(c: nat)
    | RevokeOne(c: nat, ok: bool)
    | RevokeAll(c: nat, ok: bool)
    | Insert(c: nat, ok: bool)
    | RevokeByToken(pair: nat)
    | DeleteUser(user: string)

  predicate Enabled(w: World, st: Step) {
    match st
    case Tick(_) => true
    case Issue(c, _, _) => c !in w.calls
    case Rotate(c, _, _) => c !in w.calls
    case Select(c) => c in w.calls && w.calls[c].pc.Selecting?
    case RevokeOne(c, _) => c in w.calls && w.calls[c].pc.RevokingOne?
    case RevokeAll(c, _) => c in w.calls && w.calls[c].pc.RevokingAll?
    case Insert(c, _) => c in w.calls && w.calls[c].pc.Inserting?
    case RevokeByToken(_) => true
    case DeleteUser(_) => true
  }

  function At(w: World, c: nat, pc: Pc): World
    requires c in w.calls
  {
    w.(calls := w.calls[c := w.calls[c].(pc := pc)])
  }

  function RevokePair(rows: map<nat, Row>, p: nat): map<nat, Row> {
    if p in rows then rows[p := rows[p].(revoked := true)] else rows
  }

  function RevokeOf(rows: map<nat, Row>, client: string, user: string): map<nat, Row> {
    map p | p in rows :: if rows[p].client == client && rows[p].user == user then rows[p].(revoked := true) else rows[p]
  }

  predicate Live(rows: map<nat, Row>, p: nat) { p in rows && !rows[p].revoked }

  /** What the row of the presented token, as selected, lets through at an instant. */
  predicate Passes(rows: map<nat, Row>, p: nat, client: string, now: nat) {
    Live(rows, p) && rows[p].client == client && now <= rows[p].issuedAt + OAuth.REFRESH_TTL
  }

  function DoSelect(w: World, c: nat): World
    requires Enabled(w, Select(c))
  {
    var k := w.calls[c];
    var p := k.pc.of;
    w.(calls := w.calls[c :=
      if Passes(w.rows, p, k.client, w.now) then Call(k.client, w.rows[p].user, RevokingOne(p)) else k.(pc := Refused)])
  }

  function DoInsert(w: World, c: nat): World
    requires c in w.calls
  {
    At(w.(rows := w.rows[c := Row(w.calls[c].client, w.calls[c].user, w.now, false)]), c, Issued)
  }

  function Apply(w: World, st: Step): World
    requires Enabled(w, st)
  {
    match st
    case Tick(seconds) => w.(now := w.now + seconds)
    case Issue(c, client, user) => w.(calls := w.calls[c := Call(client, user, RevokingAll)])
    case Rotate(c, client, of) => w.(calls := w.calls[c := Call(client, "", Selecting(of))])
    case Select(c) => DoSelect(w, c)
    case RevokeOne(c, ok) => At(w.(rows := if ok then RevokePair(w.rows, w.calls[c].pc.of) else w.rows), c, RevokingAll)
    case RevokeAll(c, ok) =>
      At(w.(rows := if ok then RevokeOf(w.rows, w.calls[c].client, w.calls[c].user) else w.rows), c, Inserting)
    case Insert(c, ok) => if ok then DoInsert(w, c) else At(w, c, Failed)
    case RevokeByToken(p) => w.(rows := RevokePair(w.rows, p))
    case DeleteUser(user) => w.(rows := map p | p in w.rows && w.rows[p].user != user :: w.rows[p])
  }

  ghost predicate IsRun(ws: seq<World>, ss: seq<Step>) {
    && |ws| == |ss| + 1 && ws[0].calls == map[] && ws[0].rows == map[]
    && forall i {:trigger ss[i]} | 0 <= i < |ss| :: Enabled(ws[i], ss[i]) && ws[i + 1] == Apply(ws[i], ss[i])
  }

  // ---------- how long a pair lives ----------

  /** A pair's row repeats its call, which is over. */
  ghost predicate Owned(w: World) {
    forall p | p in w.rows :: p in w.calls && w.calls[p].pc.Issued?
      && w.rows[p].client == w.calls[p].client && w.rows[p].user == w.calls[p].user
  }

  lemma StepKeepsOwned(w: World, st: Step)
    requires Owned(w) && Enabled(w, st)
    ensures Owned(Apply(w, st))
  {
  }

  lemma {:induction false} RunKeepsOwned(ws: seq<World>, ss: seq<Step>, i: nat)
    requires IsRun(ws, ss) && i < |ws|
    ensures Owned(ws[i])
  {
    if i > 0 {
      RunKeepsOwned(ws, ss, i - 1);
      StepKeepsOwned(ws[i - 1], ss[i - 1]);
      assert ws[i] == Apply(ws[i - 1], ss[i - 1]);
    }
  }

  /** The statement ends the pair of call p: revoked with all of its client and user, by itself, or deleted with its user. */
  predicate EndsAt(w: World, st: Step, p: nat) {
    p in w.calls &&
    match st
    case RevokeOne(c, ok) => ok && c in w.calls && w.calls[c].pc == RevokingOne(p)
    case RevokeAll(c, ok) => ok && c in w.calls && w.calls[c].client == w.calls[p].client && w.calls[c].user == w.calls[p].user
    case RevokeByToken(q) => q == p
    case DeleteUser(user) => user == w.calls[p].user
    case _ => false
  }

  predicate Ends(ws: seq<World>, ss: seq<Step>, m: nat, p: nat) {
    m < |ss| && m < |ws| && EndsAt(ws[m], ss[m], p)
  }

  ghost predicate EndedBetween(ws: seq<World>, ss: seq<Step>, i: nat, j: nat, p: nat) {
    exists m: nat :: i < m < j && Ends(ws, ss, m, p)
  }

  lemma LiveStep(w: World, st: Step, p: nat)
    requires Owned(w) && Enabled(w, st)
    ensures Live(Apply(w, st).rows, p) <==> st == Insert(p, true) || (Live(w.rows, p) && !EndsAt(w, st, p))
    ensures p in w.calls && w.calls[p].pc.Issued? ==> p in Apply(w, st).calls && Apply(w, st).calls[p] == w.calls[p] && st != Insert(p, true)
  {
  }

  /** From its insert on, a pair lives exactly until a statement ends it. */
  lemma {:induction false} LiveExactly(ws: seq<World>, ss: seq<Step>, i: nat, j: nat, p: nat)
    requires IsRun(ws, ss) && i < |ss| && ss[i] == Insert(p, true) && i < j < |ws|
    ensures p in ws[i].calls && p in ws[j].calls && ws[j].calls[p] == ws[i].calls[p].(pc := Issued)
    ensures Live(ws[j].rows, p) <==> !EndedBetween(ws, ss, i, j, p)
  {
    RunKeepsOwned(ws, ss, j - 1);
    LiveStep(ws[j - 1], ss[j - 1], p);
    assert ws[j] == Apply(ws[j - 1], ss[j - 1]);
    if j > i + 1 {
      LiveExactly(ws, ss, i, j - 1, p);
      EndedNext(ws, ss, i, j, p);
    }
  }

  lemma EndedNext(ws: seq<World>, ss: seq<Step>, i: nat, j: nat, p: nat)
    requires i + 1 < j
    ensures EndedBetween(ws, ss, i, j, p) <==> EndedBetween(ws, ss, i, j - 1, p) || Ends(ws, ss, j - 1, p)
  {
    if EndedBetween(ws, ss, i, j - 1, p) {
      var m: nat :| i < m < j - 1 && Ends(ws, ss, m, p);
      assert i < m < j && Ends(ws, ss, m, p);
    }
    if Ends(ws, ss, j - 1, p) { assert i < j - 1 < j; }
  }

  /** A pair was inserted at step i by call p. */
  predicate Inserts(ws: seq<World>, ss: seq<Step>, i: nat, p: nat) {
    i < |ss| && i < |ws| && ss[i] == Insert(p, true)
  }

  /** Nothing but the revokes of calls p and q themselves ends either pair. */
  ghost predicate LeftAlone(ws: seq<World>, ss: seq<Step>, p: nat, q: nat) {
    forall m: nat | Ends(ws, ss, m, p) || Ends(ws, ss, m, q) :: ss[m].RevokeAll? && (ss[m].c == p || ss[m].c == q)
  }

  /** A call revokes before it inserts. */
  lemma {:induction false} RevokesBeforeInsert(ws: seq<World>, ss: seq<Step>, m: nat, i: nat, p: nat)
    requires IsRun(ws, ss) && m < |ss| && i < |ss| && ss[m].RevokeAll? && ss[m].c == p && ss[i] == Insert(p, true)
    ensures m < i
  {
    if i < m {
      LiveExactly(ws, ss, i, m, p);
    }
  }

  /**
   * Two calls for one client and user, the first inserting at i and the second at k, otherwise left alone: both pairs
   * live on exactly when the second did not revoke after the first had inserted, be it earlier or without effect.
   */
  lemma {:induction false} BothLiveExactly(ws: seq<World>, ss: seq<Step>, i: nat, p: nat, k: nat, q: nat)
    requires IsRun(ws, ss) && Inserts(ws, ss, i, p) && Inserts(ws, ss, k, q) && i < k && LeftAlone(ws, ss, p, q)
    requires ws[k].calls[q].client == ws[i].calls[p].client && ws[k].calls[q].user == ws[i].calls[p].user
    ensures Live(ws[|ss|].rows, p) && Live(ws[|ss|].rows, q) <==> forall m: nat | i < m < |ss| :: ss[m] != RevokeAll(q, true)
  {
    LiveExactly(ws, ss, i, |ss|, p);
    LiveExactly(ws, ss, k, |ss|, q);
    if EndedBetween(ws, ss, k, |ss|, q) {
      var m: nat :| k < m < |ss| && Ends(ws, ss, m, q);
      RevokesBeforeInsert(ws, ss, m, if ss[m].c == p then i else k, ss[m].c);
    }
    if EndedBetween(ws, ss, i, |ss|, p) {
      var m: nat :| i < m < |ss| && Ends(ws, ss, m, p);
      if ss[m].c == p { RevokesBeforeInsert(ws, ss, m, i, p); }
      assert ss[m] == RevokeAll(q, true);
    }
    if m: nat :| i < m < |ss| && ss[m] == RevokeAll(q, true) {
      RevokesBeforeInsert(ws, ss, m, k, q);
      Revoker(ws, ss, m, k, q);
      LiveExactly(ws, ss, i, m, p);
      assert Ends(ws, ss, m, p);
      assert EndedBetween(ws, ss, i, |ss|, p);
    }
  }

  /** Client and user of a call stay what they are from its revoke to its insert. */
  lemma {:induction false} Revoker(ws: seq<World>, ss: seq<Step>, m: nat, k: nat, q: nat)
    requires IsRun(ws, ss) && m < k < |ws| && m < |ss| && ss[m].RevokeAll? && ss[m].c == q
    ensures q in ws[m].calls && q in ws[k].calls
    ensures ws[k].calls[q].client == ws[m].calls[q].client && ws[k].calls[q].user == ws[m].calls[q].user
    ensures ws[k].calls[q].pc.Inserting? || ws[k].calls[q].pc.Issued? || ws[k].calls[q].pc.Failed?
  {
    assert ws[k] == Apply(ws[k - 1], ss[k - 1]);
    if k > m + 1 { Revoker(ws, ss, m, k - 1, q); }
  }

  /** Every revoke takes effect and is followed at once by the insert of its call. */
  ghost predicate Undivided(ws: seq<World>, ss: seq<Step>) {
    forall m: nat | m < |ss| && ss[m].RevokeAll? :: ss[m].ok && m + 1 < |ss| && ss[m + 1].Insert? && ss[m + 1].c == ss[m].c
  }

  /** Some revoke went before the insert. */
  lemma {:induction false} RevokedFirst(ws: seq<World>, ss: seq<Step>, k: nat, q: nat) returns (m: nat)
    requires IsRun(ws, ss) && k < |ws| && q in ws[k].calls && ws[k].calls[q].pc.Inserting?
    ensures m < k && m < |ss| && ss[m].RevokeAll? && ss[m].c == q
  {
    assert ws[k] == Apply(ws[k - 1], ss[k - 1]);
    if ss[k - 1].RevokeAll? && ss[k - 1].c == q { m := k - 1; } else { m := RevokedFirst(ws, ss, k - 1, q); }
  }

  /** Were revoke and insert one, as module OAuth takes them, two pairs of a client and user would never both live. */
  lemma {:induction false} OneLiveWhenUndivided(ws: seq<World>, ss: seq<Step>, i: nat, p: nat, k: nat, q: nat)
    requires IsRun(ws, ss) && Undivided(ws, ss) && Inserts(ws, ss, i, p) && Inserts(ws, ss, k, q) && i < k
    requires ws[k].calls[q].client == ws[i].calls[p].client && ws[k].calls[q].user == ws[i].calls[p].user
    ensures !Live(ws[|ss|].rows, p)
  {
    var m := RevokedFirst(ws, ss, k, q);
    assert ss[m + 1].Insert? && ss[m + 1].c == q;
    if m + 1 < k { AfterInsert(ws, ss, m + 1, k, q); }
    assert m != i;
    Revoker(ws, ss, m, k, q);
    LiveExactly(ws, ss, i, m, p);
    assert Ends(ws, ss, m, p);
    LiveExactly(ws, ss, i, |ss|, p);
    assert EndedBetween(ws, ss, i, |ss|, p);
  }

  lemma {:induction false} AfterInsert(ws: seq<World>, ss: seq<Step>, m: nat, k: nat, q: nat)
    requires IsRun(ws, ss) && m < k < |ws| && m < |ss| && ss[m].Insert? && ss[m].c == q
    ensures q in ws[k].calls && (ws[k].calls[q].pc.Issued? || ws[k].calls[q].pc.Failed?)
  {
    assert ws[k] == Apply(ws[k - 1], ss[k - 1]);
    if k > m + 1 { AfterInsert(ws, ss, m, k - 1, q); }
  }

  // ---------- one refresh token, presented twice ----------

  /** Call c presents the refresh token of pair p, inserted at step i, with its client and within 30 days. */
  predicate Presents(ws: seq<World>, ss: seq<Step>, j: nat, c: nat, i: nat, p: nat) {
    && Inserts(ws, ss, i, p) && i < j < |ss| && j < |ws| && ss[j] == Select(c)
    && c in ws[j].calls && ws[j].calls[c].pc == Selecting(p) && p in ws[j].calls && ws[j].calls[c].client == ws[j].calls[p].client
    && ws[j].now <= ws[i].now + OAuth.REFRESH_TTL
  }

  lemma {:induction false} IssuedThen(ws: seq<World>, ss: seq<Step>, i: nat, j: nat, p: nat)
    requires IsRun(ws, ss) && Inserts(ws, ss, i, p) && i < j < |ws|
    ensures p in ws[j].rows ==> ws[j].rows[p].issuedAt == ws[i].now
  {
    assert ws[j] == Apply(ws[j - 1], ss[j - 1]);
    if j > i + 1 {
      IssuedThen(ws, ss, i, j - 1, p);
      LiveExactly(ws, ss, i, j - 1, p);
    }
  }

  /** Such a select lets its call through exactly when no statement has ended the pair yet. */
  lemma {:induction false} RotatesExactly(ws: seq<World>, ss: seq<Step>, j: nat, c: nat, i: nat, p: nat)
    requires IsRun(ws, ss) && Presents(ws, ss, j, c, i, p)
    ensures ws[j + 1].calls[c].pc.RevokingOne? <==> !EndedBetween(ws, ss, i, j, p)
  {
    LiveExactly(ws, ss, i, j, p);
    IssuedThen(ws, ss, i, j, p);
    RunKeepsOwned(ws, ss, j);
    assert ws[j + 1] == Apply(ws[j], ss[j]);
  }

  /** So one refresh token is rotated by both of two calls exactly when both selects precede whatever ends its pair. */
  lemma {:induction false} BothRotateExactly(ws: seq<World>, ss: seq<Step>, j: nat, c: nat, l: nat, d: nat, i: nat, p: nat)
    requires IsRun(ws, ss) && Presents(ws, ss, j, c, i, p) && Presents(ws, ss, l, d, i, p)
    ensures ws[j + 1].calls[c].pc.RevokingOne? && ws[l + 1].calls[d].pc.RevokingOne?
      <==> forall m: nat | i < m && Ends(ws, ss, m, p) :: j < m && l < m
  {
    RotatesExactly(ws, ss, j, c, i, p);
    RotatesExactly(ws, ss, l, d, i, p);
    forall m: nat | Ends(ws, ss, m, p) ensures m != j && m != l {}
    if EndedBetween(ws, ss, i, j, p) { var m: nat :| i < m < j && Ends(ws, ss, m, p); }
    if EndedBetween(ws, ss, i, l, p) { var m: nat :| i < m < l && Ends(ws, ss, m, p); }
  }

  // ---------- the runs ----------

  const Start := World(0, map[], map[])

  lemma {:induction false} Extend(ws: seq<World>, ss: seq<Step>, st: Step) returns (ws': seq<World>, ss': seq<Step>)
    requires IsRun(ws, ss) && Enabled(ws[|ss|], st)
    ensures IsRun(ws', ss') && ss' == ss + [st] && ws'[|ss'|] == Apply(ws[|ss|], st) && ws <= ws'
  {
    ws', ss' := ws + [Apply(ws[|ss|], st)], ss + [st];
  }

  /** For every client and user, two calls at once that leave two live pairs. */
  lemma {:induction false} TwoIssuedAtOnce(client: string, user: string) returns (ws: seq<World>, ss: seq<Step>)
    ensures IsRun(ws, ss) && Live(ws[|ss|].rows, 0) && Live(ws[|ss|].rows, 1)
    ensures var k := Call(client, user, Issued); 0 in ws[|ss|].calls && 1 in ws[|ss|].calls && ws[|ss|].calls[0] == k == ws[|ss|].calls[1]
  {
    ws, ss := [Start], [];
    ws, ss := Extend(ws, ss, Issue(0, client, user));
    ws, ss := Extend(ws, ss, Issue(1, client, user));
    ws, ss := Extend(ws, ss, RevokeAll(0, true));
    ws, ss := Extend(ws, ss, RevokeAll(1, true));
    ws, ss := Extend(ws, ss, Insert(0, true));
    ws, ss := Extend(ws, ss, Insert(1, true));
  }

  /** A pair is issued, and two calls present its refresh token. */
  function Asked(client: string, user: string): World {
    World(0, map[0 := Row(client, user, 0, false)],
          map[0 := Call(client, user, Issued), 1 := Call(client, "", Selecting(0)), 2 := Call(client, "", Selecting(0))])
  }

  lemma {:induction false} TwoAsk(client: string, user: string) returns (ws: seq<World>, ss: seq<Step>)
    ensures IsRun(ws, ss) && ws[|ss|] == Asked(client, user)
  {
    ws, ss := [Start], [];
    ws, ss := Extend(ws, ss, Issue(0, client, user));
    ws, ss := Extend(ws, ss, RevokeAll(0, true));
    ws, ss := Extend(ws, ss, Insert(0, true));
    ws, ss := Extend(ws, ss, Rotate(1, client, 0));
    ws, ss := Extend(ws, ss, Rotate(2, client, 0));
  }

  /** One refresh token, presented twice at once, gives two live pairs. */
  lemma {:induction false} RotatedTwice(client: string, user: string) returns (ws: seq<World>, ss: seq<Step>, i: nat)
    ensures IsRun(ws, ss) && i < |ws| && ws[i] == Asked(client, user)
    ensures Live(ws[|ss|].rows, 1) && Live(ws[|ss|].rows, 2)
  {
    ws, ss := TwoAsk(client, user);
    i := |ss|;
    ws, ss := Extend(ws, ss, Select(1));
    ws, ss := Extend(ws, ss, Select(2));
    ws, ss := Extend(ws, ss, RevokeOne(1, true));
    ws, ss := Extend(ws, ss, RevokeOne(2, true));
    ws, ss := Extend(ws, ss, RevokeAll(1, true));
    ws, ss := Extend(ws, ss, RevokeAll(2, true));
    ws, ss := Extend(ws, ss, Insert(1, true));
    ws, ss := Extend(ws, ss, Insert(2, true));
  }
}
