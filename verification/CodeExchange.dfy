// ExchangeAuthCode as it runs: a SELECT, checks, and an UPDATE whose error is dropped
// (internal/oauth/store.go). Any number of calls interleave between the statements; module OAuth
// takes each call as one step.
module CodeExchange {
  import opened Common
  import OAuth

  datatype Pc = Starting | Approved | Refused | Exchanged

  datatype Call = Call(code: string, client: string, redirect: string, pc: Pc)

  datatype World = World(now: nat, codes: map<string, OAuth.Code>, calls: map<nat, Call>)

  datatype Step =
    | Tick(seconds: nat)
    | Start(c: nat, code: string, client: string, redirect: string)
    | Select(c: nat)
    | Update(c: nat, ok: bool)
    | DeleteUser(user: string)  // takes the user's codes along

  predicate Enabled(w: World, st: Step) {
    match st
    case Tick(_) => true
    case Start(c, _, _, _) => c !in w.calls
    case Select(c) => c in w.calls && w.calls[c].pc.Starting?
    case Update(c, _) => c in w.calls && w.calls[c].pc.Approved?
    case DeleteUser(_) => true
  }

  /** What the row, as selected, lets through at an instant. */
  predicate Passes(codes: map<string, OAuth.Code>, call: Call, now: nat) {
    call.code in codes &&
    var row := codes[call.code];
    row.client == call.client && row.redirect == call.redirect && row.usedAt.None? && now <= row.expiresAt
  }

  function At(w: World, c: nat, pc: Pc): World
    requires c in w.calls
  {
    w.(calls := w.calls[c := w.calls[c].(pc := pc)])
  }

  function Used(codes: map<string, OAuth.Code>, code: string, now: nat): map<string, OAuth.Code> {
    if code in codes then codes[code := codes[code].(usedAt := Some(now))] else codes
  }

  function Apply(w: World, st: Step): World
    requires Enabled(w, st)
  {
    match st
    case Tick(seconds) => w.(now := w.now + seconds)
    case Start(c, code, client, redirect) => w.(calls := w.calls[c := Call(code, client, redirect, Starting)])
    case Select(c) => At(w, c, if Passes(w.codes, w.calls[c], w.now) then Approved else Refused)
    case Update(c, ok) => At(w.(codes := if ok then Used(w.codes, w.calls[c].code, w.now) else w.codes), c, Exchanged)
    case DeleteUser(user) => w.(codes := map x | x in w.codes && w.codes[x].user != user :: w.codes[x])
  }

  ghost predicate IsRun(ws: seq<World>, ss: seq<Step>) {
    && |ws| == |ss| + 1 && ws[0].calls == map[]
    && forall i {:trigger ss[i]} | 0 <= i < |ss| :: Enabled(ws[i], ss[i]) && ws[i + 1] == Apply(ws[i], ss[i])
  }

  // ---------- what a call finds ----------

  /** Step j marks code x as used, or deletes it with its user. */
  predicate Ends(ws: seq<World>, ss: seq<Step>, j: nat, x: string) {
    j < |ss| && j < |ws| &&
    match ss[j]
    case Update(c, ok) => ok && c in ws[j].calls && ws[j].calls[c].code == x
    case DeleteUser(user) => x in ws[0].codes && ws[0].codes[x].user == user
    case _ => false
  }

  ghost predicate EndedBefore(ws: seq<World>, ss: seq<Step>, i: nat, x: string) {
    exists j: nat :: j < i && Ends(ws, ss, j, x)
  }

  predicate Usable(codes: map<string, OAuth.Code>, x: string) { x in codes && codes[x].usedAt.None? }

  /** A row never changes but for its use, and can be used until the first step that ends it. */
  lemma {:induction false} RowSince(ws: seq<World>, ss: seq<Step>, i: nat, x: string)
    requires IsRun(ws, ss) && i < |ws|
    ensures x in ws[i].codes ==> x in ws[0].codes && ws[i].codes[x] == ws[0].codes[x].(usedAt := ws[i].codes[x].usedAt)
    ensures Usable(ws[i].codes, x) <==> Usable(ws[0].codes, x) && !EndedBefore(ws, ss, i, x)
  {
    if i > 0 {
      RowSince(ws, ss, i - 1, x);
      assert ws[i] == Apply(ws[i - 1], ss[i - 1]);
      if Ends(ws, ss, i - 1, x) { assert EndedBefore(ws, ss, i, x); }
      if EndedBefore(ws, ss, i - 1, x) {
        var j: nat :| j < i - 1 && Ends(ws, ss, j, x);
        assert EndedBefore(ws, ss, i, x);
      }
    }
  }

  /** A select lets its call through exactly when the code as made does and no step has ended it yet. */
  lemma {:induction false} SelectExactly(ws: seq<World>, ss: seq<Step>, i: nat, c: nat)
    requires IsRun(ws, ss) && i < |ss| && ss[i] == Select(c)
    ensures ws[i + 1].calls[c].pc.Approved? <==>
      Passes(ws[0].codes, ws[i].calls[c], ws[i].now) && !EndedBefore(ws, ss, i, ws[i].calls[c].code)
    ensures ws[i + 1].calls[c].pc.Approved? || ws[i + 1].calls[c].pc.Refused?
  {
    RowSince(ws, ss, i, ws[i].calls[c].code);
  }

  // ---------- two calls, one code ----------

  predicate Finished(w: World, c: nat) {
    c in w.calls && (w.calls[c].pc.Exchanged? || w.calls[c].pc.Refused?)
  }

  /** Once selected, a call keeps its arguments, and its answer is the one the select gave it. */
  lemma {:induction false} AfterSelect(ws: seq<World>, ss: seq<Step>, i: nat, j: nat, c: nat)
    requires IsRun(ws, ss) && i < |ss| && ss[i] == Select(c) && i < j < |ws|
    ensures c in ws[j].calls && ws[j].calls[c] == ws[i].calls[c].(pc := ws[j].calls[c].pc)
    ensures ws[i + 1].calls[c].pc.Refused? ==> ws[j].calls[c].pc.Refused?
    ensures ws[i + 1].calls[c].pc.Approved? ==> ws[j].calls[c].pc.Approved? || ws[j].calls[c].pc.Exchanged?
  {
    if j > i + 1 {
      AfterSelect(ws, ss, i, j - 1, c);
      assert ws[j] == Apply(ws[j - 1], ss[j - 1]);
    }
  }

  /** Call c selected code x at step i, with the client and redirect URI of the code and in time. */
  predicate Asks(ws: seq<World>, ss: seq<Step>, i: nat, c: nat, x: string) {
    i < |ss| && i < |ws| && ss[i] == Select(c) && c in ws[i].calls && ws[i].calls[c].code == x
    && 0 < |ws| && Passes(ws[0].codes, ws[i].calls[c], ws[i].now)
  }

  lemma {:induction false} SucceedsExactly(ws: seq<World>, ss: seq<Step>, i: nat, c: nat, x: string)
    requires IsRun(ws, ss) && Asks(ws, ss, i, c, x) && Finished(ws[|ss|], c)
    ensures ws[|ss|].calls[c].pc.Exchanged? <==> !EndedBefore(ws, ss, i, x)
  {
    SelectExactly(ws, ss, i, c);
    AfterSelect(ws, ss, i, |ss|, c);
  }

  /**
   * Two calls with the right client and redirect URI, in time, both exchange one code exactly when both of their
   * selects come before the first step that ends it.
   */
  lemma {:induction false} BothSucceedExactly(ws: seq<World>, ss: seq<Step>, i: nat, c: nat, j: nat, d: nat, x: string)
    requires IsRun(ws, ss) && Asks(ws, ss, i, c, x) && Asks(ws, ss, j, d, x)
    requires Finished(ws[|ss|], c) && Finished(ws[|ss|], d)
    ensures ws[|ss|].calls[c].pc.Exchanged? && ws[|ss|].calls[d].pc.Exchanged?
      <==> forall m: nat :: Ends(ws, ss, m, x) ==> i < m && j < m
  {
    SucceedsExactly(ws, ss, i, c, x);
    SucceedsExactly(ws, ss, j, d, x);
    forall m: nat | Ends(ws, ss, m, x) ensures m != i && m != j {}
    if EndedBefore(ws, ss, i, x) {
      var m: nat :| m < i && Ends(ws, ss, m, x);
    }
    if EndedBefore(ws, ss, j, x) {
      var m: nat :| m < j && Ends(ws, ss, m, x);
    }
  }

  /** Every select that lets its call through is followed at once by that call's update, which succeeds. */
  ghost predicate Undivided(ws: seq<World>, ss: seq<Step>) {
    forall i: nat | i < |ss| && i + 1 < |ws| && ss[i].Select? && ss[i].c in ws[i + 1].calls && ws[i + 1].calls[ss[i].c].pc.Approved? ::
      i + 1 < |ss| && ss[i + 1] == Update(ss[i].c, true)
  }

  /** Were the two statements one, as module OAuth takes them, no code would ever be exchanged twice. */
  lemma {:induction false} OnceWhenUndivided(ws: seq<World>, ss: seq<Step>, i: nat, c: nat, j: nat, d: nat, x: string)
    requires IsRun(ws, ss) && Undivided(ws, ss) && Asks(ws, ss, i, c, x) && Asks(ws, ss, j, d, x) && i < j
    requires Finished(ws[|ss|], c) && Finished(ws[|ss|], d)
    ensures !(ws[|ss|].calls[c].pc.Exchanged? && ws[|ss|].calls[d].pc.Exchanged?)
  {
    SelectExactly(ws, ss, i, c);
    AfterSelect(ws, ss, i, |ss|, c);
    SucceedsExactly(ws, ss, j, d, x);
    if ws[i + 1].calls[c].pc.Approved? {
      assert ss[i + 1] == Update(c, true);
      assert Ends(ws, ss, i + 1, x);
      assert EndedBefore(ws, ss, j, x);
    }
  }

  // ---------- the runs that exchange a code twice ----------

  lemma {:induction false} Extend(ws: seq<World>, ss: seq<Step>, st: Step) returns (ws': seq<World>, ss': seq<Step>)
    requires IsRun(ws, ss) && Enabled(ws[|ss|], st)
    ensures IsRun(ws', ss') && ws'[0] == ws[0] && |ss'| == |ss| + 1 && ws'[|ss'|] == Apply(ws[|ss|], st)
  {
    ws', ss' := ws + [Apply(ws[|ss|], st)], ss + [st];
  }

  function Fresh(x: string, row: OAuth.Code): World { World(0, map[x := row], map[]) }

  predicate Twice(w: World, x: string) {
    0 in w.calls && 1 in w.calls && w.calls[0].code == x == w.calls[1].code && w.calls[0].pc.Exchanged? && w.calls[1].pc.Exchanged?
  }

  /** Two calls at once exchange any fresh code twice. */
  lemma {:induction false} TwoAtOnce(x: string, row: OAuth.Code) returns (ws: seq<World>, ss: seq<Step>)
    requires row.usedAt.None?
    ensures IsRun(ws, ss) && ws[0] == Fresh(x, row) && Twice(ws[|ss|], x)
  {
    ws, ss := [Fresh(x, row)], [];
    ws, ss := Extend(ws, ss, Start(0, x, row.client, row.redirect));
    ws, ss := Extend(ws, ss, Start(1, x, row.client, row.redirect));
    ws, ss := Extend(ws, ss, Select(0));
    ws, ss := Extend(ws, ss, Select(1));
    ws, ss := Extend(ws, ss, Update(0, true));
    ws, ss := Extend(ws, ss, Update(1, true));
  }

  /** So do two calls one after the other, when the first update fails. */
  lemma {:induction false} TwiceAfterFailure(x: string, row: OAuth.Code) returns (ws: seq<World>, ss: seq<Step>)
    requires row.usedAt.None?
    ensures IsRun(ws, ss) && ws[0] == Fresh(x, row) && Twice(ws[|ss|], x)
  {
    ws, ss := [Fresh(x, row)], [];
    ws, ss := Extend(ws, ss, Start(0, x, row.client, row.redirect));
    ws, ss := Extend(ws, ss, Select(0));
    ws, ss := Extend(ws, ss, Update(0, false));
    ws, ss := Extend(ws, ss, Start(1, x, row.client, row.redirect));
    ws, ss := Extend(ws, ss, Select(1));
    ws, ss := Extend(ws, ss, Update(1, true));
  }
}
