// SELECT, INSERT … ON CONFLICT DO NOTHING, re-SELECT: the first-use protocol that both the LAN
// key table (internal/localkey/localkey.go) and the BLE ownership claim (internal/app/ble.go) follow.
//
// Any number of callers run it at once. Every SQL statement is one step, and any statement may fail.
module WriteOnce {
  import Schedule

  datatype Pc<V> =
    | Starting
    | Missed          // the first SELECT found nothing, or failed where the caller ignores that
    | Inserted        // the INSERT ran; it may have done nothing
    | Done(value: V)  // the row this caller read
    | Failed

  /** `mine` is the value the caller would store. */
  datatype Call<K, V> = Call(key: K, mine: V, pc: Pc<V>)

  datatype Store<K, V> = Store(rows: map<K, V>, calls: map<nat, Call<K, V>>)

  datatype Step<K, V> =
    | Enter(c: nat, key: K, mine: V)
    | Select(c: nat, ok: bool)
    | Insert(c: nat, ok: bool)
    | Reselect(c: nat, ok: bool)
    | GiveUp(c: nat)

  function At<K, V>(s: Store<K, V>, c: nat, pc: Pc<V>): Store<K, V>
    requires c in s.calls
  {
    s.(calls := s.calls[c := s.calls[c].(pc := pc)])
  }

  predicate Enabled<K, V>(s: Store<K, V>, st: Step<K, V>) {
    match st
    case Enter(c, _, _) => c !in s.calls
    case Select(c, _) => c in s.calls && s.calls[c].pc.Starting?
    case Insert(c, _) => c in s.calls && s.calls[c].pc.Missed?
    case Reselect(c, _) => c in s.calls && s.calls[c].pc.Inserted?
    case GiveUp(c) => c in s.calls && !s.calls[c].pc.Done?
  }

  /** INSERT … ON CONFLICT DO NOTHING. */
  function InsertIfAbsent<K, V>(rows: map<K, V>, key: K, mine: V): map<K, V> {
    if key in rows then rows else rows[key := mine]
  }

  function Apply<K, V>(s: Store<K, V>, st: Step<K, V>): Store<K, V>
    requires Enabled(s, st)
  {
    match st
    case Enter(c, key, mine) => s.(calls := s.calls[c := Call(key, mine, Starting)])
    case Select(c, ok) =>
      var k := s.calls[c].key;
      At(s, c, if ok && k in s.rows then Done(s.rows[k]) else Missed)
    case Insert(c, ok) =>
      var call := s.calls[c];
      At(s.(rows := if ok then InsertIfAbsent(s.rows, call.key, call.mine) else s.rows), c, Inserted)
    case Reselect(c, ok) =>
      var k := s.calls[c].key;
      At(s, c, if ok && k in s.rows then Done(s.rows[k]) else Failed)
    case GiveUp(c) => At(s, c, Failed)
  }

  function Do<K, V>(s: Store<K, V>, st: Step<K, V>): Store<K, V> {
    if Enabled(s, st) then Apply(s, st) else s
  }

  ghost predicate IsRun<K, V>(ws: seq<Store<K, V>>, ss: seq<Step<K, V>>) {
    && |ws| == |ss| + 1 && ws[0].calls == map[]
    && forall i {:trigger ss[i]} | 0 <= i < |ss| :: Enabled(ws[i], ss[i]) && ws[i + 1] == Apply(ws[i], ss[i])
  }

  /** A finished call read the row that is there, and every row was some caller's proposal or there from the start. */
  ghost predicate Inv<K, V>(start: map<K, V>, s: Store<K, V>) {
    && (forall c | c in s.calls && s.calls[c].pc.Done? ::
          s.calls[c].key in s.rows && s.rows[s.calls[c].key] == s.calls[c].pc.value)
    && (forall k | k in s.rows ::
          (k in start && s.rows[k] == start[k])
          || exists c :: c in s.calls && s.calls[c].key == k && s.calls[c].mine == s.rows[k])
  }

  lemma StepKeepsInv<K, V>(start: map<K, V>, s: Store<K, V>, st: Step<K, V>)
    requires Inv(start, s) && Enabled(s, st)
    ensures Inv(start, Apply(s, st))
    ensures forall k | k in s.rows :: k in Apply(s, st).rows && Apply(s, st).rows[k] == s.rows[k]
  {
    var s' := Apply(s, st);
    forall k | k in s'.rows
      ensures (k in start && s'.rows[k] == start[k])
        || exists c :: c in s'.calls && s'.calls[c].key == k && s'.calls[c].mine == s'.rows[k]
    {
      if k in s.rows {
        if !(k in start && s.rows[k] == start[k]) {
          var c :| c in s.calls && s.calls[c].key == k && s.calls[c].mine == s.rows[k];
          assert c in s'.calls && s'.calls[c].key == k && s'.calls[c].mine == s'.rows[k];
        }
      } else {
        assert s'.calls[st.c].key == k && s'.calls[st.c].mine == s'.rows[k];
      }
    }
  }

  lemma {:induction false} RunKeepsInv<K, V>(ws: seq<Store<K, V>>, ss: seq<Step<K, V>>, i: nat)
    requires IsRun(ws, ss) && i < |ws|
    ensures Inv(ws[0].rows, ws[i])
  {
    if i > 0 {
      RunKeepsInv(ws, ss, i - 1);
      StepKeepsInv(ws[0].rows, ws[i - 1], ss[i - 1]);
    }
  }

  /** A stored row never changes and never goes away. */
  lemma {:induction false} RowsNeverChange<K, V>(ws: seq<Store<K, V>>, ss: seq<Step<K, V>>, i: nat, j: nat, k: K)
    requires IsRun(ws, ss) && i <= j < |ws| && k in ws[i].rows
    ensures k in ws[j].rows && ws[j].rows[k] == ws[i].rows[k]
  {
    if i < j {
      RowsNeverChange(ws, ss, i, j - 1, k);
      RunKeepsInv(ws, ss, j - 1);
      StepKeepsInv(ws[0].rows, ws[j - 1], ss[j - 1]);
    }
  }

  /** All calls for one key that succeed, at whatever two instants, get the same value. */
  lemma {:induction false} AllCallersAgree<K, V>(ws: seq<Store<K, V>>, ss: seq<Step<K, V>>, i: nat, j: nat, c: nat, d: nat)
    requires IsRun(ws, ss) && i < |ws| && j < |ws|
    requires c in ws[i].calls && ws[i].calls[c].pc.Done? && d in ws[j].calls && ws[j].calls[d].pc.Done?
    requires ws[i].calls[c].key == ws[j].calls[d].key
    ensures ws[i].calls[c].pc.value == ws[j].calls[d].pc.value
  {
    RunKeepsInv(ws, ss, i);
    RunKeepsInv(ws, ss, j);
    RowsNeverChange(ws, ss, if i < j then i else j, if i < j then j else i, ws[i].calls[c].key);
  }

  /** Two concurrent callers both propose, and the loser is given the winner's value, not its own. */
  lemma {:induction false} LoserHonoursWinner<K, V>(k: K, a: V, b: V) returns (ws: seq<Store<K, V>>, ss: seq<Step<K, V>>)
    ensures IsRun(ws, ss) && ws[0].rows == map[]
    ensures 0 in ws[|ss|].calls && ws[|ss|].calls[0] == Call(k, a, Done(a))
    ensures 1 in ws[|ss|].calls && ws[|ss|].calls[1] == Call(k, b, Done(a))
  {
    var start: Store<K, V> := Store(map[], map[]);
    ws, ss := [start], [];
    ws, ss := Extend(ws, ss, Enter(0, k, a));
    ws, ss := Extend(ws, ss, Enter(1, k, b));
    ws, ss := Extend(ws, ss, Select(0, true));
    ws, ss := Extend(ws, ss, Select(1, true));
    ws, ss := Extend(ws, ss, Insert(0, true));
    ws, ss := Extend(ws, ss, Insert(1, true));
    ws, ss := Extend(ws, ss, Reselect(0, true));
    ws, ss := Extend(ws, ss, Reselect(1, true));
  }

  lemma {:induction false} Extend<K, V>(ws: seq<Store<K, V>>, ss: seq<Step<K, V>>, st: Step<K, V>)
      returns (ws': seq<Store<K, V>>, ss': seq<Step<K, V>>)
    requires IsRun(ws, ss) && Enabled(ws[|ss|], st)
    ensures IsRun(ws', ss') && ws <= ws' && ss' == ss + [st] && ws'[|ss'|] == Apply(ws[|ss|], st)
  {
    ws', ss' := ws + [Apply(ws[|ss|], st)], ss + [st];
  }

  // ---------- one caller among others ----------

  ghost predicate Leads<K, V>(s: Store<K, V>, ss: seq<Step<K, V>>, t: Store<K, V>) {
    Schedule.Leads(Enabled<K, V>, Do<K, V>, s, ss, t)
  }

  /** None of the steps is call c's. */
  predicate Spares<K, V>(ss: seq<Step<K, V>>, c: nat) {
    forall i | 0 <= i < |ss| :: ss[i].c != c
  }

  /** Whatever state they find, the others can do what they do, and leave call c alone. */
  ghost predicate Possible<K(!new), V(!new)>(others: Schedule.Others<Store<K, V>, Step<K, V>>, c: nat) {
    forall s :: Schedule.Playable(Enabled<K, V>, Do<K, V>, s, others(s)) && Spares(others(s), c)
  }

  /** Meanwhile rows stay, and the call stands where it stood. */
  lemma {:induction false} OthersKeep<K, V>(s: Store<K, V>, ss: seq<Step<K, V>>, t: Store<K, V>, c: nat)
    requires Leads(s, ss, t) && Spares(ss, c)
    ensures (c in t.calls <==> c in s.calls) && (c in s.calls ==> t.calls[c] == s.calls[c])
    ensures forall k | k in s.rows :: k in t.rows && t.rows[k] == s.rows[k]
  {
    if ss != [] {
      var front := ss[..|ss| - 1];
      OthersKeep(s, front, Schedule.Played(Do<K, V>, s, front), c);
    }
  }

  /** The worlds along a path from a table that nobody was using. */
  lemma {:induction false} RunOf<K, V>(start: Store<K, V>, ss: seq<Step<K, V>>, t: Store<K, V>) returns (ws: seq<Store<K, V>>)
    requires start.calls == map[] && Leads(start, ss, t)
    ensures IsRun(ws, ss) && ws[0] == start && ws[|ss|] == t
  {
    if ss == [] {
      ws := [start];
    } else {
      var front, st := ss[..|ss| - 1], ss[|ss| - 1];
      ws := RunOf(start, front, Schedule.Played(Do<K, V>, start, front));
      var ss';
      ws, ss' := Extend(ws, front, st);
      assert ss' == ss;
    }
  }

  lemma {:induction false} WorldAt<K, V>(ws: seq<Store<K, V>>, ss: seq<Step<K, V>>, i: nat)
    requires IsRun(ws, ss) && i <= |ss|
    ensures ws[i] == Schedule.Played(Do<K, V>, ws[0], ss[..i])
  {
    if i > 0 {
      WorldAt(ws, ss, i - 1);
      assert ss[..i][..i - 1] == ss[..i - 1] && ws[i] == Apply(ws[i - 1], ss[i - 1]);
    }
  }
}
