// Per-tenant signing keys: several processes, each with its own five-minute cache,
// over one shared tenant_keys table (internal/keystore/keystore.go).
//
// A World is one instant of the whole system. Every database statement, every locked
// section of the cache and every clock tick is a step of its own, and any number of
// calls in any number of processes interleave freely between them.
module Keystore {
  import opened Common
  import Gcm

  const CACHE_TTL: nat := 300  // seconds

  // ---------- data ----------

  datatype TenantKey = TenantKey(keyId: nat, tid: string, pubHex: string, priv: string)

  datatype Entry = Entry(key: TenantKey, cachedAt: nat)

  /** A tenant_keys row. `since` and `until` record the commits that made it active and retired it. */
  datatype Row = Row(keyId: nat, tid: string, pubHex: string, privEnc: Gcm.Sealed<string>,
                     active: bool, since: nat, until: Option<nat>)

  datatype KeyError = NoRows | BadCiphertext | UniqueViolation

  /** One process: its key encryption key and its cache. */
  datatype Instance = Instance(kek: string, cache: map<string, Entry>)

  /** Where a running ActiveKey or Generate call stands. */
  datatype Pc =
    | Starting
    | Checking(entry: Option<Entry>)               // cache read, TTL not yet tested
    | Loading                                      // miss: about to SELECT
    | NeedsKey                                     // no row: about to generate
    | Prepared(made: TenantKey)                   // key pair made, transaction not begun
    | Updated(made: TenantKey, locked: set<nat>)  // UPDATE ran inside the transaction
    | Storing(key: TenantKey, asOf: nat)           // read or committed at asOf, cache store pending
    | Returned(key: TenantKey, at: nat)
    | Failed

  datatype Call = Call(inst: nat, tid: string, pc: Pc)

  datatype World = World(now: nat, rows: seq<Row>, insts: map<nat, Instance>, calls: map<nat, Call>)

  // ---------- SQL statements ----------

  /** SELECT … WHERE tid=$1 AND active=true. */
  function SelectActive(rows: seq<Row>, tid: string): (r: Option<Row>)
    ensures r.Some? ==> r.value in rows && r.value.tid == tid && r.value.active
    ensures r.None? ==> forall i | 0 <= i < |rows| :: rows[i].tid == tid ==> !rows[i].active
  {
    if rows == [] then None
    else if rows[0].tid == tid && rows[0].active then Some(rows[0])
    else SelectActive(rows[1..], tid)
  }

  /** The row positions that UPDATE … WHERE tid=$1 AND active=true locks. */
  function ActiveRows(rows: seq<Row>, tid: string): set<nat> {
    set i: nat | i < |rows| && rows[i].tid == tid && rows[i].active
  }

  function Deactivate(rows: seq<Row>, locked: set<nat>, now: nat): seq<Row> {
    seq(|rows|, i requires 0 <= i < |rows| =>
      if i in locked && rows[i].active then rows[i].(active := false, until := Some(now)) else rows[i])
  }

  function NewRow(key: TenantKey, kek: string, nonce: nat, now: nat): Row {
    Row(key.keyId, key.tid, key.pubHex, Gcm.Seal(kek, nonce, key.priv), true, now, None)
  }

  /** The primary key on key_id and the partial unique index on (tid) WHERE active. */
  predicate InsertAllowed(rows: seq<Row>, key: TenantKey) {
    forall i | 0 <= i < |rows| :: rows[i].keyId != key.keyId && !(rows[i].tid == key.tid && rows[i].active)
  }

  function Decrypt(kek: string, row: Row): Option<TenantKey> {
    match Gcm.Open(kek, row.privEnc)
    case Some(priv) => Some(TenantKey(row.keyId, row.tid, row.pubHex, priv))
    case None => None
  }

  // ---------- steps ----------

  datatype Step =
    | Tick(seconds: nat)
    | CallActiveKey(c: nat, inst: nat, tid: string)
    | CallGenerate(c: nat, inst: nat, made: TenantKey)
    | ReadCache(c: nat)
    | TestTtl(c: nat)
    | Load(c: nat)
    | MakeKey(c: nat, made: TenantKey)
    | UpdateRows(c: nat)
    | Commit(c: nat, nonce: nat)
    | Store(c: nat)
    | Invalidate(inst: nat, tid: string)
    | Abort(c: nat)

  function At(w: World, c: nat, pc: Pc): World
    requires c in w.calls
  {
    w.(calls := w.calls[c := w.calls[c].(pc := pc)])
  }

  predicate Known(w: World, c: nat) {
    c in w.calls && w.calls[c].inst in w.insts
  }

  function SetCache(w: World, inst: nat, tid: string, key: TenantKey): World
    requires inst in w.insts
  {
    var i := w.insts[inst];
    w.(insts := w.insts[inst := i.(cache := i.cache[tid := Entry(key, w.now)])])
  }

  /** `lag` bounds the delay between a read or commit and the cache store that follows it. */
  predicate Enabled(w: World, s: Step, lag: nat) {
    match s
    case Tick(_) => true
    case CallActiveKey(c, inst, _) => c !in w.calls && inst in w.insts
    case CallGenerate(c, inst, _) => c !in w.calls && inst in w.insts
    case ReadCache(c) => Known(w, c) && w.calls[c].pc.Starting?
    case TestTtl(c) => Known(w, c) && w.calls[c].pc.Checking?
    case Load(c) => Known(w, c) && w.calls[c].pc.Loading?
    case MakeKey(c, made) => Known(w, c) && w.calls[c].pc.NeedsKey? && made.tid == w.calls[c].tid
    case UpdateRows(c) => Known(w, c) && w.calls[c].pc.Prepared?
    case Commit(c, _) => Known(w, c) && w.calls[c].pc.Updated?
    case Store(c) => Known(w, c) && w.calls[c].pc.Storing? && w.now <= w.calls[c].pc.asOf + lag
    case Invalidate(inst, _) => inst in w.insts
    case Abort(c) => Known(w, c) && !w.calls[c].pc.Returned?
  }

  function AfterTtlTest(entry: Option<Entry>, now: nat): Pc {
    match entry
    case Some(e) => if now - e.cachedAt < CACHE_TTL then Returned(e.key, now) else Loading
    case None => Loading
  }

  function AfterLoad(rows: seq<Row>, tid: string, kek: string, now: nat): Pc {
    match SelectActive(rows, tid)
    case None => NeedsKey
    case Some(row) =>
      match Decrypt(kek, row)
      case Some(key) => Storing(key, now)
      case None => Failed
  }

  function Apply(w: World, s: Step, lag: nat): World
    requires Enabled(w, s, lag)
  {
    match s
    case Tick(d) => w.(now := w.now + d)
    case CallActiveKey(c, inst, tid) => w.(calls := w.calls[c := Call(inst, tid, Starting)])
    case CallGenerate(c, inst, made) => w.(calls := w.calls[c := Call(inst, made.tid, Prepared(made))])
    case ReadCache(c) =>
      var cache := w.insts[w.calls[c].inst].cache;
      At(w, c, Checking(if w.calls[c].tid in cache then Some(cache[w.calls[c].tid]) else None))
    case TestTtl(c) => At(w, c, AfterTtlTest(w.calls[c].pc.entry, w.now))
    case Load(c) => At(w, c, AfterLoad(w.rows, w.calls[c].tid, w.insts[w.calls[c].inst].kek, w.now))
    case MakeKey(c, made) => At(w, c, Prepared(made))
    case UpdateRows(c) => At(w, c, Updated(w.calls[c].pc.made, ActiveRows(w.rows, w.calls[c].tid)))
    case Commit(c, nonce) =>
      var pc := w.calls[c].pc;
      var rows := Deactivate(w.rows, pc.locked, w.now);
      if InsertAllowed(rows, pc.made) then
        At(w.(rows := rows + [NewRow(pc.made, w.insts[w.calls[c].inst].kek, nonce, w.now)]), c, Storing(pc.made, w.now))
      else At(w, c, Failed)  // rolled back
    case Store(c) =>
      var key := w.calls[c].pc.key;
      At(SetCache(w, w.calls[c].inst, w.calls[c].tid, key), c, Returned(key, w.now))
    case Invalidate(inst, tid) =>
      var i := w.insts[inst];
      w.(insts := w.insts[inst := i.(cache := i.cache - {tid})])
    case Abort(c) => At(w, c, Failed)
  }

  // ---------- what "was the active key at instant u" means ----------

  predicate Holds(row: Row, key: TenantKey) {
    row.tid == key.tid && row.keyId == key.keyId && row.pubHex == key.pubHex && row.privEnc.plain == key.priv
  }

  predicate InSpan(row: Row, u: nat) {
    row.since <= u && (row.until.Some? ==> u <= row.until.value)
  }

  ghost predicate ActiveAt(rows: seq<Row>, key: TenantKey, u: nat) {
    exists i | 0 <= i < |rows| :: Holds(rows[i], key) && InSpan(rows[i], u)
  }

  /** The key was its tenant's active key at some instant between lo and hi. */
  ghost predicate ActiveWithin(rows: seq<Row>, key: TenantKey, lo: int, hi: int) {
    exists u: nat :: lo <= u <= hi && ActiveAt(rows, key, u)
  }

  // ---------- invariant ----------

  ghost predicate RowsOk(rows: seq<Row>, now: nat) {
    && (forall i | 0 <= i < |rows| ::
          rows[i].since <= now && (rows[i].active <==> rows[i].until.None?)
          && (rows[i].until.Some? ==> rows[i].since <= rows[i].until.value <= now))
    && (forall i, j | 0 <= i < j < |rows| ::
          rows[i].keyId != rows[j].keyId
          && (rows[i].tid == rows[j].tid ==> rows[i].until.Some? && rows[i].until.value <= rows[j].since))
  }

  ghost predicate EntryOk(w: World, tid: string, e: Entry, lag: nat) {
    e.key.tid == tid && e.cachedAt <= w.now && ActiveWithin(w.rows, e.key, e.cachedAt - lag, e.cachedAt)
  }

  ghost predicate CallOk(w: World, call: Call, lag: nat) {
    call.inst in w.insts &&
    match call.pc
    case Checking(Some(e)) => EntryOk(w, call.tid, e, lag)
    case Prepared(made) => made.tid == call.tid
    case Updated(made, _) => made.tid == call.tid
    case Storing(key, asOf) => key.tid == call.tid && asOf <= w.now && ActiveAt(w.rows, key, asOf)
    case Returned(key, at) =>
      key.tid == call.tid && at <= w.now && ActiveWithin(w.rows, key, at - CACHE_TTL - lag + 1, at)
    case _ => true
  }

  ghost predicate CacheOk(w: World, cache: map<string, Entry>, lag: nat) {
    forall tid | tid in cache :: EntryOk(w, tid, cache[tid], lag)
  }

  ghost predicate Inv(w: World, lag: nat) {
    && RowsOk(w.rows, w.now)
    && (forall n | n in w.insts :: CacheOk(w, w.insts[n].cache, lag))
    && (forall c | c in w.calls :: CallOk(w, w.calls[c], lag))
  }

  /** Rows are only appended, and the one change to an old row is its retirement. */
  ghost predicate Grows(rows: seq<Row>, rows': seq<Row>, now: nat) {
    |rows| <= |rows'| && forall i | 0 <= i < |rows| ::
      rows'[i] == rows[i] || (rows[i].active && rows'[i] == rows[i].(active := false, until := Some(now)))
  }

  lemma {:induction false} ActivePersists(rows: seq<Row>, rows': seq<Row>, now: nat, key: TenantKey, u: nat)
    requires RowsOk(rows, now) && Grows(rows, rows', now) && u <= now && ActiveAt(rows, key, u)
    ensures ActiveAt(rows', key, u)
  {
    var i :| 0 <= i < |rows| && Holds(rows[i], key) && InSpan(rows[i], u);
    assert Holds(rows'[i], key) && InSpan(rows'[i], u);
  }

  lemma {:induction false} WithinPersists(rows: seq<Row>, rows': seq<Row>, now: nat, key: TenantKey, lo: int, hi: int)
    requires RowsOk(rows, now) && Grows(rows, rows', now) && hi <= now && ActiveWithin(rows, key, lo, hi)
    ensures ActiveWithin(rows', key, lo, hi)
  {
    var u: nat :| lo <= u <= hi && ActiveAt(rows, key, u);
    ActivePersists(rows, rows', now, key, u);
  }

  lemma CallPersists(w: World, w': World, call: Call, lag: nat)
    requires RowsOk(w.rows, w.now) && Grows(w.rows, w'.rows, w.now) && w.now <= w'.now
    requires call.inst in w'.insts && CallOk(w, call, lag)
    ensures CallOk(w', call, lag)
  {
    match call.pc
    case Checking(Some(e)) => WithinPersists(w.rows, w'.rows, w.now, e.key, e.cachedAt - lag, e.cachedAt);
    case Storing(key, asOf) => ActivePersists(w.rows, w'.rows, w.now, key, asOf);
    case Returned(key, at) => WithinPersists(w.rows, w'.rows, w.now, key, at - CACHE_TTL - lag + 1, at);
    case _ =>
  }

  /** Everything already established survives a step that leaves caches and other calls alone. */
  lemma Frame(w: World, w': World, lag: nat)
    requires Inv(w, lag) && RowsOk(w'.rows, w'.now) && Grows(w.rows, w'.rows, w.now) && w.now <= w'.now
    requires w'.insts.Keys == w.insts.Keys
    requires forall n, t | n in w.insts && t in w'.insts[n].cache ::
      (t in w.insts[n].cache && w'.insts[n].cache[t] == w.insts[n].cache[t]) || EntryOk(w', t, w'.insts[n].cache[t], lag)
    requires forall c | c in w'.calls :: (c in w.calls && w'.calls[c] == w.calls[c]) || CallOk(w', w'.calls[c], lag)
    ensures Inv(w', lag)
  {
    forall n, t | n in w'.insts && t in w'.insts[n].cache ensures EntryOk(w', t, w'.insts[n].cache[t], lag) {
      if t in w.insts[n].cache && w'.insts[n].cache[t] == w.insts[n].cache[t] {
        var e := w.insts[n].cache[t];
        assert CacheOk(w, w.insts[n].cache, lag);
        WithinPersists(w.rows, w'.rows, w.now, e.key, e.cachedAt - lag, e.cachedAt);
      }
    }
    forall c | c in w'.calls ensures CallOk(w', w'.calls[c], lag) {
      if c in w.calls && w'.calls[c] == w.calls[c] { CallPersists(w, w', w.calls[c], lag); }
    }
  }

  lemma {:induction false} CommitKeepsRows(rows: seq<Row>, locked: set<nat>, key: TenantKey, kek: string, nonce: nat, now: nat)
    requires RowsOk(rows, now) && InsertAllowed(Deactivate(rows, locked, now), key)
    ensures var rows' := Deactivate(rows, locked, now) + [NewRow(key, kek, nonce, now)];
            RowsOk(rows', now) && Grows(rows, rows', now) && ActiveAt(rows', key, now)
  {
    var mid, row := Deactivate(rows, locked, now), NewRow(key, kek, nonce, now);
    var rows' := mid + [row];
    assert rows'[|rows|] == row && Holds(row, key) && InSpan(row, now);
    assert forall i | 0 <= i < |rows| :: rows'[i] == mid[i];
    forall i, j | 0 <= i < j < |rows'| ensures rows'[i].keyId != rows'[j].keyId
      && (rows'[i].tid == rows'[j].tid ==> rows'[i].until.Some? && rows'[i].until.value <= rows'[j].since)
    {
      assert rows'[i] == mid[i];
      if j < |rows| { assert rows'[j] == mid[j]; }
    }
  }

  lemma {:induction false} LoadFindsActive(rows: seq<Row>, tid: string, kek: string, now: nat)
    requires RowsOk(rows, now) && AfterLoad(rows, tid, kek, now).Storing?
    ensures var key := AfterLoad(rows, tid, kek, now).key; key.tid == tid && ActiveAt(rows, key, now)
  {
    var row := SelectActive(rows, tid).value;
    var i :| 0 <= i < |rows| && rows[i] == row;
    assert Holds(rows[i], AfterLoad(rows, tid, kek, now).key) && InSpan(rows[i], now);
  }

  /** A step that only moves one call to a justified program point. */
  lemma MoveKeepsInv(w: World, c: nat, pc: Pc, lag: nat)
    requires Inv(w, lag) && c in w.calls && CallOk(w, w.calls[c].(pc := pc), lag)
    ensures Inv(At(w, c, pc), lag)
  {
    Frame(w, At(w, c, pc), lag);
  }

  lemma CommitKeepsInv(w: World, c: nat, nonce: nat, lag: nat)
    requires Inv(w, lag) && Enabled(w, Commit(c, nonce), lag)
    ensures Inv(Apply(w, Commit(c, nonce), lag), lag)
    ensures Grows(w.rows, Apply(w, Commit(c, nonce), lag).rows, w.now)
  {
    assert CallOk(w, w.calls[c], lag);
    var pc, kek := w.calls[c].pc, w.insts[w.calls[c].inst].kek;
    if InsertAllowed(Deactivate(w.rows, pc.locked, w.now), pc.made) {
      CommitKeepsRows(w.rows, pc.locked, pc.made, kek, nonce, w.now);
      Frame(w, Apply(w, Commit(c, nonce), lag), lag);
    } else {
      MoveKeepsInv(w, c, Failed, lag);
    }
  }

  lemma StoreKeepsInv(w: World, c: nat, lag: nat)
    requires Inv(w, lag) && Enabled(w, Store(c), lag)
    ensures Inv(Apply(w, Store(c), lag), lag)
  {
    assert CallOk(w, w.calls[c], lag);
    var w', call := Apply(w, Store(c), lag), w.calls[c];
    assert ActiveAt(w.rows, call.pc.key, call.pc.asOf);
    assert EntryOk(w', call.tid, Entry(call.pc.key, w.now), lag);
    Frame(w, w', lag);
  }

  lemma TtlTestIsSound(w: World, c: nat, lag: nat)
    requires Inv(w, lag) && Enabled(w, TestTtl(c), lag)
    ensures CallOk(w, w.calls[c].(pc := AfterTtlTest(w.calls[c].pc.entry, w.now)), lag)
  {
    assert CallOk(w, w.calls[c], lag);
    if AfterTtlTest(w.calls[c].pc.entry, w.now).Returned? {
      var e := w.calls[c].pc.entry.value;
      var u: nat :| e.cachedAt - lag <= u <= e.cachedAt && ActiveAt(w.rows, e.key, u);
    }
  }

  /** The invariant is kept by every step of every process. */
  lemma StepKeepsInv(w: World, s: Step, lag: nat)
    requires Inv(w, lag) && Enabled(w, s, lag)
    ensures Inv(Apply(w, s, lag), lag)
    ensures Grows(w.rows, Apply(w, s, lag).rows, w.now)
  {
    match s {
      case Commit(c, nonce) => CommitKeepsInv(w, c, nonce, lag);
      case Store(c) => StoreKeepsInv(w, c, lag);
      case TestTtl(c) =>
        TtlTestIsSound(w, c, lag);
        MoveKeepsInv(w, c, AfterTtlTest(w.calls[c].pc.entry, w.now), lag);
      case Load(c) =>
        var call, kek := w.calls[c], w.insts[w.calls[c].inst].kek;
        if AfterLoad(w.rows, call.tid, kek, w.now).Storing? { LoadFindsActive(w.rows, call.tid, kek, w.now); }
        MoveKeepsInv(w, c, AfterLoad(w.rows, call.tid, kek, w.now), lag);
      case ReadCache(c) =>
        assert CacheOk(w, w.insts[w.calls[c].inst].cache, lag);
        MoveKeepsInv(w, c, Apply(w, s, lag).calls[c].pc, lag);
      case UpdateRows(c) =>
        assert CallOk(w, w.calls[c], lag);
        MoveKeepsInv(w, c, Apply(w, s, lag).calls[c].pc, lag);
      case MakeKey(c, made) => MoveKeepsInv(w, c, Prepared(made), lag);
      case Abort(c) => MoveKeepsInv(w, c, Failed, lag);
      case _ => Frame(w, Apply(w, s, lag), lag);
    }
  }

  // ---------- whole runs ----------

  ghost predicate Init(w: World) {
    RowsOk(w.rows, w.now) && w.calls == map[] && forall n | n in w.insts :: w.insts[n].cache == map[]
  }

  /** A run: worlds ws[0], ws[1], … where steps ss[i] leads from ws[i] to ws[i + 1]. */
  ghost predicate IsRun(ws: seq<World>, ss: seq<Step>, lag: nat) {
    IsPath(ws, ss, lag) && Init(ws[0])
  }

  ghost predicate IsPath(ws: seq<World>, ss: seq<Step>, lag: nat) {
    && |ws| == |ss| + 1
    && forall i {:trigger ss[i]} | 0 <= i < |ss| :: Enabled(ws[i], ss[i], lag) && ws[i + 1] == Apply(ws[i], ss[i], lag)
  }

  lemma {:induction false} RunKeepsInv(ws: seq<World>, ss: seq<Step>, lag: nat, i: nat)
    requires IsRun(ws, ss, lag) && i < |ws|
    ensures Inv(ws[i], lag)
  {
    if i > 0 {
      RunKeepsInv(ws, ss, lag, i - 1);
      StepKeepsInv(ws[i - 1], ss[i - 1], lag);
    }
  }

  /** Every key any call ever returned was active at some instant of (t - 5 min - lag, t]. */
  lemma {:induction false} ReturnedKeysAreRecent(ws: seq<World>, ss: seq<Step>, lag: nat, i: nat, c: nat)
    requires IsRun(ws, ss, lag) && i < |ws| && c in ws[i].calls && ws[i].calls[c].pc.Returned?
    ensures var r := ws[i].calls[c].pc;
            r.key.tid == ws[i].calls[c].tid && r.at <= ws[i].now
            && exists u: nat :: r.at - CACHE_TTL - lag < u <= r.at && ActiveAt(ws[i].rows, r.key, u)
  {
    RunKeepsInv(ws, ss, lag, i);
    assert CallOk(ws[i], ws[i].calls[c], lag);
  }

  /** Once 5 min + lag have passed since the last rotation, every process returns the new key. */
  lemma {:induction false} AllInstancesConverge(ws: seq<World>, ss: seq<Step>, lag: nat, i: nat, c: nat, n: nat)
    requires IsRun(ws, ss, lag) && i < |ws| && n < |ws[i].rows| && ws[i].rows[n].active
    requires c in ws[i].calls && ws[i].calls[c].pc.Returned? && ws[i].calls[c].tid == ws[i].rows[n].tid
    requires ws[i].rows[n].since + CACHE_TTL + lag <= ws[i].calls[c].pc.at
    ensures Holds(ws[i].rows[n], ws[i].calls[c].pc.key)
  {
    ReturnedKeysAreRecent(ws, ss, lag, i, c);
    RunKeepsInv(ws, ss, lag, i);
    var rows, r := ws[i].rows, ws[i].calls[c].pc;
    var u: nat :| r.at - CACHE_TTL - lag < u <= r.at && ActiveAt(rows, r.key, u);
    var m :| 0 <= m < |rows| && Holds(rows[m], r.key) && InSpan(rows[m], u);
    assert m < n || m == n || n < m;
  }

  lemma {:induction false} RunGrows(ws: seq<World>, ss: seq<Step>, lag: nat, i: nat)
    requires IsRun(ws, ss, lag) && i < |ss|
    ensures Grows(ws[i].rows, ws[i + 1].rows, ws[i].now)
  {
    RunKeepsInv(ws, ss, lag, i);
    StepKeepsInv(ws[i], ss[i], lag);
  }

  lemma {:induction false} RowsOnlyRetire(ws: seq<World>, ss: seq<Step>, lag: nat, i: nat, j: nat, n: nat)
    requires IsRun(ws, ss, lag) && i <= j < |ws| && n < |ws[i].rows|
    ensures n < |ws[j].rows| && ws[j].rows[n].keyId == ws[i].rows[n].keyId
    ensures !ws[i].rows[n].active ==> ws[j].rows[n] == ws[i].rows[n]
  {
    if i < j {
      RowsOnlyRetire(ws, ss, lag, i, j - 1, n);
      RunGrows(ws, ss, lag, j - 1);
    }
  }

  /** A key that was retired once is the active key of no tenant ever after. */
  lemma {:induction false} RetiredKeysStayRetired(ws: seq<World>, ss: seq<Step>, lag: nat, i: nat, j: nat, n: nat, m: nat)
    requires IsRun(ws, ss, lag) && i <= j < |ws| && n < |ws[i].rows| && !ws[i].rows[n].active
    requires m < |ws[j].rows| && ws[j].rows[m].keyId == ws[i].rows[n].keyId
    ensures m == n && !ws[j].rows[m].active
  {
    RowsOnlyRetire(ws, ss, lag, i, j, n);
    RunKeepsInv(ws, ss, lag, j);
  }

  lemma {:induction false} Extend(ws: seq<World>, ss: seq<Step>, s: Step, lag: nat) returns (ws': seq<World>, ss': seq<Step>)
    requires IsPath(ws, ss, lag) && Enabled(ws[|ss|], s, lag)
    ensures IsPath(ws', ss', lag) && ws'[0] == ws[0]
    ensures |ss'| == |ss| + 1 && ws'[|ss'|] == Apply(ws[|ss|], s, lag)
  {
    ws', ss' := ws + [Apply(ws[|ss|], s, lag)], ss + [s];
  }

  lemma {:induction false} Join(ws: seq<World>, ss: seq<Step>, ws': seq<World>, ss': seq<Step>, lag: nat)
    requires IsPath(ws, ss, lag) && IsPath(ws', ss', lag) && ws[|ss|] == ws'[0]
    ensures IsPath(ws + ws'[1..], ss + ss', lag)
    ensures (ws + ws'[1..])[0] == ws[0] && (ws + ws'[1..])[|ss + ss'|] == ws'[|ss'|]
  {
    forall i | 0 <= i < |ss + ss'| ensures Enabled((ws + ws'[1..])[i], (ss + ss')[i], lag)
      && (ws + ws'[1..])[i + 1] == Apply((ws + ws'[1..])[i], (ss + ss')[i], lag)
    {
      if i >= |ss| { assert (ws + ws'[1..])[i] == ws'[i - |ss|] && (ws + ws'[1..])[i + 1] == ws'[i - |ss| + 1]; }
    }
  }

  /** One uninterrupted Generate from any reached world: both old and new row are known. */
  lemma {:induction false} GenerateRun(ws: seq<World>, ss: seq<Step>, c: nat, inst: nat, key: TenantKey)
      returns (ws': seq<World>, ss': seq<Step>)
    requires IsRun(ws, ss, 0) && c !in ws[|ss|].calls && inst in ws[|ss|].insts
    requires var w := ws[|ss|]; InsertAllowed(Deactivate(w.rows, ActiveRows(w.rows, key.tid), w.now), key)
    ensures IsRun(ws', ss', 0) && ws'[0] == ws[0]
    ensures var w, w' := ws[|ss|], ws'[|ss'|];
      && w'.now == w.now && w'.calls.Keys == w.calls.Keys + {c} && w'.insts.Keys == w.insts.Keys
      && w'.rows == Deactivate(w.rows, ActiveRows(w.rows, key.tid), w.now) + [NewRow(key, w.insts[inst].kek, 0, w.now)]
      && w'.insts == w.insts[inst := w.insts[inst].(cache := w.insts[inst].cache[key.tid := Entry(key, w.now)])]
  {
    ws', ss' := Extend(ws, ss, CallGenerate(c, inst, key), 0);
    ws', ss' := Extend(ws', ss', UpdateRows(c), 0);
    ws', ss' := Extend(ws', ss', Commit(c, 0), 0);
    ws', ss' := Extend(ws', ss', Store(c), 0);
  }

  /** A call made within the TTL of a cache entry returns that entry, whatever the table holds by then. */
  lemma {:induction false} LateHit(ws: seq<World>, ss: seq<Step>, c: nat, inst: nat, tid: string, wait: nat)
      returns (ws': seq<World>, ss': seq<Step>)
    requires IsRun(ws, ss, 0) && c !in ws[|ss|].calls && inst in ws[|ss|].insts
    requires var w := ws[|ss|]; tid in w.insts[inst].cache && w.now + wait - w.insts[inst].cache[tid].cachedAt < CACHE_TTL
    ensures IsRun(ws', ss', 0) && ws'[0] == ws[0] && c in ws'[|ss'|].calls && ws'[|ss'|].rows == ws[|ss|].rows
    ensures ws'[|ss'|].calls[c].pc == Returned(ws[|ss|].insts[inst].cache[tid].key, ws[|ss|].now + wait)
  {
    ws', ss' := Extend(ws, ss, Tick(wait), 0);
    ws', ss' := Extend(ws', ss', CallActiveKey(c, inst, tid), 0);
    ws', ss' := Extend(ws', ss', ReadCache(c), 0);
    ws', ss' := Extend(ws', ss', TestTtl(c), 0);
  }

  /** Two processes generate a key each for tenant "t" in the same second. */
  lemma TwoRotations(first: TenantKey, second: TenantKey) returns (ws: seq<World>, ss: seq<Step>)
    requires first.tid == "t" && second.tid == "t" && first.keyId != second.keyId
    ensures IsRun(ws, ss, 0) && ws[0].now == 0
    ensures ws[|ss|].now == 0 && ws[|ss|].calls.Keys == {0, 1} && 0 in ws[|ss|].insts
    ensures ws[|ss|].insts[0].cache == map["t" := Entry(first, 0)]
    ensures ws[|ss|].rows == [NewRow(first, "", 0, 0).(active := false, until := Some(0)), NewRow(second, "", 0, 0)]
  {
    var w := World(0, [], map[0 := Instance("", map[]), 1 := Instance("", map[])], map[]);
    ws, ss := GenerateRun([w], [], 0, 0, first);
    assert ws[|ss|].rows == [NewRow(first, "", 0, 0)];
    var rows := ws[|ss|].rows;
    assert 0 in ActiveRows(rows, "t");
    assert Deactivate(rows, ActiveRows(rows, "t"), 0) == [rows[0].(active := false, until := Some(0))];
    ws, ss := GenerateRun(ws, ss, 1, 1, second);
  }

  /** The window cannot be narrowed: a process may serve a key 299 s after another one rotated it. */
  lemma StaleKeyCanBeReturned() returns (ws: seq<World>, ss: seq<Step>, stale: TenantKey)
    ensures IsRun(ws, ss, 0) && ws[0].now == 0
    ensures 2 in ws[|ss|].calls && ws[|ss|].calls[2].pc == Returned(stale, CACHE_TTL - 1)
    ensures forall u: nat | u > 0 :: !ActiveAt(ws[|ss|].rows, stale, u)
  {
    stale := TenantKey(1, "t", "", "");
    ws, ss := TwoRotations(stale, TenantKey(2, "t", "", ""));
    ws, ss := LateHit(ws, ss, 2, 0, "t", CACHE_TTL - 1);
  }

  // ---------- the service itself ----------

  /** A system of one process running one call. */
  function Solo(now: nat, rows: seq<Row>, kek: string, cache: map<string, Entry>, tid: string, pc: Pc): World {
    World(now, rows, map[0 := Instance(kek, cache)], map[0 := Call(0, tid, pc)])
  }

  /** The solo call is over, the tables are as given and the caller was told r. */
  ghost predicate EndsAs(w: World, now: nat, rows: seq<Row>, kek: string, cache: map<string, Entry>, tid: string,
                         r: Result<TenantKey, KeyError>) {
    w == Solo(now, rows, kek, cache, tid, match r case Ok(key) => Returned(key, now) case Err(_) => Failed)
  }

  lemma SoloCommit(now: nat, rows: seq<Row>, kek: string, cache: map<string, Entry>, made: TenantKey, locked: set<nat>, nonce: nat)
    ensures var rows' := Deactivate(rows, locked, now);
            Apply(Solo(now, rows, kek, cache, made.tid, Updated(made, locked)), Commit(0, nonce), 0)
            == if InsertAllowed(rows', made)
               then Solo(now, rows' + [NewRow(made, kek, nonce, now)], kek, cache, made.tid, Storing(made, now))
               else Solo(now, rows, kek, cache, made.tid, Failed)
  {
    var c := Call(0, made.tid, Updated(made, locked));
    assert forall d: Call :: map[0 := c][0 := d] == map[0 := d];
  }

  lemma SoloGenerate(now: nat, rows: seq<Row>, kek: string, cache: map<string, Entry>, made: TenantKey, nonce: nat)
      returns (ws: seq<World>, ss: seq<Step>)
    ensures IsPath(ws, ss, 0) && ws[0] == Solo(now, rows, kek, cache, made.tid, Prepared(made))
    ensures var rows' := Deactivate(rows, ActiveRows(rows, made.tid), now);
      ws[|ss|] == if InsertAllowed(rows', made)
                  then Solo(now, rows' + [NewRow(made, kek, nonce, now)], kek, cache[made.tid := Entry(made, now)],
                            made.tid, Returned(made, now))
                  else Solo(now, rows, kek, cache, made.tid, Failed)
  {
    var locked := ActiveRows(rows, made.tid);
    ws, ss := Extend([Solo(now, rows, kek, cache, made.tid, Prepared(made))], [], UpdateRows(0), 0);
    assert ws[|ss|] == Solo(now, rows, kek, cache, made.tid, Updated(made, locked));
    ws, ss := Extend(ws, ss, Commit(0, nonce), 0);
    SoloCommit(now, rows, kek, cache, made, locked, nonce);
    if InsertAllowed(Deactivate(rows, locked, now), made) {
      SoloStore(now, ws[|ss|].rows, kek, cache, made);
      ws, ss := Extend(ws, ss, Store(0), 0);
    }
  }

  lemma SoloStore(now: nat, rows: seq<Row>, kek: string, cache: map<string, Entry>, key: TenantKey)
    ensures Apply(Solo(now, rows, kek, cache, key.tid, Storing(key, now)), Store(0), 0)
            == Solo(now, rows, kek, cache[key.tid := Entry(key, now)], key.tid, Returned(key, now))
  {
    assert forall i: Instance, j: Instance :: map[0 := i][0 := j] == map[0 := j];
    assert forall i: Call, j: Call :: map[0 := i][0 := j] == map[0 := j];
  }

  class KeyTable {
    var rows: seq<Row>
    constructor () ensures rows == [] { rows := []; }
  }

  class Service {
    const kek: string
    var cache: map<string, Entry>

    constructor (kek: string)
      ensures this.kek == kek && cache == map[]
    {
      this.kek := kek;
      cache := map[];
    }

    method StoreEntry(tid: string, key: TenantKey, now: nat)
      modifies this
      ensures cache == old(cache)[tid := Entry(key, now)]
    {
      cache := cache[tid := Entry(key, now)];
    }

    method Invalidate(tid: string)
      modifies this
      ensures cache == old(cache) - {tid}
    {
      cache := cache - {tid};
    }

    method LoadFromDB(db: KeyTable, tid: string, now: nat)
        returns (r: Result<TenantKey, KeyError>, ghost ws: seq<World>, ghost ss: seq<Step>)
      modifies this
      ensures IsPath(ws, ss, 0) && ws[0] == Solo(now, old(db.rows), kek, old(cache), tid, Loading)
      ensures if r == Err(NoRows) then ws[|ss|] == Solo(now, db.rows, kek, cache, tid, NeedsKey)
              else EndsAs(ws[|ss|], now, db.rows, kek, cache, tid, r)
    {
      ws, ss := Extend([Solo(now, db.rows, kek, cache, tid, Loading)], [], Load(0), 0);
      var row := SelectActive(db.rows, tid);
      if row.None? {
        assert ws[|ss|] == Solo(now, db.rows, kek, cache, tid, NeedsKey);
        return Err(NoRows), ws, ss;
      }
      var priv := Gcm.Open(kek, row.value.privEnc);
      if priv.None? {
        assert ws[|ss|] == Solo(now, db.rows, kek, cache, tid, Failed);
        return Err(BadCiphertext), ws, ss;
      }
      var key := TenantKey(row.value.keyId, tid, row.value.pubHex, priv.value);
      assert ws[|ss|] == Solo(now, db.rows, kek, cache, tid, Storing(key, now));
      ws, ss := Extend(ws, ss, Store(0), 0);
      StoreEntry(tid, key, now);
      assert ws[|ss|] == Solo(now, db.rows, kek, cache, tid, Returned(key, now));
      return Ok(key), ws, ss;
    }

    method Generate(db: KeyTable, made: TenantKey, nonce: nat, now: nat)
        returns (r: Result<TenantKey, KeyError>, ghost ws: seq<World>, ghost ss: seq<Step>)
      modifies this, db
      ensures IsPath(ws, ss, 0) && ws[0] == Solo(now, old(db.rows), kek, old(cache), made.tid, Prepared(made))
      ensures EndsAs(ws[|ss|], now, db.rows, kek, cache, made.tid, r)
    {
      ws, ss := SoloGenerate(now, db.rows, kek, cache, made, nonce);
      var enc := Gcm.Seal(kek, nonce, made.priv);
      var rows := Deactivate(db.rows, ActiveRows(db.rows, made.tid), now);
      if !InsertAllowed(rows, made) { return Err(UniqueViolation), ws, ss; }
      db.rows := rows + [Row(made.keyId, made.tid, made.pubHex, enc, true, now, None)];
      StoreEntry(made.tid, made, now);
      return Ok(made), ws, ss;
    }

    /** Refinement: every execution of the method is a path of the system proved safe above. */
    method ActiveKey(db: KeyTable, tid: string, made: TenantKey, nonce: nat, now: nat)
        returns (r: Result<TenantKey, KeyError>, ghost ws: seq<World>, ghost ss: seq<Step>)
      requires made.tid == tid
      modifies this, db
      ensures IsPath(ws, ss, 0) && ws[0] == Solo(now, old(db.rows), kek, old(cache), tid, Starting)
      ensures EndsAs(ws[|ss|], now, db.rows, kek, cache, tid, r)
    {
      ghost var seen := if tid in cache then Some(cache[tid]) else None;
      ws, ss := Extend([Solo(now, db.rows, kek, cache, tid, Starting)], [], ReadCache(0), 0);
      assert ws[|ss|] == Solo(now, db.rows, kek, cache, tid, Checking(seen));
      ws, ss := Extend(ws, ss, TestTtl(0), 0);
      if tid in cache {
        var entry := cache[tid];
        if now - entry.cachedAt < CACHE_TTL {
          assert ws[|ss|] == Solo(now, db.rows, kek, cache, tid, Returned(entry.key, now));
          return Ok(entry.key), ws, ss;
        }
      }
      assert ws[|ss|] == Solo(now, db.rows, kek, cache, tid, Loading);
      ghost var ws', ss';
      r, ws', ss' := LoadFromDB(db, tid, now);
      Join(ws, ss, ws', ss', 0);
      ws, ss := ws + ws'[1..], ss + ss';
      if r == Err(NoRows) {
        ws, ss := Extend(ws, ss, MakeKey(0, made), 0);
        assert ws[|ss|] == Solo(now, db.rows, kek, cache, tid, Prepared(made));
        r, ws', ss' := Generate(db, made, nonce, now);
        Join(ws, ss, ws', ss', 0);
        ws, ss := ws + ws'[1..], ss + ss';
      }
    }
  }
}
