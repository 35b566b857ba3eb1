// Per-device LAN keys: created on first use, shown to the owner's app, and pushed to the
// device by "klk" commands (internal/localkey/localkey.go, internal/mqtt/router.go).
module LocalKey {
  import opened Common
  import Gcm
  import Hex
  import Schedule
  import W = WriteOnce

  const KEY_LEN: nat := 16

  type Key = seq<Hex.Byte>

  datatype Device = Device(tid: string, did: string)

  datatype Status = Pending | AckedOk | AckedFail

  /** A commands row of type "klk". */
  datatype Command = Command(device: Device, payload: string, status: Status)

  type KeyRows = map<Device, Gcm.Sealed<Key>>

  // ---------- N concurrent calls, one SQL statement at a time ----------

  /** `pushing` holds the calls that are a Provision and have not recorded their command yet. */
  datatype System = System(kek: string, store: W.Store<Device, Gcm.Sealed<Key>>, pushing: set<nat>, commands: seq<Command>)

  datatype Step =
    | Get(c: nat, device: Device, nonce: nat, raw: Key)   // GetHex for the app
    | Push(c: nat, device: Device, nonce: nat, raw: Key)  // Provision: adopt, manual resend or boot auto-retry
    | Sql(st: W.Step<Device, Gcm.Sealed<Key>>)
    | Record(c: nat)                                      // the commands insert of a Provision
    | Ack(i: nat, status: Status)

  function EntryOf(s: System, st: Step): W.Step<Device, Gcm.Sealed<Key>>
    requires st.Get? || st.Push?
  {
    W.Enter(st.c, st.device, Gcm.Seal(s.kek, st.nonce, st.raw))
  }

  predicate Enabled(s: System, st: Step) {
    match st
    case Get(_, _, _, raw) => |raw| == KEY_LEN && W.Enabled(s.store, EntryOf(s, st))
    case Push(_, _, _, raw) => |raw| == KEY_LEN && W.Enabled(s.store, EntryOf(s, st))
    case Sql(w) => !w.Enter? && W.Enabled(s.store, w)
    case Record(c) => c in s.pushing && c in s.store.calls && s.store.calls[c].pc.Done?
                      && Gcm.Open(s.kek, s.store.calls[c].pc.value).Some?
    case Ack(i, _) => i < |s.commands|
  }

  function Apply(s: System, st: Step): System
    requires Enabled(s, st)
  {
    match st
    case Get(_, _, _, _) => s.(store := W.Apply(s.store, EntryOf(s, st)))
    case Push(c, _, _, _) => s.(store := W.Apply(s.store, EntryOf(s, st)), pushing := s.pushing + {c})
    case Sql(w) => s.(store := W.Apply(s.store, w))
    case Record(c) =>
      var call := s.store.calls[c];
      s.(pushing := s.pushing - {c},
         commands := s.commands + [Command(call.key, Hex.Encode(Gcm.Open(s.kek, call.pc.value).value), Pending)])
    case Ack(i, status) => s.(commands := s.commands[i := s.commands[i].(status := status)])
  }

  function Do(s: System, st: Step): System {
    if Enabled(s, st) then Apply(s, st) else s
  }

  predicate WellSealed(kek: string, x: Gcm.Sealed<Key>) {
    x.kek == kek && |x.plain| == KEY_LEN
  }

  ghost predicate Init(s: System) {
    s.store.calls == map[] && s.pushing == {} && s.commands == []
    && forall d | d in s.store.rows :: WellSealed(s.kek, s.store.rows[d])
  }

  ghost predicate IsRun(ws: seq<System>, ss: seq<Step>) {
    && |ws| == |ss| + 1 && Init(ws[0])
    && forall i {:trigger ss[i]} | 0 <= i < |ss| :: Enabled(ws[i], ss[i]) && ws[i + 1] == Apply(ws[i], ss[i])
  }

  ghost predicate Inv(start: KeyRows, s: System) {
    && W.Inv(start, s.store)
    && (forall d | d in s.store.rows :: WellSealed(s.kek, s.store.rows[d]))
    && (forall c | c in s.store.calls :: WellSealed(s.kek, s.store.calls[c].mine))
    && (forall k | k in s.commands :: k.device in s.store.rows && k.payload == Hex.Encode(s.store.rows[k.device].plain))
  }

  lemma StepKeepsInv(start: KeyRows, s: System, st: Step)
    requires Inv(start, s) && Enabled(s, st)
    ensures Inv(start, Apply(s, st))
    ensures Apply(s, st).kek == s.kek
    ensures forall d | d in s.store.rows :: d in Apply(s, st).store.rows && Apply(s, st).store.rows[d] == s.store.rows[d]
  {
    match st
    case Get(_, _, _, _) => W.StepKeepsInv(start, s.store, EntryOf(s, st));
    case Push(_, _, _, _) => W.StepKeepsInv(start, s.store, EntryOf(s, st));
    case Sql(w) => W.StepKeepsInv(start, s.store, w);
    case _ =>
  }

  lemma {:induction false} RunKeepsInv(ws: seq<System>, ss: seq<Step>, i: nat)
    requires IsRun(ws, ss) && i < |ws|
    ensures Inv(ws[0].store.rows, ws[i]) && ws[i].kek == ws[0].kek
  {
    if i > 0 {
      RunKeepsInv(ws, ss, i - 1);
      StepKeepsInv(ws[0].store.rows, ws[i - 1], ss[i - 1]);
    }
  }

  lemma {:induction false} RowsNeverChange(ws: seq<System>, ss: seq<Step>, i: nat, j: nat, d: Device)
    requires IsRun(ws, ss) && i <= j < |ws| && d in ws[i].store.rows
    ensures d in ws[j].store.rows && ws[j].store.rows[d] == ws[i].store.rows[d]
  {
    if i < j {
      RowsNeverChange(ws, ss, i, j - 1, d);
      RunKeepsInv(ws, ss, j - 1);
      StepKeepsInv(ws[0].store.rows, ws[j - 1], ss[j - 1]);
    }
  }

  /** What GetHex answers once its call has read the row. */
  function Shown(s: System, c: nat): string
    requires c in s.store.calls && s.store.calls[c].pc.Done?
  {
    Hex.Encode(s.store.calls[c].pc.value.plain)
  }

  /**
   * Whenever and however a klk command was recorded, it carries the key that every GetHex of
   * that device ever answers: 32 lower-case hex digits.
   */
  lemma {:induction false} DeviceAndAppGetTheSameKey(ws: seq<System>, ss: seq<Step>, i: nat, j: nat, k: Command, c: nat)
    requires IsRun(ws, ss) && i < |ws| && j < |ws| && k in ws[i].commands
    requires c in ws[j].store.calls && ws[j].store.calls[c].pc.Done? && ws[j].store.calls[c].key == k.device
    ensures Gcm.Open(ws[j].kek, ws[j].store.calls[c].pc.value).Some?
    ensures k.payload == Shown(ws[j], c) && |k.payload| == 2 * KEY_LEN && Hex.IsLower(k.payload)
  {
    RunKeepsInv(ws, ss, i);
    RunKeepsInv(ws, ss, j);
    RowsNeverChange(ws, ss, if i < j then i else j, if i < j then j else i, k.device);
    Hex.DecodeEncode(ws[j].store.calls[c].pc.value.plain);
  }

  /** All klk commands of one device carry one key. */
  lemma {:induction false} AllCommandsAgree(ws: seq<System>, ss: seq<Step>, i: nat, k: Command, l: Command)
    requires IsRun(ws, ss) && i < |ws| && k in ws[i].commands && l in ws[i].commands && k.device == l.device
    ensures k.payload == l.payload
  {
    RunKeepsInv(ws, ss, i);
  }

  // ---------- one caller among others ----------

  type Others = Schedule.Others<System, Step>

  ghost predicate Leads(s: System, ss: seq<Step>, t: System) {
    Schedule.Leads(Enabled, Do, s, ss, t)
  }

  /** The step is not call c's. */
  predicate Spares(st: Step, c: nat) {
    match st
    case Get(d, _, _, _) => d != c
    case Push(d, _, _, _) => d != c
    case Sql(w) => w.c != c
    case Record(d) => d != c
    case Ack(_, _) => true
  }

  /** Whatever state they find, the others can do what they do, and leave call c alone. */
  ghost predicate Possible(others: Others, c: nat) {
    forall s :: Schedule.Playable(Enabled, Do, s, others(s)) && forall i | 0 <= i < |others(s)| :: Spares(others(s)[i], c)
  }

  ghost predicate SameCall(s: System, t: System, c: nat) {
    && (c in t.store.calls <==> c in s.store.calls) && (c in s.store.calls ==> t.store.calls[c] == s.store.calls[c])
    && (c in t.pushing <==> c in s.pushing)
  }

  ghost predicate KeepsRows(s: System, t: System) {
    t.kek == s.kek && forall d | d in s.store.rows :: d in t.store.rows && t.store.rows[d] == s.store.rows[d]
  }

  lemma {:induction false} OthersKeep(s: System, ss: seq<Step>, t: System, c: nat)
    requires Leads(s, ss, t) && forall i | 0 <= i < |ss| :: Spares(ss[i], c)
    ensures SameCall(s, t, c) && KeepsRows(s, t)
  {
    if ss != [] {
      var front := ss[..|ss| - 1];
      OthersKeep(s, front, Schedule.Played(Do, s, front), c);
    }
  }

  lemma {:induction false} Extend(ws: seq<System>, ss: seq<Step>, st: Step) returns (ws': seq<System>)
    requires IsRun(ws, ss) && Enabled(ws[|ss|], st)
    ensures IsRun(ws', ss + [st]) && ws <= ws' && ws'[|ss| + 1] == Apply(ws[|ss|], st)
  {
    ws' := ws + [Apply(ws[|ss|], st)];
  }

  /** The worlds along a path from an unused system. */
  lemma {:induction false} RunOf(start: System, ss: seq<Step>, t: System) returns (ws: seq<System>)
    requires Init(start) && Leads(start, ss, t)
    ensures IsRun(ws, ss) && ws[0] == start && ws[|ss|] == t
  {
    if ss == [] {
      ws := [start];
    } else {
      var front, st := ss[..|ss| - 1], ss[|ss| - 1];
      ws := RunOf(start, front, Schedule.Played(Do, start, front));
      ws := Extend(ws, front, st);
      assert front + [st] == ss;
    }
  }

  lemma {:induction false} WorldAt(ws: seq<System>, ss: seq<Step>, i: nat)
    requires IsRun(ws, ss) && i <= |ss|
    ensures ws[i] == Schedule.Played(Do, ws[0], ss[..i])
  {
    if i > 0 {
      WorldAt(ws, ss, i - 1);
      assert ss[..i][..i - 1] == ss[..i - 1] && ws[i] == Apply(ws[i - 1], ss[i - 1]);
    }
  }

  /** Whatever a database went through: a command recorded at one time and a key read at another are the same key. */
  lemma {:induction false} SameKeyEver(start: System, p: seq<Step>, s: System, q: seq<Step>, t: System, k: Command, c: nat)
    requires Init(start) && Leads(start, p, s) && Leads(start, q, t) && (p <= q || q <= p)
    requires k in s.commands && c in t.store.calls && t.store.calls[c].pc.Done? && t.store.calls[c].key == k.device
    ensures k.payload == Shown(t, c)
  {
    if p <= q {
      var ws := RunOf(start, q, t);
      WorldAt(ws, q, |p|);
      assert q[..|p|] == p;
      DeviceAndAppGetTheSameKey(ws, q, |p|, |q|, k, c);
    } else {
      var ws := RunOf(start, p, s);
      WorldAt(ws, p, |q|);
      assert p[..|q|] == q;
      DeviceAndAppGetTheSameKey(ws, p, |p|, |q|, k, c);
    }
  }

  // ---------- the services ----------

  /**
   * device_local_keys and commands, with where every running call stands. Everything that was ever done to them, by
   * these methods and by the others' steps between their statements, is one path of the system above.
   */
  class Database {
    const start: System
    var keys: KeyRows
    var calls: map<nat, W.Call<Device, Gcm.Sealed<Key>>>
    var pushing: set<nat>
    var commands: seq<Command>
    ghost var past: seq<Step>
    var devices: map<Device, string>  // devices row: its pid
    var adopted: set<string>          // app_devices: dids

    function View(): System
      reads this
    {
      System(start.kek, W.Store(keys, calls), pushing, commands)
    }

    ghost predicate Valid()
      reads this
    {
      Init(start) && Leads(start, past, View())
    }

    constructor (kek: string)
      ensures Valid() && start.kek == kek && keys == map[] && past == [] && devices == map[] && adopted == {}
    {
      start := System(kek, W.Store(map[], map[]), {}, []);
      keys, calls, pushing, commands, past := map[], map[], {}, [], [];
      devices, adopted := map[], {};
    }

    /** The other callers' turn. */
    method Meanwhile(others: Others, c: nat)
      requires Valid() && Possible(others, c)
      modifies `keys, `calls, `pushing, `commands, `past
      ensures Valid() && old(past) <= past && SameCall(old(View()), View(), c) && KeepsRows(old(View()), View())
    {
      var steps := others(View());
      var after := Schedule.Played(Do, View(), steps);
      OthersKeep(View(), steps, after, c);
      KekStays(View(), steps, after);
      Schedule.Joined(Enabled, Do, start, past, View(), steps, after);
      past := past + steps;
      keys, calls, pushing, commands := after.store.rows, after.store.calls, after.pushing, after.commands;
    }

    ghost method Note(st: Step, before: System)
      requires Init(start) && Leads(start, past, before) && Enabled(before, st) && View() == Apply(before, st)
      modifies `past
      ensures Valid() && past == old(past) + [st]
    {
      Schedule.OneMore(Enabled, Do, start, past, before, st);
      past := past + [st];
    }

    /** A call begins: GetHex for the app, or a Provision. */
    method Enter(c: nat, d: Device, nonce: nat, raw: Key, push: bool)
      requires Valid() && c !in calls && |raw| == KEY_LEN
      modifies `calls, `pushing, `past
      ensures Valid() && old(past) <= past
      ensures c in calls && calls[c] == W.Call(d, Gcm.Seal(start.kek, nonce, raw), W.Starting)
      ensures pushing == old(pushing) + if push then {c} else {}
    {
      ghost var before := View();
      calls := calls[c := W.Call(d, Gcm.Seal(start.kek, nonce, raw), W.Starting)];
      if push { pushing := pushing + {c}; }
      Note(if push then Push(c, d, nonce, raw) else Get(c, d, nonce, raw), before);
    }

    /** SELECT key_enc, before the insert and again after it. */
    method SelectKey(c: nat) returns (enc: Option<Gcm.Sealed<Key>>)
      requires Valid() && c in calls && (calls[c].pc.Starting? || calls[c].pc.Inserted?)
      modifies `calls, `past
      ensures Valid() && old(past) <= past
      ensures enc == if old(calls)[c].key in keys then Some(keys[old(calls)[c].key]) else None
      ensures c in calls && calls[c] == old(calls)[c].(pc := calls[c].pc)
      ensures calls[c].pc == if enc.Some? then W.Done(enc.value) else if old(calls)[c].pc.Starting? then W.Missed else W.Failed
    {
      ghost var before := View();
      var call := calls[c];
      enc := if call.key in keys then Some(keys[call.key]) else None;
      calls := calls[c := call.(pc := if enc.Some? then W.Done(enc.value) else if call.pc.Starting? then W.Missed else W.Failed)];
      Note(Sql(if call.pc.Starting? then W.Select(c, true) else W.Reselect(c, true)), before);
    }

    /** INSERT … ON CONFLICT (tid, did) DO NOTHING */
    method InsertKey(c: nat)
      requires Valid() && c in calls && calls[c].pc.Missed?
      modifies `keys, `calls, `past
      ensures Valid() && old(past) <= past && keys == W.InsertIfAbsent(old(keys), old(calls)[c].key, old(calls)[c].mine)
      ensures c in calls && calls[c] == old(calls)[c].(pc := W.Inserted)
    {
      ghost var before := View();
      var call := calls[c];
      if call.key !in keys { keys := keys[call.key := call.mine]; }
      calls := calls[c := call.(pc := W.Inserted)];
      Note(Sql(W.Insert(c, true)), before);
    }

    /** INSERT INTO commands */
    method RecordCommand(c: nat, payload: string)
      requires Valid() && c in pushing && c in calls && calls[c].pc.Done? && Gcm.Open(start.kek, calls[c].pc.value).Some?
      requires payload == Hex.Encode(Gcm.Open(start.kek, calls[c].pc.value).value)
      modifies `pushing, `commands, `past
      ensures Valid() && past == old(past) + [Record(c)]
      ensures commands == old(commands) + [Command(calls[c].key, payload, Pending)]
    {
      ghost var before := View();
      pushing := pushing - {c};
      commands := commands + [Command(calls[c].key, payload, Pending)];
      Note(Record(c), before);
    }
  }

  lemma {:induction false} KekStays(s: System, ss: seq<Step>, t: System)
    requires Leads(s, ss, t)
    ensures t.kek == s.kek
  {
    if ss != [] { KekStays(s, ss[..|ss| - 1], Schedule.Played(Do, s, ss[..|ss| - 1])); }
  }

  /** Call c has read the row of device d that is there. */
  predicate HasRead(s: System, c: nat, d: Device) {
    d in s.store.rows && c in s.store.calls && s.store.calls[c].key == d && s.store.calls[c].pc == W.Done(s.store.rows[d])
  }

  class Service {
    const db: Database

    constructor (db: Database)
      ensures this.db == db
    {
      this.db := db;
    }

    /** None when the stored row was sealed under another key. The others take their steps between the statements. */
    method GetOrCreateRaw(c: nat, d: Device, raw: Key, nonce: nat, push: bool, others: Others) returns (r: Option<Key>)
      requires db.Valid() && c !in db.calls && |raw| == KEY_LEN && Possible(others, c)
      modifies db`keys, db`calls, db`pushing, db`commands, db`past
      ensures db.Valid() && old(db.past) <= db.past
      ensures HasRead(db.View(), c, d) && r == Gcm.Open(db.start.kek, db.keys[d]) && (push ==> c in db.pushing)
    {
      db.Enter(c, d, nonce, raw, push);
      db.Meanwhile(others, c);
      var enc := db.SelectKey(c);
      if enc.None? { enc := Create(c, others); }
      return Gcm.Open(db.start.kek, enc.value);
    }

    /** The insert of a call that found no row, and the re-read that honours whoever won. */
    method Create(c: nat, others: Others) returns (enc: Option<Gcm.Sealed<Key>>)
      requires db.Valid() && c in db.calls && db.calls[c].pc.Missed? && Possible(others, c)
      modifies db`keys, db`calls, db`pushing, db`commands, db`past
      ensures db.Valid() && old(db.past) <= db.past && (c in db.pushing <==> c in old(db.pushing))
      ensures HasRead(db.View(), c, old(db.calls)[c].key) && enc == Some(db.keys[old(db.calls)[c].key])
    {
      db.Meanwhile(others, c);
      db.InsertKey(c);
      db.Meanwhile(others, c);
      enc := db.SelectKey(c);
    }

    method GetHex(c: nat, d: Device, raw: Key, nonce: nat, push: bool, others: Others) returns (r: Option<string>)
      requires db.Valid() && c !in db.calls && |raw| == KEY_LEN && Possible(others, c)
      modifies db`keys, db`calls, db`pushing, db`commands, db`past
      ensures db.Valid() && old(db.past) <= db.past
      ensures HasRead(db.View(), c, d) && (push ==> c in db.pushing)
      ensures r.Some? <==> Gcm.Open(db.start.kek, db.keys[d]).Some?
      ensures r.Some? ==> r.value == Shown(db.View(), c) && Hex.Decode(r.value) == Gcm.Open(db.start.kek, db.keys[d])
    {
      var key := GetOrCreateRaw(c, d, raw, nonce, push, others);
      if key.None? { return None; }
      Hex.DecodeEncode(key.value);
      return Some(Hex.Encode(key.value));
    }

    /**
     * The commands row needs its devices row (foreign key); the key row is kept either way. `published` is how the MQTT
     * publish after it went, which takes nothing back.
     */
    method Provision(c: nat, d: Device, raw: Key, nonce: nat, published: bool, others: Others) returns (ok: bool)
      requires db.Valid() && c !in db.calls && |raw| == KEY_LEN && Possible(others, c)
      modifies db`keys, db`calls, db`pushing, db`commands, db`past
      ensures db.Valid() && old(db.past) <= db.past && HasRead(db.View(), c, d)
      ensures ok <==> d in db.devices && Gcm.Open(db.start.kek, db.keys[d]).Some? && published
      ensures d in db.devices && Gcm.Open(db.start.kek, db.keys[d]).Some? ==>
        && db.past != [] && db.past[|db.past| - 1] == Record(c)
        && db.commands != [] && db.commands[|db.commands| - 1] == Command(d, Shown(db.View(), c), Pending)
    {
      var key := GetHex(c, d, raw, nonce, true, others);
      db.Meanwhile(others, c);
      if key.None? || d !in db.devices { return false; }
      db.RecordCommand(c, key.value);
      return published;
    }
  }

  /** Some klk of this did, under whatever tenant, was confirmed by the device. */
  predicate Acked(commands: seq<Command>, did: string) {
    exists i | 0 <= i < |commands| :: commands[i].device.did == did && commands[i].status == AckedOk
  }

  class Router {
    const db: Database
    var localKey: Service?

    constructor (db: Database)
      ensures this.db == db && localKey == null
    {
      this.db := db;
      localKey := null;
    }

    /** The lookup of the commands, with the others' steps before and after it. */
    method HasAcked(c: nat, did: string, others: Others) returns (acked: bool, ghost seen: seq<Step>)
      requires db.Valid() && c !in db.calls && Possible(others, c)
      modifies db`keys, db`calls, db`pushing, db`commands, db`past
      ensures db.Valid() && c !in db.calls && old(db.past) <= seen <= db.past
      ensures acked <==> Acked(Schedule.Played(Do, db.start, seen).commands, did)
    {
      hide Possible, KeepsRows, Acked;
      db.Meanwhile(others, c);
      seen := db.past;
      acked := Acked(db.commands, did);
      db.Meanwhile(others, c);
    }

    /**
     * A boot of an adopted device that has not confirmed a key records one more klk with the one key. The others take
     * their steps between the lookups; `seen` is the history up to the lookup of the commands.
     */
    method EnsureLocalKeyOnline(c: nat, d: Device, raw: Key, nonce: nat, published: bool, others: Others) returns (ghost seen: seq<Step>)
      requires db.Valid() && c !in db.calls && |raw| == KEY_LEN && Possible(others, c) && (localKey != null ==> localKey.db == db)
      modifies db`keys, db`calls, db`pushing, db`commands, db`past
      ensures db.Valid() && old(db.past) <= seen <= db.past
      ensures var resend := localKey != null && d.did in db.adopted
                            && !Acked(Schedule.Played(Do, db.start, seen).commands, d.did) && d in db.devices && db.devices[d] != "";
        if !resend then c !in db.calls
        else HasRead(db.View(), c, d)
             && (Gcm.Open(db.start.kek, db.keys[d]).Some? ==>
                   db.commands != [] && db.commands[|db.commands| - 1] == Command(d, Shown(db.View(), c), Pending))
    {
      hide Possible, HasRead, Acked, Shown;
      seen := db.past;
      if localKey == null { return; }
      if d.did !in db.adopted { return; }
      var acked;
      acked, seen := HasAcked(c, d.did, others);
      if acked { return; }
      if d !in db.devices || db.devices[d] == "" { return; }
      var _ := localKey.Provision(c, d, raw, nonce, published, others);
    }
  }
}
