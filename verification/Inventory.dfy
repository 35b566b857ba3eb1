// The device inventory: batch seeding, factory claims and the admin portal's provision, reset and
// delete (internal/ztp/inventory.go, internal/api/handlers/admin.go, admin/main.go, cmd/seedinventory).
//
// Each request is one atomic step; database statements fail only on the constraints of
// migrations 0002, 0006, 0014 and 0016.
module Inventory {
  import opened Common
  import Mac
  import Text
  import WorkList

  // ---------- tables ----------

  /** The primary key (tid, did) of device_inventory and devices. */
  datatype Device = Device(tid: string, did: string)

  datatype Status = InInventory | Provisioned

  datatype Row = Row(mac: Option<string>, ble: Option<string>, pid: string, schema: Option<int>,
                     provisionedAt: Option<nat>, status: Status, batch: Option<string>)

  /** A devices row as far as ZTP and the portal write it. */
  datatype DeviceRow = DeviceRow(pid: string, schema: Option<int>)

  datatype Product = Product(tid: string, pid: string, version: int)

  datatype Batch = Batch(product: Product, qty: int)

  /** `macs` is the unique index on mac; `released` says whether the stored schema parses; `drawn`
      holds every device and batch id used so far, so that a fresh UUID is one outside it. */
  datatype State = State(tenants: set<string>, released: map<Product, bool>, inventory: map<Device, Row>,
                         macs: map<string, Device>, devices: map<Device, DeviceRow>, owners: map<string, string>,
                         batches: map<string, Batch>, drawn: set<string>)

  const Empty := State({}, map[], map[], map[], map[], map[], map[], {})

  // ---------- requests ----------

  /** CreateBatch with the UUIDs it will draw. */
  datatype BatchRequest = BatchRequest(product: Product, raws: seq<string>, qty: int, id: string, dids: seq<string>)

  /** The number of devices: explicit MACs win over a bare quantity. */
  function Quantity(b: BatchRequest): int {
    match WorkList.WorkOf(b.raws)
    case Ok(macs) => if |macs| == 0 then b.qty else |macs|
    case Err(_) => 0
  }

  /** The supply of UUIDs never ends. */
  type Seeding = b: BatchRequest | Quantity(b) <= |b.dids| witness BatchRequest(Product("", "", 0), [], 0, "", [])

  datatype Request =
    | AddTenant(tid: string)
    | Release(product: Product, parses: bool)
    | AddDevice(raw: string, tid: string, pid: string, did: string)
    | Seed(raw: string, tid: string, pid: string, did: string)
    | CreateBatch(b: Seeding)
    | Claim(raw: string)
    | AdminProvision(raw: string)
    | AdminReset(raw: string)
    | AdminDelete(raw: string)
    | DeviceSeen(d: Device, pid: string)
    | Own(did: string, user: string)
    | Disown(did: string)

  datatype Reply =
    | Done | DbError | InvalidMac(raw: string) | PidRequired | Conflict | NotFound | AlreadyProvisioned
    | NotFoundOrProvisioned | CannotDeleteProvisioned
    | FieldsRequired | NoReleasedSchema | CorruptSchema | NoQuantity
    | Added(did: string) | Seeded(did: string)
    | Created(id: string, dids: seq<string>)
    | Claimed(mac: string, d: Device, pid: string, schema: Option<int>)
    | MarkedProvisioned(mac: string) | ResetToInventory(mac: string) | Deleted(mac: string)

  // ---------- statements ----------

  /** Some row other than d holds this ble_mac. */
  predicate BleTaken(s: State, ble: Option<string>, d: Device) {
    ble.Some? && exists e | e in s.inventory :: e != d && s.inventory[e].ble == ble
  }

  /** INSERT INTO device_inventory; None is a violated unique constraint. */
  function Insert(s: State, d: Device, row: Row): Option<State> {
    if d in s.inventory || (row.mac.Some? && row.mac.value in s.macs) || BleTaken(s, row.ble, d) then None
    else Some(s.(inventory := s.inventory[d := row],
                 macs := if row.mac.Some? then s.macs[row.mac.value := d] else s.macs,
                 drawn := s.drawn + {d.did}))
  }

  function SetRow(s: State, d: Device, row: Row): State {
    s.(inventory := s.inventory[d := row])
  }

  /** DELETE FROM devices WHERE did=$1 and the same for app_devices: in every tenant. */
  function Forget(s: State, did: string): State {
    if did == "" then s
    else s.(devices := map e | e in s.devices && e.did != did :: s.devices[e], owners := s.owners - {did})
  }

  function HandMade(mac: string, ble: Option<string>, pid: string): Row {
    Row(Some(mac), ble, pid, None, None, InInventory, None)
  }

  /** Row number i of a batch: with a MAC while the work list lasts, reserved afterwards. */
  function BatchRow(b: BatchRequest, macs: seq<string>, i: nat): Row {
    var mac := if i < |macs| then Some(macs[i]) else None;
    var ble := if i < |macs| then Some(Mac.PlusN(macs[i], 2)) else None;
    Row(mac, ble, b.product.pid, Some(b.product.version), None, InInventory, Some(b.id))
  }

  function BatchKey(b: BatchRequest, i: nat): Device
    requires i < |b.dids|
  {
    Device(b.product.tid, b.dids[i])
  }

  /** The first n rows of a batch, one INSERT each. */
  function InsertRows(s: State, b: BatchRequest, macs: seq<string>, n: nat): Option<State>
    requires n <= |b.dids|
  {
    if n == 0 then Some(s)
    else match InsertRows(s, b, macs, n - 1)
      case None => None
      case Some(t) => Insert(t, BatchKey(b, n - 1), BatchRow(b, macs, n - 1))
  }

  // ---------- the requests as functions ----------

  function StepAdd(s: State, raw: string, tid: string, pid: string, did: string): (State, Reply) {
    var mac := WorkList.Norm(raw);
    if !WorkList.IsValid(mac) then (s, InvalidMac(raw))
    else if pid == "" then (s, PidRequired)
    else
      var s1 := s.(tenants := s.tenants + {tid});
      match Insert(s1, Device(tid, did), HandMade(mac, None, pid))
      case None => (s1, Conflict)
      case Some(t) => (t, Added(did))
  }

  /** INSERT … ON CONFLICT (mac) DO UPDATE SET ble_mac, then the did is read back. */
  function StepSeed(s: State, raw: string, tid: string, pid: string, did: string): (State, Reply) {
    var mac := WorkList.Norm(raw);
    if !WorkList.IsValid(mac) then (s, InvalidMac(raw))
    else if pid == "" then (s, PidRequired)
    else
      var ble := Some(Mac.PlusN(mac, 2));
      if mac in s.macs && s.macs[mac] in s.inventory then
        var d := s.macs[mac];
        if BleTaken(s, ble, d) then (s, DbError)
        else (SetRow(s, d, s.inventory[d].(ble := ble)), Seeded(d.did))
      else if tid !in s.tenants then (s, DbError)
      else
        match Insert(s, Device(tid, did), HandMade(mac, ble, pid))
        case None => (s, DbError)
        case Some(t) => (t, Seeded(did))
  }

  function StepBatch(s: State, b: Seeding): (State, Reply) {
    if b.product.tid == "" || b.product.pid == "" || b.product.version <= 0 then (s, FieldsRequired)
    else if b.product !in s.released then (s, NoReleasedSchema)
    else if !s.released[b.product] then (s, CorruptSchema)
    else
      match WorkList.WorkOf(b.raws)
      case Err(raw) => (s, InvalidMac(raw))
      case Ok(macs) =>
        var qty := Quantity(b);
        if qty <= 0 then (s, NoQuantity)
        else
          var s1 := WithTenant(s, b);
          match InsertRows(OpenBatch(s1, b), b, macs, qty)
          case None => (s1, Conflict)
          case Some(t) => (t, Created(b.id, b.dids[..qty]))
  }

  /** The tenant row is written before the transaction and stays even when the batch fails. */
  function WithTenant(s: State, b: BatchRequest): State {
    s.(tenants := s.tenants + {b.product.tid})
  }

  function OpenBatch(s: State, b: BatchRequest): State {
    s.(batches := s.batches[b.id := Batch(b.product, Quantity(b))], drawn := s.drawn + {b.id})
  }

  function StepClaim(s: State, now: nat, raw: string): (State, Reply) {
    var mac := Text.Lower(WorkList.Strip(raw));
    if !WorkList.IsValid(mac) then (s, InvalidMac(raw))
    else if mac !in s.macs || s.macs[mac] !in s.inventory then (s, NotFound)
    else
      var d := s.macs[mac];
      var row := s.inventory[d];
      if row.provisionedAt.Some? || d.tid !in s.tenants then (s, AlreadyProvisioned)
      else (SetRow(s, d, row.(provisionedAt := Some(now), status := Provisioned))
              .(devices := s.devices[d := DeviceRow(row.pid, row.schema)]),
            Claimed(mac, d, row.pid, row.schema))
  }

  /** INSERT INTO devices … ON CONFLICT (tid, did) DO NOTHING. */
  function EnsureDevice(devices: map<Device, DeviceRow>, d: Device, pid: string): map<Device, DeviceRow> {
    if d in devices then devices else devices[d := DeviceRow(pid, None)]
  }

  function StepProvision(s: State, now: nat, raw: string): (State, Reply) {
    var mac := WorkList.Norm(raw);
    if mac !in s.macs || s.macs[mac] !in s.inventory || s.inventory[s.macs[mac]].provisionedAt.Some?
    then (s, NotFoundOrProvisioned)
    else
      var d := s.macs[mac];
      var row := s.inventory[d];
      (SetRow(s, d, row.(provisionedAt := Some(now))).(devices := EnsureDevice(s.devices, d, row.pid)),
       MarkedProvisioned(mac))
  }

  function StepReset(s: State, raw: string): (State, Reply) {
    var mac := WorkList.Norm(raw);
    if mac !in s.macs || s.macs[mac] !in s.inventory then (s, NotFound)
    else
      var d := s.macs[mac];
      (Forget(SetRow(s, d, s.inventory[d].(provisionedAt := None, status := InInventory)), d.did),
       ResetToInventory(mac))
  }

  function StepDelete(s: State, raw: string): (State, Reply) {
    var mac := WorkList.Norm(raw);
    if mac !in s.macs || s.macs[mac] !in s.inventory then (s, NotFound)
    else if s.inventory[s.macs[mac]].provisionedAt.Some? then (s, CannotDeleteProvisioned)
    else (s.(inventory := s.inventory - {s.macs[mac]}, macs := s.macs - {mac}), Deleted(mac))
  }

  function Step(s: State, now: nat, q: Request): (State, Reply) {
    match q
    case AddTenant(tid) => (s.(tenants := s.tenants + {tid}), Done)
    case Release(product, parses) => (s.(released := s.released[product := parses]), Done)
    case AddDevice(raw, tid, pid, did) => StepAdd(s, raw, tid, pid, did)
    case Seed(raw, tid, pid, did) => StepSeed(s, raw, tid, pid, did)
    case CreateBatch(b) => StepBatch(s, b)
    case Claim(raw) => StepClaim(s, now, raw)
    case AdminProvision(raw) => StepProvision(s, now, raw)
    case AdminReset(raw) => StepReset(s, raw)
    case AdminDelete(raw) => StepDelete(s, raw)
    case DeviceSeen(d, pid) =>
      if d.tid !in s.tenants then (s, DbError)
      else (s.(devices := EnsureDevice(s.devices, d, pid), drawn := s.drawn + {d.did}), Done)
    case Own(did, user) => (s.(owners := s.owners[did := user], drawn := s.drawn + {did}), Done)
    case Disown(did) => (s.(owners := s.owners - {did}), Done)
  }

  /** uuid.New never draws an id twice, nor one already in use. */
  predicate FreshIds(s: State, q: Request) {
    match q
    case AddDevice(_, _, _, did) => did != "" && did !in s.drawn
    case Seed(_, _, _, did) => did != "" && did !in s.drawn
    case CreateBatch(b) => FreshBatch(s, b)
    case _ => true
  }

  predicate FreshBatch(s: State, b: BatchRequest) {
    && b.id !in s.drawn && b.id !in b.dids && WorkList.Distinct(b.dids)
    && forall did | did in b.dids :: did != "" && did !in s.drawn
  }

  // ---------- invariant ----------

  /** The unique index on mac is exact. */
  ghost predicate MacsOk(s: State) {
    && (forall m | m in s.macs :: s.macs[m] in s.inventory && s.inventory[s.macs[m]].mac == Some(m))
    && (forall d | d in s.inventory && s.inventory[d].mac.Some? ::
          s.inventory[d].mac.value in s.macs && s.macs[s.inventory[d].mac.value] == d)
  }

  /** BLE MACs are unique, and each is its row's MAC plus two. */
  ghost predicate BlesOk(s: State) {
    && (forall d, e | d in s.inventory && e in s.inventory && s.inventory[d].ble.Some?
          && s.inventory[d].ble == s.inventory[e].ble :: d == e)
    && (forall d | d in s.inventory :: RowMacOk(s.inventory[d]))
  }

  predicate RowMacOk(row: Row) {
    && (row.mac.Some? ==> WorkList.IsValid(row.mac.value))
    && (row.ble.Some? ==> row.mac.Some? && row.ble.value == Mac.PlusN(row.mac.value, 2))
  }

  /** A device id names one inventory row, in one tenant. */
  ghost predicate IdsOk(s: State) {
    && (forall d, e | d in s.inventory && e in s.inventory && d.did == e.did :: d == e)
    && (forall d | d in s.inventory :: d.did in s.drawn && d.did != "" && d.tid in s.tenants)
  }

  /** A provisioned row has its devices row, and status 'provisioned' means a claim bound that row. */
  ghost predicate LifecycleOk(s: State) {
    forall d | d in s.inventory :: RowLifecycle(s.inventory[d], s.devices, d)
  }

  predicate RowLifecycle(row: Row, devices: map<Device, DeviceRow>, d: Device) {
    && (row.provisionedAt.Some? ==> d in devices)
    && (row.status == Provisioned ==> row.provisionedAt.Some? && d in devices && devices[d] == DeviceRow(row.pid, row.schema))
  }

  function RowsOf(s: State, id: string): set<Device> {
    set d | d in s.inventory && s.inventory[d].batch == Some(id)
  }

  /** Rows of a batch are bound to its released product. */
  ghost predicate BoundOk(s: State) {
    && (forall d | d in s.inventory && s.inventory[d].batch.Some? ::
          s.inventory[d].batch.value in s.batches && Bound(s.inventory[d], d, s.batches[s.inventory[d].batch.value].product))
    && (forall id | id in s.batches :: id in s.drawn && s.batches[id].product in s.released)
  }

  predicate Bound(row: Row, d: Device, p: Product) {
    d.tid == p.tid && row.pid == p.pid && row.schema == Some(p.version)
  }

  /** No batch has more rows than its quantity. */
  ghost predicate CountsOk(s: State) {
    forall id | id in s.batches :: |RowsOf(s, id)| <= s.batches[id].qty
  }

  ghost predicate RowsOk(s: State) {
    MacsOk(s) && BlesOk(s) && IdsOk(s) && LifecycleOk(s) && BoundOk(s)
  }

  ghost predicate Inv(s: State) {
    RowsOk(s) && CountsOk(s)
  }

  /** A row as the INSERT statements write it. */
  predicate NewRowOk(s: State, d: Device, row: Row) {
    && RowMacOk(row) && row.provisionedAt.None? && row.status == InInventory
    && d.did != "" && d.did !in s.drawn && d.tid in s.tenants
    && (row.batch.Some? ==> row.batch.value in s.batches && Bound(row, d, s.batches[row.batch.value].product))
  }

  lemma {:induction false} PutKeepsMacs(s: State, t: State, d: Device, row: Row)
    requires MacsOk(s) && t.inventory == s.inventory[d := row]
    requires t.macs == if row.mac.Some? then s.macs[row.mac.value := d] else s.macs
    requires if d in s.inventory then s.inventory[d].mac == row.mac else row.mac.Some? ==> row.mac.value !in s.macs
    ensures MacsOk(t)
  {
  }

  lemma {:induction false} PutKeepsBles(s: State, t: State, d: Device, row: Row)
    requires BlesOk(s) && t.inventory == s.inventory[d := row] && RowMacOk(row) && !BleTaken(s, row.ble, d)
    ensures BlesOk(t)
  {
    forall e | e in t.inventory ensures RowMacOk(t.inventory[e]) {}
    assert forall e | e in s.inventory && e != d :: row.ble.Some? ==> s.inventory[e].ble != row.ble;
  }

  lemma {:induction false} InsertKeepsRows(s: State, d: Device, row: Row)
    requires RowsOk(s) && NewRowOk(s, d, row) && Insert(s, d, row).Some?
    ensures RowsOk(Insert(s, d, row).value)
  {
    var t := Insert(s, d, row).value;
    PutKeepsMacs(s, t, d, row);
    PutKeepsBles(s, t, d, row);
    InsertKeepsRest(s, d, row);
  }

  lemma {:induction false} InsertKeepsRest(s: State, d: Device, row: Row)
    requires IdsOk(s) && LifecycleOk(s) && BoundOk(s) && NewRowOk(s, d, row) && Insert(s, d, row).Some?
    ensures var t := Insert(s, d, row).value; IdsOk(t) && LifecycleOk(t) && BoundOk(t)
  {
    InsertKeepsIds(s, d, row);
    InsertKeepsBound(s, d, row);
  }

  lemma {:induction false} InsertKeepsIds(s: State, d: Device, row: Row)
    requires IdsOk(s) && NewRowOk(s, d, row) && Insert(s, d, row).Some?
    ensures IdsOk(Insert(s, d, row).value)
  {
  }

  lemma {:induction false} InsertKeepsBound(s: State, d: Device, row: Row)
    requires BoundOk(s) && NewRowOk(s, d, row) && Insert(s, d, row).Some?
    ensures BoundOk(Insert(s, d, row).value)
  {
  }

  lemma {:induction false} InsertCounts(s: State, d: Device, row: Row, id: string)
    requires Insert(s, d, row).Some?
    ensures d !in RowsOf(s, id)
    ensures RowsOf(Insert(s, d, row).value, id) == RowsOf(s, id) + if row.batch == Some(id) then {d} else {}
  {
  }

  lemma {:induction false} InsertKeepsCounts(s: State, d: Device, row: Row)
    requires CountsOk(s) && row.batch.None? && Insert(s, d, row).Some?
    ensures CountsOk(Insert(s, d, row).value)
  {
    forall id | id in s.batches ensures RowsOf(Insert(s, d, row).value, id) == RowsOf(s, id) {
      InsertCounts(s, d, row, id);
    }
  }

  /** An update that moves no row between batches, MACs or devices of other rows. */
  lemma {:induction false} SetRowKeepsInv(s: State, d: Device, row: Row)
    requires Inv(s) && d in s.inventory && row.mac == s.inventory[d].mac && row.pid == s.inventory[d].pid
    requires row.schema == s.inventory[d].schema && row.batch == s.inventory[d].batch
    requires RowMacOk(row) && !BleTaken(s, row.ble, d) && RowLifecycle(row, s.devices, d)
    ensures Inv(SetRow(s, d, row))
  {
    var t := SetRow(s, d, row);
    assert row.mac.Some? ==> s.macs == s.macs[row.mac.value := d];
    PutKeepsMacs(s, t, d, row);
    PutKeepsBles(s, t, d, row);
    SetRowKeepsRest(s, d, row);
  }

  lemma {:induction false} SetRowKeepsRest(s: State, d: Device, row: Row)
    requires IdsOk(s) && LifecycleOk(s) && BoundOk(s) && CountsOk(s) && d in s.inventory
    requires row.pid == s.inventory[d].pid && row.schema == s.inventory[d].schema && row.batch == s.inventory[d].batch
    requires RowLifecycle(row, s.devices, d)
    ensures var t := SetRow(s, d, row); IdsOk(t) && LifecycleOk(t) && BoundOk(t) && CountsOk(t)
  {
    SetRowKeepsBound(s, d, row);
    SetRowKeepsCounts(s, d, row);
  }

  lemma {:induction false} SetRowKeepsBound(s: State, d: Device, row: Row)
    requires BoundOk(s) && d in s.inventory
    requires row.pid == s.inventory[d].pid && row.schema == s.inventory[d].schema && row.batch == s.inventory[d].batch
    ensures BoundOk(SetRow(s, d, row))
  {
  }

  lemma {:induction false} SetRowKeepsCounts(s: State, d: Device, row: Row)
    requires CountsOk(s) && d in s.inventory && row.batch == s.inventory[d].batch
    ensures CountsOk(SetRow(s, d, row))
  {
    forall id | id in s.batches ensures RowsOf(SetRow(s, d, row), id) == RowsOf(s, id) {}
  }

  // ---------- batches ----------

  /** The batch row is in place and the ids of its rows are still unused. */
  ghost predicate Opened(s: State, b: BatchRequest) {
    && RowsOk(s) && b.id in s.batches && s.batches[b.id].product == b.product && b.product.tid in s.tenants
    && WorkList.Distinct(b.dids) && (forall did | did in b.dids :: did != "" && did !in s.drawn)
    && RowsOf(s, b.id) == {}
  }

  ghost predicate WorkOk(macs: seq<string>) {
    WorkList.Distinct(macs) && WorkList.AllValid(macs)
  }

  /** Neither m nor its BLE address is in the inventory. */
  predicate Free(s: State, m: string) {
    m !in s.macs && forall e | e in s.inventory :: s.inventory[e].ble != Some(Mac.PlusN(m, 2))
  }

  /** t is s with the first n rows of the batch and nothing else. */
  ghost predicate Filled(s: State, t: State, b: BatchRequest, macs: seq<string>, n: nat)
    requires n <= |b.dids|
  {
    && t == s.(inventory := t.inventory, macs := t.macs, drawn := s.drawn + set did | did in b.dids[..n])
    && (forall d :: d in t.inventory <==> d in s.inventory || exists i | 0 <= i < n :: d == BatchKey(b, i))
    && (forall d | d in s.inventory :: t.inventory[d] == s.inventory[d])
    && (forall i | 0 <= i < n :: t.inventory[BatchKey(b, i)] == BatchRow(b, macs, i))
  }

  lemma {:induction false} BatchRowOk(s: State, b: BatchRequest, macs: seq<string>, i: nat)
    requires Opened(s, b) && WorkOk(macs) && i < |b.dids|
    ensures RowMacOk(BatchRow(b, macs, i)) && Bound(BatchRow(b, macs, i), BatchKey(b, i), b.product)
    ensures b.dids[i] != "" && b.dids[i] !in s.drawn
  {
    assert b.dids[i] in b.dids;
    if i < |macs| { assert macs[i] in macs; }
  }

  /** A row that takes neither m nor its BLE address. */
  predicate Clear(row: Row, m: string) {
    row.mac != Some(m) && row.ble != Some(Mac.PlusN(m, 2))
  }

  lemma {:induction false} FreeIsClear(s: State, m: string)
    requires MacsOk(s)
    ensures Free(s, m) <==> forall d | d in s.inventory :: Clear(s.inventory[d], m)
  {
    if m in s.macs { assert !Clear(s.inventory[s.macs[m]], m); }
  }

  lemma {:induction false} BatchRowClear(b: BatchRequest, macs: seq<string>, i: nat, n: nat)
    requires WorkOk(macs) && i < n < |macs|
    ensures Clear(BatchRow(b, macs, i), macs[n])
  {
    assert macs[i] in macs && macs[n] in macs;
    WorkList.NormKeepsValid(macs[i]);
    WorkList.NormKeepsValid(macs[n]);
    if Mac.PlusN(macs[i], 2) == Mac.PlusN(macs[n], 2) { Mac.PlusNInjective(macs[i], macs[n], 2); }
  }

  lemma {:induction false} FreeAfterRows(s: State, t: State, b: BatchRequest, macs: seq<string>, n: nat)
    requires MacsOk(s) && MacsOk(t) && WorkOk(macs) && n < |b.dids| && n < |macs| && Filled(s, t, b, macs, n)
    ensures Free(t, macs[n]) <==> Free(s, macs[n])
  {
    var m := macs[n];
    FreeIsClear(s, m);
    FreeIsClear(t, m);
    forall i | 0 <= i < n ensures Clear(t.inventory[BatchKey(b, i)], m) { BatchRowClear(b, macs, i, n); }
  }

  /** A row inserts exactly when its MAC is free. */
  lemma {:induction false} InsertExactly(s: State, d: Device, row: Row)
    requires IdsOk(s) && d.did !in s.drawn
    requires row.mac.Some? ==> row.ble == Some(Mac.PlusN(row.mac.value, 2))
    requires row.mac.None? ==> row.ble.None?
    ensures Insert(s, d, row).Some? <==> row.mac.Some? ==> Free(s, row.mac.value)
  {
  }

  /** The MACs of the first n rows are all free. */
  predicate AllFree(s: State, macs: seq<string>, n: nat) {
    n == 0 || (AllFree(s, macs, n - 1) && (n - 1 < |macs| ==> Free(s, macs[n - 1])))
  }

  lemma {:induction false} AllFreeMeans(s: State, macs: seq<string>, n: nat)
    ensures AllFree(s, macs, n) <==> forall i | 0 <= i < n && i < |macs| :: Free(s, macs[i])
  {
    if n > 0 { AllFreeMeans(s, macs, n - 1); }
  }

  ghost predicate Inserted(s: State, r: Option<State>, b: BatchRequest, macs: seq<string>, n: nat)
    requires n <= |b.dids|
  {
    && (r.Some? <==> AllFree(s, macs, n))
    && (r.Some? ==> RowsOk(r.value) && Filled(s, r.value, b, macs, n))
  }

  lemma {:induction false} InsertRowsExactly(s: State, b: BatchRequest, macs: seq<string>, n: nat)
    requires Opened(s, b) && WorkOk(macs) && n <= |b.dids|
    ensures Inserted(s, InsertRows(s, b, macs, n), b, macs, n)
  {
    hide Inserted, Insert, BatchRow;
    if n == 0 {
      NoRows(s, b, macs);
    } else {
      InsertRowsExactly(s, b, macs, n - 1);
      NextRow(s, InsertRows(s, b, macs, n - 1), b, macs, n - 1);
    }
  }

  lemma {:induction false} NoRows(s: State, b: BatchRequest, macs: seq<string>)
    requires RowsOk(s)
    ensures Inserted(s, Some(s), b, macs, 0)
  {
    assert (set did | did in b.dids[..0]) == {};
  }

  lemma {:induction false} NextRow(s: State, r: Option<State>, b: BatchRequest, macs: seq<string>, n: nat)
    requires Opened(s, b) && WorkOk(macs) && n < |b.dids| && Inserted(s, r, b, macs, n)
    ensures Inserted(s, if r.None? then None else Insert(r.value, BatchKey(b, n), BatchRow(b, macs, n)), b, macs, n + 1)
  {
    if r.Some? {
      var t, d, row := r.value, BatchKey(b, n), BatchRow(b, macs, n);
      assert d.did in b.dids && d.did !in t.drawn;
      BatchRowOk(s, b, macs, n);
      if n < |macs| { FreeAfterRows(s, t, b, macs, n); }
      InsertExactly(t, d, row);
      if Insert(t, d, row).Some? {
        InsertKeepsRows(t, d, row);
        NextFilled(s, t, b, macs, n);
      }
    }
  }

  lemma {:induction false} NextFilled(s: State, t: State, b: BatchRequest, macs: seq<string>, n: nat)
    requires n < |b.dids| && Filled(s, t, b, macs, n) && BatchKey(b, n) !in t.inventory
    requires Insert(t, BatchKey(b, n), BatchRow(b, macs, n)).Some?
    ensures Filled(s, Insert(t, BatchKey(b, n), BatchRow(b, macs, n)).value, b, macs, n + 1)
  {
    assert b.dids[..n + 1] == b.dids[..n] + [b.dids[n]];
  }

  function Keys(b: BatchRequest, n: nat): set<Device>
    requires n <= |b.dids|
  {
    if n == 0 then {} else Keys(b, n - 1) + {BatchKey(b, n - 1)}
  }

  lemma {:induction false} KeysAre(b: BatchRequest, n: nat)
    requires n <= |b.dids|
    ensures forall d :: d in Keys(b, n) <==> exists i | 0 <= i < n :: d == BatchKey(b, i)
  {
    if n > 0 { KeysAre(b, n - 1); }
  }

  lemma {:induction false} KeysCount(b: BatchRequest, n: nat)
    requires WorkList.Distinct(b.dids) && n <= |b.dids|
    ensures |Keys(b, n)| == n
  {
    if n > 0 {
      KeysCount(b, n - 1);
      KeysAre(b, n - 1);
      assert BatchKey(b, n - 1) !in Keys(b, n - 1);
    }
  }

  /** A table of old rows without batch `id` plus new rows all in it. */
  lemma {:induction false} RowsOfUnion(s: State, t: State, fresher: set<Device>, id: string)
    requires forall d :: d in t.inventory <==> d in s.inventory || d in fresher
    requires forall d | d in s.inventory :: t.inventory[d] == s.inventory[d] && d !in fresher
    requires forall d | d in fresher :: t.inventory[d].batch == Some(id)
    requires RowsOf(s, id) == {}
    ensures RowsOf(t, id) == fresher
    ensures forall other | other != id :: RowsOf(t, other) == RowsOf(s, other)
  {
    forall d | d in s.inventory ensures s.inventory[d].batch != Some(id) { assert d !in RowsOf(s, id); }
  }

  /** The batch has exactly n rows now, and no other batch gained or lost one. */
  lemma {:induction false} FilledCounts(s: State, t: State, b: BatchRequest, macs: seq<string>, n: nat)
    requires n <= |b.dids| && WorkList.Distinct(b.dids) && Filled(s, t, b, macs, n) && RowsOf(s, b.id) == {}
    requires forall i | 0 <= i < n :: BatchKey(b, i) !in s.inventory
    ensures |RowsOf(t, b.id)| == n
    ensures forall id | id != b.id :: RowsOf(t, id) == RowsOf(s, id)
  {
    KeysCount(b, n);
    KeysAre(b, n);
    RowsOfUnion(s, t, Keys(b, n), b.id);
  }

  /** What the caller of CreateBatch could check first. */
  ghost predicate Acceptable(s: State, b: BatchRequest) {
    && b.product.tid != "" && b.product.pid != "" && b.product.version > 0
    && b.product in s.released && s.released[b.product]
    && WorkList.AllValid(WorkList.Norms(b.raws)) && (b.raws == [] ==> b.qty > 0)
    && (forall m | m in WorkList.Norms(b.raws) :: Free(s, m))
  }

  /** t is s with one batch of exactly as many rows as MACs, or as asked for when no MAC is given. */
  ghost predicate SeededExactly(s: State, t: State, b: Seeding, macs: seq<string>) {
    var qty := if |macs| == 0 then b.qty else |macs|;
    && 0 < qty <= |b.dids|
    && WorkList.IsWorkList(WorkList.Norms(b.raws), macs)
    && t.batches == s.batches[b.id := Batch(b.product, qty)]
    && t.devices == s.devices && t.released == s.released && t.owners == s.owners
    && (forall d :: d in t.inventory <==> d in s.inventory || exists i | 0 <= i < qty :: d == BatchKey(b, i))
    && (forall d | d in s.inventory :: t.inventory[d] == s.inventory[d])
    && (forall i | 0 <= i < qty :: t.inventory[BatchKey(b, i)] == BatchRow(b, macs, i))
    && |RowsOf(t, b.id)| == qty
  }

  lemma {:induction false} OpenBatchOpens(s: State, b: Seeding)
    requires RowsOk(s) && FreshBatch(s, b) && b.product in s.released
    ensures Opened(OpenBatch(WithTenant(s, b), b), b)
  {
    var t := OpenBatch(WithTenant(s, b), b);
    assert MacsOk(t) && BlesOk(t) && IdsOk(t) && LifecycleOk(t);
    forall d | d in s.inventory ensures s.inventory[d].batch != Some(b.id) {}
    assert BoundOk(t);
    assert RowsOf(t, b.id) == {};
  }

  lemma {:induction false} WorkOfRaws(b: BatchRequest)
    requires WorkList.WorkOf(b.raws).Ok?
    ensures var macs := WorkList.WorkOf(b.raws).value;
      && WorkOk(macs) && WorkList.IsWorkList(WorkList.Norms(b.raws), macs)
      && Quantity(b) == (if |macs| == 0 then b.qty else |macs|) && (|macs| == 0 <==> b.raws == [])
  {
    WorkList.WorkOfExactly(b.raws);
    var macs, ms := WorkList.WorkOf(b.raws).value, WorkList.Norms(b.raws);
    if b.raws != [] { assert ms[0] in ms; }
    if |macs| > 0 { assert macs[0] in macs; }
  }

  lemma {:induction false} FreeWork(s: State, macs: seq<string>, ms: seq<string>, n: nat)
    requires (forall m :: m in macs <==> m in ms) && n >= |macs|
    ensures AllFree(s, macs, n) <==> forall m | m in ms :: Free(s, m)
  {
    AllFreeMeans(s, macs, n);
    if AllFree(s, macs, n) {
      forall m | m in ms ensures Free(s, m) { assert m in macs; }
    }
  }

  lemma {:induction false} BatchInserts(s: State, b: Seeding, macs: seq<string>, n: nat)
    requires Inv(s) && FreshBatch(s, b) && b.product in s.released && 0 < n == Quantity(b)
    requires WorkList.WorkOf(b.raws) == Ok(macs)
    ensures var r := InsertRows(OpenBatch(WithTenant(s, b), b), b, macs, n);
      && (r.Some? <==> forall m | m in WorkList.Norms(b.raws) :: Free(s, m))
      && (r.Some? ==> SeededExactly(s, r.value, b, macs) && Inv(r.value))
  {
    var s2 := OpenBatch(WithTenant(s, b), b);
    WorkOfRaws(b);
    OpenBatchOpens(s, b);
    InsertRowsExactly(s2, b, macs, n);
    FreeWork(s, macs, WorkList.Norms(b.raws), n);
    SameFree(s, s2, macs, n);
    if InsertRows(s2, b, macs, n).Some? {
      var t := InsertRows(s2, b, macs, n).value;
      forall i | 0 <= i < n ensures BatchKey(b, i) !in s.inventory { assert b.dids[i] in b.dids; }
      FilledCounts(s2, t, b, macs, n);
      BatchCounts(s, s2, t, b.id, Batch(b.product, n));
    }
  }

  /** The checks before the first INSERT. */
  predicate Checked(s: State, b: BatchRequest) {
    && b.product.tid != "" && b.product.pid != "" && b.product.version > 0
    && b.product in s.released && s.released[b.product]
    && WorkList.WorkOf(b.raws).Ok? && Quantity(b) > 0
  }

  lemma {:induction false} CheckedStep(s: State, b: Seeding)
    ensures !Checked(s, b) ==> StepBatch(s, b).0 == s && !StepBatch(s, b).1.Created?
    ensures Checked(s, b) ==> (var r := InsertRows(OpenBatch(WithTenant(s, b), b), b, WorkList.WorkOf(b.raws).value, Quantity(b));
      StepBatch(s, b) == if r.None? then (WithTenant(s, b), Conflict) else (r.value, Created(b.id, b.dids[..Quantity(b)])))
  {
  }

  lemma {:induction false} AcceptableIsChecked(s: State, b: Seeding)
    ensures Acceptable(s, b) <==> Checked(s, b) && forall m | m in WorkList.Norms(b.raws) :: Free(s, m)
  {
    WorkList.WorkOfExactly(b.raws);
    if WorkList.WorkOf(b.raws).Ok? { WorkOfRaws(b); }
  }

  /** CreateBatch is all-or-nothing: it seeds exactly its work list when every MAC is free, else no row changes. */
  lemma {:induction false} BatchExactly(s: State, b: Seeding)
    requires Inv(s) && FreshBatch(s, b)
    ensures StepBatch(s, b).1.Created? <==> Acceptable(s, b)
    ensures Acceptable(s, b) ==>
      exists macs :: SeededExactly(s, StepBatch(s, b).0, b, macs)
    ensures !Acceptable(s, b) ==>
      StepBatch(s, b).0 == s.(tenants := StepBatch(s, b).0.tenants)
    ensures Inv(StepBatch(s, b).0)
  {
    AcceptableIsChecked(s, b);
    CheckedStep(s, b);
    if Checked(s, b) {
      BatchInserts(s, b, WorkList.WorkOf(b.raws).value, Quantity(b));
      TenantKeepsInv(s, b.product.tid);
    }
  }

  lemma {:induction false} SameFree(s: State, t: State, macs: seq<string>, n: nat)
    requires s.inventory == t.inventory && s.macs == t.macs
    ensures AllFree(s, macs, n) == AllFree(t, macs, n)
  {
    AllFreeMeans(s, macs, n);
    AllFreeMeans(t, macs, n);
  }

  lemma {:induction false} TenantKeepsInv(s: State, tid: string)
    requires Inv(s)
    ensures Inv(s.(tenants := s.tenants + {tid}))
  {
    var t := s.(tenants := s.tenants + {tid});
    forall id | id in s.batches ensures RowsOf(t, id) == RowsOf(s, id) {}
    assert MacsOk(t) && BlesOk(t) && IdsOk(t) && LifecycleOk(t) && BoundOk(t);
  }

  lemma {:induction false} BatchCounts(s: State, s2: State, t: State, id: string, batch: Batch)
    requires CountsOk(s) && s2.inventory == s.inventory && t.batches == s.batches[id := batch] && id !in s.batches
    requires |RowsOf(t, id)| == batch.qty && forall other | other != id :: RowsOf(t, other) == RowsOf(s2, other)
    ensures CountsOk(t)
  {
    forall other | other in s.batches ensures RowsOf(t, other) == RowsOf(s, other) {
      assert RowsOf(s2, other) == RowsOf(s, other);
    }
  }
}
