// The handlers that write device_inventory, devices and batches, over mutable tables.
module InventoryServer {
  import opened Common
  import opened Inventory
  import Mac
  import Text
  import WorkList

  /** A row that fails to insert fails the whole batch. */
  lemma {:induction false} FailsLater(s: State, b: BatchRequest, macs: seq<string>, n: nat, m: nat)
    requires n <= m <= |b.dids| && InsertRows(s, b, macs, n).None?
    ensures InsertRows(s, b, macs, m).None?
    decreases m - n
  {
    if n < m {
      NextFails(s, b, macs, n);
      FailsLater(s, b, macs, n + 1, m);
    }
  }

  lemma NextFails(s: State, b: BatchRequest, macs: seq<string>, n: nat)
    requires n < |b.dids| && InsertRows(s, b, macs, n).None?
    ensures InsertRows(s, b, macs, n + 1).None?
  {
  }

  class Server {
    var tenants: set<string>
    var released: map<Product, bool>
    var inventory: map<Device, Row>
    var macs: map<string, Device>
    var devices: map<Device, DeviceRow>
    var owners: map<string, string>
    var batches: map<string, Batch>
    var drawn: set<string>

    ghost function View(): State
      reads this
    {
      State(tenants, released, inventory, macs, devices, owners, batches, drawn)
    }

    constructor ()
      ensures View() == Empty
    {
      tenants, released, inventory, macs := {}, map[], map[], map[];
      devices, owners, batches, drawn := map[], map[], map[], {};
    }

    /** INSERT INTO device_inventory under its unique constraints. */
    method InsertRow(d: Device, row: Row) returns (ok: bool)
      modifies `inventory, `macs, `drawn
      ensures ok <==> Insert(old(View()), d, row).Some?
      ensures View() == if ok then Insert(old(View()), d, row).value else old(View())
    {
      if d in inventory { return false; }
      if row.mac.Some? && row.mac.value in macs { return false; }
      if row.ble.Some? && exists e | e in inventory :: e != d && inventory[e].ble == row.ble { return false; }
      inventory := inventory[d := row];
      if row.mac.Some? { macs := macs[row.mac.value := d]; }
      drawn := drawn + {d.did};
      return true;
    }

    /** CREATE one device by MAC; each data row of a CSV import does the same. */
    method AddDevice(raw: string, tid: string, pid: string, did: string) returns (r: Reply)
      modifies this
      ensures (View(), r) == StepAdd(old(View()), raw, tid, pid, did)
    {
      var mac := WorkList.Norm(raw);
      if !WorkList.IsValid(mac) { return InvalidMac(raw); }
      if pid == "" { return PidRequired; }
      tenants := tenants + {tid};
      var ok := InsertRow(Device(tid, did), HandMade(mac, None, pid));
      return if ok then Added(did) else Conflict;
    }

    method Seed(raw: string, tid: string, pid: string, did: string) returns (r: Reply)
      modifies this
      ensures (View(), r) == StepSeed(old(View()), raw, tid, pid, did)
    {
      var mac := WorkList.Norm(raw);
      if !WorkList.IsValid(mac) { return InvalidMac(raw); }
      if pid == "" { return PidRequired; }
      var ble := Some(Mac.PlusN(mac, 2));
      if mac in macs && macs[mac] in inventory {
        var d := macs[mac];
        if exists e | e in inventory :: e != d && inventory[e].ble == ble { return DbError; }
        inventory := inventory[d := inventory[d].(ble := ble)];
        return Seeded(d.did);
      }
      if tid !in tenants { return DbError; }
      var ok := InsertRow(Device(tid, did), HandMade(mac, ble, pid));
      return if ok then Seeded(did) else DbError;
    }

    /** The i-th device row of an open batch: its radio address is two above its MAC. */
    method InsertBatchRow(b: BatchRequest, list: seq<string>, i: nat) returns (ok: bool)
      requires i < |b.dids|
      modifies `inventory, `macs, `drawn
      ensures ok <==> Insert(old(View()), BatchKey(b, i), BatchRow(b, list, i)).Some?
      ensures ok ==> View() == Insert(old(View()), BatchKey(b, i), BatchRow(b, list, i)).value
    {
      var mac, ble: Option<string> := None, None;
      if i < |list| {
        mac := Some(list[i]);
        var sum := Mac.PlusNInPlace(list[i], 2);
        ble := Some(sum);
      }
      ok := InsertRow(BatchKey(b, i), Row(mac, ble, b.product.pid, Some(b.product.version), None, InInventory, Some(b.id)));
    }

    /** The device rows of an open batch, one INSERT each, up to the first violation. */
    method SeedRows(b: BatchRequest, list: seq<string>, qty: nat) returns (ok: bool)
      requires qty <= |b.dids|
      modifies `inventory, `macs, `drawn
      ensures ok <==> InsertRows(old(View()), b, list, qty).Some?
      ensures ok ==> View() == InsertRows(old(View()), b, list, qty).value
    {
      hide Insert, BatchRow, BatchKey;
      ghost var begun := View();
      var idx := 0;
      while idx < qty
        invariant 0 <= idx <= qty
        invariant InsertRows(begun, b, list, idx) == Some(View())
      {
        ok := InsertBatchRow(b, list, idx);
        if !ok {
          FailsLater(begun, b, list, idx + 1, qty);
          return false;
        }
        idx := idx + 1;
      }
      return true;
    }

    /** One transaction: the batch row, then qty device rows, rolled back on the first violation. */
    method CreateBatch(b: Seeding) returns (r: Reply)
      modifies this
      ensures (View(), r) == StepBatch(old(View()), b)
    {
      if b.product.tid == "" || b.product.pid == "" || b.product.version <= 0 { return FieldsRequired; }
      if b.product !in released { return NoReleasedSchema; }
      if !released[b.product] { return CorruptSchema; }
      var work := WorkList.Build(b.raws);
      if work.Err? { return InvalidMac(work.error); }
      var qty: int := |work.value|;
      if qty == 0 { qty := b.qty; }
      if qty <= 0 { return NoQuantity; }
      tenants := tenants + {b.product.tid};
      var inventory0, macs0, batches0, drawn0 := inventory, macs, batches, drawn;
      batches := batches[b.id := Batch(b.product, qty)];
      drawn := drawn + {b.id};
      assert View() == OpenBatch(WithTenant(old(View()), b), b);
      var ok := SeedRows(b, work.value, qty);
      if !ok {
        inventory, macs, batches, drawn := inventory0, macs0, batches0, drawn0;
        return Conflict;
      }
      return Created(b.id, b.dids[..qty]);
    }

    method ClaimDevice(now: nat, raw: string) returns (r: Reply)
      modifies `inventory, `devices
      ensures (View(), r) == StepClaim(old(View()), now, raw)
    {
      var mac := Text.Lower(WorkList.Strip(raw));
      if !WorkList.IsValid(mac) { return InvalidMac(raw); }
      if mac !in macs || macs[mac] !in inventory { return NotFound; }
      var d := macs[mac];
      var row := inventory[d];
      if row.provisionedAt.Some? || d.tid !in tenants { return AlreadyProvisioned; }
      inventory := inventory[d := row.(provisionedAt := Some(now), status := Provisioned)];
      devices := devices[d := DeviceRow(row.pid, row.schema)];
      return Claimed(mac, d, row.pid, row.schema);
    }

    method UpdateDeviceStatus(now: nat, raw: string, provisioned: bool) returns (r: Reply)
      modifies `inventory, `devices, `owners
      ensures (View(), r) == if provisioned then StepProvision(old(View()), now, raw) else StepReset(old(View()), raw)
    {
      var mac := WorkList.Norm(raw);
      if provisioned {
        if mac !in macs || macs[mac] !in inventory { return NotFoundOrProvisioned; }
        var d := macs[mac];
        if inventory[d].provisionedAt.Some? { return NotFoundOrProvisioned; }
        inventory := inventory[d := inventory[d].(provisionedAt := Some(now))];
        if d !in devices { devices := devices[d := DeviceRow(inventory[d].pid, None)]; }
        return MarkedProvisioned(mac);
      } else {
        if mac !in macs || macs[mac] !in inventory { return NotFound; }
        var d := macs[mac];
        inventory := inventory[d := inventory[d].(provisionedAt := None, status := InInventory)];
        if d.did != "" {
          devices := map e | e in devices && e.did != d.did :: devices[e];
          owners := owners - {d.did};
        }
        return ResetToInventory(mac);
      }
    }

    method DeleteDevice(raw: string) returns (r: Reply)
      modifies `inventory, `macs
      ensures (View(), r) == StepDelete(old(View()), raw)
    {
      var mac := WorkList.Norm(raw);
      if mac in macs && macs[mac] in inventory && inventory[macs[mac]].provisionedAt.Some? { return CannotDeleteProvisioned; }
      if mac !in macs || macs[mac] !in inventory { return NotFound; }
      inventory := inventory - {macs[mac]};
      macs := macs - {mac};
      return Deleted(mac);
    }
  }
}
