// What every run of inventory requests keeps: factory claims, admin provisions, resets, deletes and
// seeding in any order (internal/ztp/inventory.go, admin/main.go, internal/api/handlers/admin.go).
module Lifecycle {
  import opened Common
  import opened Inventory
  import Hex
  import Mac
  import Text
  import WorkList

  // ---------- every request keeps the invariant ----------

  lemma {:induction false} DevicesKeepInv(s: State, devices: map<Device, DeviceRow>)
    requires Inv(s) && LifecycleOk(s.(devices := devices))
    ensures Inv(s.(devices := devices))
  {
    SameRowsSameInv(s, s.(devices := devices));
  }

  /** Inv speaks of owners not at all and of tenants, released products and drawn ids only upwards. */
  lemma {:induction false} SameRowsSameInv(s: State, t: State)
    requires Inv(s) && t.inventory == s.inventory && t.macs == s.macs && t.batches == s.batches && LifecycleOk(t)
    requires s.tenants <= t.tenants && s.released.Keys <= t.released.Keys && s.drawn <= t.drawn
    ensures Inv(t)
  {
    assert MacsOk(t) && BlesOk(t) && IdsOk(t);
    assert BoundOk(t);
    forall id | id in s.batches ensures RowsOf(t, id) == RowsOf(s, id) {}
  }

  lemma {:induction false} NotTaken(s: State, d: Device)
    requires BlesOk(s) && d in s.inventory
    ensures !BleTaken(s, s.inventory[d].ble, d) && RowMacOk(s.inventory[d])
  {
  }

  lemma {:induction false} ClaimKeepsInv(s: State, now: nat, raw: string)
    requires Inv(s)
    ensures Inv(StepClaim(s, now, raw).0)
  {
    var mac := Text.Lower(WorkList.Strip(raw));
    if StepClaim(s, now, raw).1.Claimed? {
      var d := s.macs[mac];
      var row := s.inventory[d];
      var devices := s.devices[d := DeviceRow(row.pid, row.schema)];
      assert RowLifecycle(row, s.devices, d);
      ProvisionRowKeepsInv(s, d, devices, row.(provisionedAt := Some(now), status := Provisioned));
    }
  }

  /** A devices row for d and a provision time for its inventory row. */
  lemma {:induction false} ProvisionRowKeepsInv(s: State, d: Device, devices: map<Device, DeviceRow>, row: Row)
    requires Inv(s) && d in s.inventory && s.inventory[d].status == InInventory && d in devices
    requires forall e | e in s.devices && e != d :: e in devices && devices[e] == s.devices[e]
    requires row == s.inventory[d].(provisionedAt := row.provisionedAt, status := row.status)
    requires RowLifecycle(row, devices, d)
    ensures Inv(SetRow(s.(devices := devices), d, row))
  {
    var t := s.(devices := devices);
    forall e | e in s.inventory ensures RowLifecycle(s.inventory[e], devices, e) {
      assert RowLifecycle(s.inventory[e], s.devices, e);
    }
    DevicesKeepInv(s, devices);
    NotTaken(t, d);
    SetRowKeepsInv(t, d, row);
  }

  lemma {:induction false} ProvisionKeepsInv(s: State, now: nat, raw: string)
    requires Inv(s)
    ensures Inv(StepProvision(s, now, raw).0)
  {
    var mac := WorkList.Norm(raw);
    if StepProvision(s, now, raw).1.MarkedProvisioned? {
      var d := s.macs[mac];
      var row := s.inventory[d];
      assert RowLifecycle(row, s.devices, d);
      ProvisionRowKeepsInv(s, d, EnsureDevice(s.devices, d, row.pid), row.(provisionedAt := Some(now)));
    }
  }

  lemma {:induction false} ResetKeepsInv(s: State, raw: string)
    requires Inv(s)
    ensures Inv(StepReset(s, raw).0)
  {
    var mac := WorkList.Norm(raw);
    if StepReset(s, raw).1.ResetToInventory? {
      var d := s.macs[mac];
      var row := s.inventory[d].(provisionedAt := None, status := InInventory);
      NotTaken(s, d);
      SetRowKeepsInv(s, d, row);
      ForgetKeepsInv(SetRow(s, d, row), d);
    }
  }

  lemma {:induction false} ForgetKeepsInv(s: State, d: Device)
    requires Inv(s) && d in s.inventory && s.inventory[d].provisionedAt.None?
    ensures Inv(Forget(s, d.did))
  {
    var t := Forget(s, d.did);
    forall e | e in s.inventory ensures RowLifecycle(s.inventory[e], t.devices, e) {
      assert RowLifecycle(s.inventory[e], s.devices, e);
    }
    SameRowsSameInv(s, t);
  }

  lemma {:induction false} DeleteKeepsInv(s: State, raw: string)
    requires Inv(s)
    ensures Inv(StepDelete(s, raw).0)
  {
    var t := StepDelete(s, raw).0;
    if t != s {
      var d := s.macs[WorkList.Norm(raw)];
      FewerRowsOk(s, t, d);
      forall id | id in t.batches ensures |RowsOf(t, id)| <= t.batches[id].qty { FewerRows(s, t, d, id); }
    }
  }

  lemma {:induction false} FewerRowsOk(s: State, t: State, d: Device)
    requires RowsOk(s) && d in s.inventory && s.inventory[d].mac.Some?
    requires t == s.(inventory := s.inventory - {d}, macs := s.macs - {s.inventory[d].mac.value})
    ensures RowsOk(t)
  {
    FewerMacsOk(s, t, d);
    FewerBlesOk(s, t, d);
  }

  lemma {:induction false} FewerMacsOk(s: State, t: State, d: Device)
    requires MacsOk(s) && d in s.inventory && s.inventory[d].mac.Some?
    requires t.inventory == s.inventory - {d} && t.macs == s.macs - {s.inventory[d].mac.value}
    ensures MacsOk(t)
  {
  }

  lemma {:induction false} FewerBlesOk(s: State, t: State, d: Device)
    requires BlesOk(s) && t.inventory == s.inventory - {d}
    ensures BlesOk(t)
  {
  }

  lemma {:induction false} FewerRows(s: State, t: State, d: Device, id: string)
    requires t.inventory == s.inventory - {d}
    ensures |RowsOf(t, id)| <= |RowsOf(s, id)|
  {
    assert RowsOf(t, id) == RowsOf(s, id) - {d};
  }

  lemma {:induction false} HandMadeKeepsInv(s: State, d: Device, mac: string, ble: Option<string>, pid: string)
    requires Inv(s) && NewRowOk(s, d, HandMade(mac, ble, pid)) && Insert(s, d, HandMade(mac, ble, pid)).Some?
    ensures Inv(Insert(s, d, HandMade(mac, ble, pid)).value)
  {
    InsertKeepsRows(s, d, HandMade(mac, ble, pid));
    InsertKeepsCounts(s, d, HandMade(mac, ble, pid));
  }

  lemma {:induction false} AddKeepsInv(s: State, raw: string, tid: string, pid: string, did: string)
    requires Inv(s) && did != "" && did !in s.drawn
    ensures Inv(StepAdd(s, raw, tid, pid, did).0)
  {
    var mac, s1, d := WorkList.Norm(raw), s.(tenants := s.tenants + {tid}), Device(tid, did);
    TenantKeepsInv(s, tid);
    if WorkList.IsValid(mac) && Insert(s1, d, HandMade(mac, None, pid)).Some? { HandMadeKeepsInv(s1, d, mac, None, pid); }
  }

  lemma {:induction false} SeedKeepsInv(s: State, raw: string, tid: string, pid: string, did: string)
    requires Inv(s) && did != "" && did !in s.drawn
    ensures Inv(StepSeed(s, raw, tid, pid, did).0)
  {
    var mac, d := WorkList.Norm(raw), Device(tid, did);
    var ble := Some(Mac.PlusN(mac, 2));
    if StepSeed(s, raw, tid, pid, did).1.Seeded? {
      if mac in s.macs {
        SetRowKeepsInv(s, s.macs[mac], s.inventory[s.macs[mac]].(ble := ble));
      } else {
        HandMadeKeepsInv(s, d, mac, ble, pid);
      }
    }
  }

  lemma {:induction false} DevicesOnlyGrow(s: State, t: State)
    requires LifecycleOk(s) && t.inventory == s.inventory
    requires forall e | e in s.devices :: e in t.devices && t.devices[e] == s.devices[e]
    ensures LifecycleOk(t)
  {
    forall e | e in s.inventory ensures RowLifecycle(s.inventory[e], t.devices, e) {
      assert RowLifecycle(s.inventory[e], s.devices, e);
    }
  }

  lemma {:induction false} GrowingKeepsInv(s: State, t: State)
    requires Inv(s) && t.inventory == s.inventory && t.macs == s.macs && t.batches == s.batches
    requires s.tenants <= t.tenants && s.released.Keys <= t.released.Keys && s.drawn <= t.drawn
    requires forall e | e in s.devices :: e in t.devices && t.devices[e] == s.devices[e]
    ensures Inv(t)
  {
    DevicesOnlyGrow(s, t);
    SameRowsSameInv(s, t);
  }

  lemma {:induction false} OtherOnlyGrows(s: State, now: nat, q: Request)
    requires q.AddTenant? || q.Release? || q.DeviceSeen? || q.Own? || q.Disown?
    ensures var t := Step(s, now, q).0;
      && t.inventory == s.inventory && t.macs == s.macs && t.batches == s.batches
      && s.tenants <= t.tenants && s.released.Keys <= t.released.Keys && s.drawn <= t.drawn
      && (forall e | e in s.devices :: e in t.devices && t.devices[e] == s.devices[e])
    ensures Step(s, now, q).1 == Done || Step(s, now, q).1 == DbError
  {
  }

  lemma {:induction false} StepKeepsInv(s: State, now: nat, q: Request)
    requires Inv(s) && FreshIds(s, q)
    ensures Inv(Step(s, now, q).0)
  {
    match q
    case AddDevice(raw, tid, pid, did) => AddKeepsInv(s, raw, tid, pid, did);
    case Seed(raw, tid, pid, did) => SeedKeepsInv(s, raw, tid, pid, did);
    case CreateBatch(b) => BatchExactly(s, b);
    case Claim(raw) => ClaimKeepsInv(s, now, raw);
    case AdminProvision(raw) => ProvisionKeepsInv(s, now, raw);
    case AdminReset(raw) => ResetKeepsInv(s, raw);
    case AdminDelete(raw) => DeleteKeepsInv(s, raw);
    case AddTenant(_) | Release(_, _) | DeviceSeen(_, _) | Own(_, _) | Disown(_) =>
      OtherOnlyGrows(s, now, q);
      GrowingKeepsInv(s, Step(s, now, q).0);
  }

  // ---------- runs ----------

  datatype Event = Event(at: nat, req: Request)

  function After(run: seq<Event>): State {
    if run == [] then Empty else
      var n := |run| - 1;
      Step(After(run[..n]), run[n].at, run[n].req).0
  }

  predicate ValidRun(run: seq<Event>) {
    run == [] ||
    var n := |run| - 1;
    ValidRun(run[..n]) && FreshIds(After(run[..n]), run[n].req)
  }

  /** The answers, in request order. */
  function Replies(run: seq<Event>): (rs: seq<Reply>)
    ensures |rs| == |run|
  {
    if run == [] then [] else
      var n := |run| - 1;
      Replies(run[..n]) + [Step(After(run[..n]), run[n].at, run[n].req).1]
  }

  /** In every reachable state: MACs, BLE MACs and ids unique, lifecycle consistent, batches within quantity. */
  lemma {:induction false} RunKeepsInv(run: seq<Event>)
    requires ValidRun(run)
    ensures Inv(After(run))
  {
    if run != [] {
      var n := |run| - 1;
      RunKeepsInv(run[..n]);
      StepKeepsInv(After(run[..n]), run[n].at, run[n].req);
    }
  }

  // ---------- history of one MAC ----------

  /** The two answers that report m provisioned. */
  predicate Provisions(r: Reply, m: string) {
    (r.Claimed? && r.mac == m) || r == MarkedProvisioned(m)
  }

  /** Request i provisioned m and no later request reset it. */
  ghost predicate Holds(run: seq<Event>, i: nat, m: string)
    requires i < |run|
  {
    Provisions(Replies(run)[i], m) && forall k | i < k < |run| :: Replies(run)[k] != ResetToInventory(m)
  }

  predicate InUse(s: State, m: string) {
    m in s.macs && s.macs[m] in s.inventory && s.inventory[s.macs[m]].provisionedAt.Some?
  }

  predicate ByClaim(s: State, m: string)
    requires InUse(s, m)
  {
    s.inventory[s.macs[m]].status == Provisioned
  }

  /** Only a provision starts use of m and only a reset ends it; in between, the status does not change. */
  predicate UseMoves(s: State, t: State, r: Reply, m: string) {
    && (InUse(t, m) <==> Provisions(r, m) || (InUse(s, m) && r != ResetToInventory(m)))
    && (Provisions(r, m) ==> !InUse(s, m) && InUse(t, m) && (ByClaim(t, m) <==> r.Claimed?))
    && (InUse(s, m) && InUse(t, m) ==> ByClaim(s, m) == ByClaim(t, m))
  }

  /** t has the rows of s, up to their BLE MAC, and perhaps some that are not provisioned. */
  ghost predicate OnlyAdds(s: State, t: State) {
    && (forall d | d in s.inventory :: d in t.inventory && SameUse(s.inventory[d], t.inventory[d]))
    && (forall d | d in t.inventory && d !in s.inventory :: t.inventory[d].provisionedAt.None?)
  }

  predicate SameUse(row: Row, row': Row) {
    row'.mac == row.mac && row'.provisionedAt == row.provisionedAt && row'.status == row.status
  }

  lemma {:induction false} AddingMovesNothing(s: State, t: State, r: Reply, m: string)
    requires MacsOk(s) && MacsOk(t) && OnlyAdds(s, t) && !Provisions(r, m) && r != ResetToInventory(m)
    ensures UseMoves(s, t, r, m)
  {
    if InUse(s, m) { assert t.inventory[s.macs[m]].mac == Some(m); }
    if InUse(t, m) { assert t.inventory[t.macs[m]].mac == Some(m); }
  }

  lemma {:induction false} AddOnlyAdds(s: State, raw: string, tid: string, pid: string, did: string)
    ensures OnlyAdds(s, StepAdd(s, raw, tid, pid, did).0)
  {
  }

  lemma {:induction false} SeedOnlyAdds(s: State, raw: string, tid: string, pid: string, did: string)
    ensures OnlyAdds(s, StepSeed(s, raw, tid, pid, did).0)
  {
    var mac := WorkList.Norm(raw);
    if mac in s.macs && s.macs[mac] in s.inventory {
      BleOnlyAdds(s, s.macs[mac], Some(Mac.PlusN(mac, 2)));
    } else {
      InsertOnlyAdds(s, Device(tid, did), HandMade(mac, Some(Mac.PlusN(mac, 2)), pid));
    }
  }

  lemma {:induction false} BleOnlyAdds(s: State, d: Device, ble: Option<string>)
    requires d in s.inventory
    ensures OnlyAdds(s, SetRow(s, d, s.inventory[d].(ble := ble)))
  {
  }

  lemma {:induction false} InsertOnlyAdds(s: State, d: Device, row: Row)
    requires row.provisionedAt.None?
    ensures Insert(s, d, row).Some? ==> OnlyAdds(s, Insert(s, d, row).value)
  {
  }

  lemma {:induction false} BatchOnlyAdds(s: State, b: Seeding)
    requires Inv(s) && FreshBatch(s, b)
    ensures OnlyAdds(s, StepBatch(s, b).0)
  {
    BatchExactly(s, b);
    if Acceptable(s, b) {
      var macs :| SeededExactly(s, StepBatch(s, b).0, b, macs);
      SeededOnlyAdds(s, StepBatch(s, b).0, b, macs);
    }
  }

  lemma {:induction false} SeededOnlyAdds(s: State, t: State, b: Seeding, macs: seq<string>)
    requires SeededExactly(s, t, b, macs)
    ensures OnlyAdds(s, t)
  {
    forall d | d in t.inventory && d !in s.inventory ensures t.inventory[d].provisionedAt.None? {
      var i :| 0 <= i < (if |macs| == 0 then b.qty else |macs|) && d == BatchKey(b, i);
    }
  }

  /** One row is rewritten or removed and the MAC index follows; rows of other MACs stay in use as before. */
  lemma {:induction false} OtherMacsStay(s: State, t: State, m: string, mac: string)
    requires MacsOk(s) && mac in s.macs && m != mac
    requires (m in t.macs <==> m in s.macs) && (m in s.macs ==> t.macs[m] == s.macs[m])
    requires forall d | d in s.inventory && d != s.macs[mac] :: d in t.inventory && t.inventory[d] == s.inventory[d]
    requires forall d | d in t.inventory && d != s.macs[mac] :: d in s.inventory
    ensures InUse(t, m) == InUse(s, m) && (InUse(s, m) ==> ByClaim(t, m) == ByClaim(s, m))
  {
    if m in s.macs {
      assert s.inventory[s.macs[m]].mac == Some(m) && s.inventory[s.macs[mac]].mac == Some(mac);
    }
  }

  /** The row of mac gets its provision time, by a claim or by hand. */
  lemma {:induction false} ProvisionRowMoves(s: State, t: State, r: Reply, mac: string, row: Row, m: string)
    requires MacsOk(s) && LifecycleOk(s) && mac in s.macs && t.macs == s.macs && !InUse(s, mac)
    requires t.inventory == s.inventory[s.macs[mac] := row] && row.provisionedAt.Some?
    requires (row.status == Provisioned <==> r.Claimed?) && (r.Claimed? || r.MarkedProvisioned?) && r.mac == mac
    ensures UseMoves(s, t, r, m)
  {
    if m != mac { OtherMacsStay(s, t, m, mac); }
  }

  lemma {:induction false} ClaimMoves(s: State, now: nat, raw: string, m: string)
    requires MacsOk(s) && LifecycleOk(s)
    ensures var (t, r) := StepClaim(s, now, raw); UseMoves(s, t, r, m)
  {
    var mac := Text.Lower(WorkList.Strip(raw));
    if StepClaim(s, now, raw).1.Claimed? {
      var row := s.inventory[s.macs[mac]].(provisionedAt := Some(now), status := Provisioned);
      ProvisionRowMoves(s, StepClaim(s, now, raw).0, StepClaim(s, now, raw).1, mac, row, m);
    }
  }

  lemma {:induction false} ProvisionMoves(s: State, now: nat, raw: string, m: string)
    requires MacsOk(s) && LifecycleOk(s)
    ensures var (t, r) := StepProvision(s, now, raw); UseMoves(s, t, r, m)
  {
    var mac := WorkList.Norm(raw);
    if StepProvision(s, now, raw).1.MarkedProvisioned? {
      var row := s.inventory[s.macs[mac]].(provisionedAt := Some(now));
      assert RowLifecycle(s.inventory[s.macs[mac]], s.devices, s.macs[mac]);
      ProvisionRowMoves(s, StepProvision(s, now, raw).0, StepProvision(s, now, raw).1, mac, row, m);
    }
  }

  lemma {:induction false} ResetMoves(s: State, raw: string, m: string)
    requires MacsOk(s) && LifecycleOk(s)
    ensures var (t, r) := StepReset(s, raw); UseMoves(s, t, r, m)
  {
    var mac := WorkList.Norm(raw);
    if StepReset(s, raw).1.ResetToInventory? && m != mac { OtherMacsStay(s, StepReset(s, raw).0, m, mac); }
  }

  lemma {:induction false} DeleteMoves(s: State, raw: string, m: string)
    requires MacsOk(s) && LifecycleOk(s)
    ensures var (t, r) := StepDelete(s, raw); UseMoves(s, t, r, m)
  {
    var mac := WorkList.Norm(raw);
    if StepDelete(s, raw).1.Deleted? && m != mac { OtherMacsStay(s, StepDelete(s, raw).0, m, mac); }
  }

  lemma {:induction false} AddMoves(s: State, raw: string, tid: string, pid: string, did: string, m: string)
    requires Inv(s) && did != "" && did !in s.drawn
    ensures var (t, r) := StepAdd(s, raw, tid, pid, did); UseMoves(s, t, r, m)
  {
    AddKeepsInv(s, raw, tid, pid, did);
    AddOnlyAdds(s, raw, tid, pid, did);
    AddingMovesNothing(s, StepAdd(s, raw, tid, pid, did).0, StepAdd(s, raw, tid, pid, did).1, m);
  }

  lemma {:induction false} SeedMoves(s: State, raw: string, tid: string, pid: string, did: string, m: string)
    requires Inv(s) && did != "" && did !in s.drawn
    ensures var (t, r) := StepSeed(s, raw, tid, pid, did); UseMoves(s, t, r, m)
  {
    SeedKeepsInv(s, raw, tid, pid, did);
    SeedOnlyAdds(s, raw, tid, pid, did);
    AddingMovesNothing(s, StepSeed(s, raw, tid, pid, did).0, StepSeed(s, raw, tid, pid, did).1, m);
  }

  lemma {:induction false} BatchMoves(s: State, b: Seeding, m: string)
    requires Inv(s) && FreshBatch(s, b)
    ensures var (t, r) := StepBatch(s, b); UseMoves(s, t, r, m)
  {
    BatchExactly(s, b);
    BatchOnlyAdds(s, b);
    AddingMovesNothing(s, StepBatch(s, b).0, StepBatch(s, b).1, m);
  }

  lemma {:induction false} UseStep(s: State, now: nat, q: Request, m: string)
    requires Inv(s) && FreshIds(s, q)
    ensures var (t, r) := Step(s, now, q); UseMoves(s, t, r, m)
  {
    match q
    case Claim(raw) => ClaimMoves(s, now, raw, m);
    case AdminProvision(raw) => ProvisionMoves(s, now, raw, m);
    case AdminReset(raw) => ResetMoves(s, raw, m);
    case AdminDelete(raw) => DeleteMoves(s, raw, m);
    case AddDevice(raw, tid, pid, did) => AddMoves(s, raw, tid, pid, did, m);
    case Seed(raw, tid, pid, did) => SeedMoves(s, raw, tid, pid, did, m);
    case CreateBatch(b) => BatchMoves(s, b, m);
    case AddTenant(_) | Release(_, _) | DeviceSeen(_, _) | Own(_, _) | Disown(_) => OtherOnlyGrows(s, now, q);
  }

  lemma {:induction false} HoldsStep(run: seq<Event>, i: nat, m: string)
    requires i < |run| - 1
    ensures var n := |run| - 1;
      Holds(run, i, m) <==> Holds(run[..n], i, m) && Replies(run)[n] != ResetToInventory(m)
  {
    var n := |run| - 1;
    assert forall k | 0 <= k < n :: Replies(run)[k] == Replies(run[..n])[k];
    if Holds(run, i, m) { assert forall k | i < k < n :: Replies(run[..n])[k] == Replies(run)[k]; }
  }

  /** A MAC is in use exactly while some provision of it has not been reset, however requests are mixed. */
  lemma {:induction false} InUseExactly(run: seq<Event>, m: string)
    requires ValidRun(run)
    ensures InUse(After(run), m) <==> exists i | 0 <= i < |run| :: Holds(run, i, m)
  {
    if run != [] {
      var n := |run| - 1;
      InUseExactly(run[..n], m);
      RunKeepsInv(run[..n]);
      UseStep(After(run[..n]), run[n].at, run[n].req, m);
      forall i: nat | i < n ensures Holds(run, i, m) <==> Holds(run[..n], i, m) && Replies(run)[n] != ResetToInventory(m) {
        HoldsStep(run, i, m);
      }
      if InUse(After(run), m) {
        if Provisions(Replies(run)[n], m) {
          assert Holds(run, n, m);
        } else {
          var i :| 0 <= i < n && Holds(run[..n], i, m);
          assert Holds(run, i, m);
        }
      }
    }
  }

  /** Status 'provisioned' tells exactly that the provision in force was a factory claim. */
  lemma {:induction false} StatusExactly(run: seq<Event>, i: nat, m: string)
    requires ValidRun(run) && i < |run| && Holds(run, i, m)
    ensures InUse(After(run), m)
    ensures ByClaim(After(run), m) <==> Replies(run)[i].Claimed?
  {
    var n := |run| - 1;
    InUseExactly(run, m);
    RunKeepsInv(run[..n]);
    UseStep(After(run[..n]), run[n].at, run[n].req, m);
    if i < n {
      HoldsStep(run, i, m);
      StatusExactly(run[..n], i, m);
    }
  }

  lemma {:induction false} PrefixSame(run: seq<Event>, n: nat)
    requires n <= |run|
    ensures Replies(run)[..n] == Replies(run[..n]) && (ValidRun(run) ==> ValidRun(run[..n]))
  {
    if n < |run| {
      PrefixSame(run[..|run| - 1], n);
      assert run[..|run| - 1][..n] == run[..n];
    } else {
      assert run[..n] == run;
    }
  }

  /** Between two successful provisions of one MAC there is a reset of it. */
  lemma {:induction false} ResetBetween(run: seq<Event>, i: nat, j: nat, m: string)
    requires ValidRun(run) && i < j < |run| && Provisions(Replies(run)[i], m) && Provisions(Replies(run)[j], m)
    ensures exists k | i < k < j :: Replies(run)[k] == ResetToInventory(m)
  {
    var before, upTo := run[..j], run[..j + 1];
    PrefixSame(run, j);
    PrefixSame(run, j + 1);
    assert upTo[..j] == before && Replies(run)[j] == Replies(upTo)[j];
    RunKeepsInv(before);
    UseStep(After(before), upTo[j].at, upTo[j].req, m);
    InUseExactly(before, m);
    assert !Holds(before, i, m);
    var k :| i < k < j && Replies(before)[k] == ResetToInventory(m);
  }

  lemma {:induction false} FirstAdd(m: string)
    requires WorkList.IsValid(m)
    ensures var t := StepAdd(Empty, m, "t", "p", "id").0;
      && t.macs == map[m := Device("t", "id")] && t.inventory == map[Device("t", "id") := HandMade(m, None, "p")]
  {
    WorkList.NormKeepsValid(m);
  }

  lemma {:induction false} MarkByHand(s: State, m: string)
    requires WorkList.IsValid(m) && m in s.macs && s.macs[m] in s.inventory
    requires s.inventory[s.macs[m]].provisionedAt.None? && s.inventory[s.macs[m]].status == InInventory
    ensures var t := StepProvision(s, 1, m).0; InUse(t, m) && !ByClaim(t, m)
  {
    WorkList.NormKeepsValid(m);
  }

  lemma {:induction false} OneMore(run: seq<Event>, e: Event)
    ensures After(run + [e]) == Step(After(run), e.at, e.req).0
    ensures ValidRun(run + [e]) <==> ValidRun(run) && FreshIds(After(run), e.req)
  {
    assert (run + [e])[..|run|] == run;
  }

  /** A provision by hand leaves the status column at 'inventory', whatever the MAC. */
  lemma {:induction false} ByHandReadsInventory(m: string)
    requires WorkList.IsValid(m)
    ensures var run := [Event(0, AddDevice(m, "t", "p", "id")), Event(1, AdminProvision(m))];
      ValidRun(run) && InUse(After(run), m) && !ByClaim(After(run), m)
  {
    var add, mark := Event(0, AddDevice(m, "t", "p", "id")), Event(1, AdminProvision(m));
    OneMore([], add);
    OneMore([] + [add], mark);
    assert [] + [add] + [mark] == [add, mark];
    FirstAdd(m);
    MarkByHand(StepAdd(Empty, m, "t", "p", "id").0, m);
  }

  // ---------- what the tables say ----------

  /** A claim answers "not in inventory" and "already provisioned" truthfully; the tenant join hides no row. */
  lemma {:induction false} ClaimExactly(run: seq<Event>, now: nat, raw: string)
    requires ValidRun(run)
    ensures var (s, m) := (After(run), Text.Lower(WorkList.Strip(raw)));
      var r := StepClaim(s, now, raw).1;
      && (r == NotFound <==> WorkList.IsValid(m) && forall d | d in s.inventory :: s.inventory[d].mac != Some(m))
      && (r == AlreadyProvisioned <==> WorkList.IsValid(m) && InUse(s, m))
  {
    RunKeepsInv(run);
    var s, m := After(run), Text.Lower(WorkList.Strip(raw));
    if m in s.macs { assert s.inventory[s.macs[m]].mac == Some(m); }
  }

  /** A claimed device's row in devices carries the product and schema it was manufactured with, until it is reset. */
  lemma {:induction false} ClaimedRowIsBound(run: seq<Event>, m: string)
    requires ValidRun(run) && InUse(After(run), m)
    ensures var s := After(run);
      && s.macs[m] in s.devices
      && (ByClaim(s, m) ==> s.devices[s.macs[m]] == DeviceRow(s.inventory[s.macs[m]].pid, s.inventory[s.macs[m]].schema))
  {
    RunKeepsInv(run);
    assert RowLifecycle(After(run).inventory[After(run).macs[m]], After(run).devices, After(run).macs[m]);
  }

  /** A batch never has more rows than its quantity, each of its tenant and bound to its released product and version. */
  lemma {:induction false} BatchesStayBounded(run: seq<Event>, id: string)
    requires ValidRun(run) && id in After(run).batches
    ensures var s := After(run);
      && |RowsOf(s, id)| <= s.batches[id].qty && s.batches[id].product in s.released
      && (forall d | d in RowsOf(s, id) :: Bound(s.inventory[d], d, s.batches[id].product))
  {
    RunKeepsInv(run);
  }

  /** A reset leaves nothing of the device outside the inventory and touches no other inventory device. */
  lemma {:induction false} ResetLeavesNothing(run: seq<Event>, raw: string)
    requires ValidRun(run) && StepReset(After(run), raw).1.ResetToInventory?
    ensures var (s, t, m) := (After(run), StepReset(After(run), raw).0, WorkList.Norm(raw));
      var d := s.macs[m];
      && t.inventory == s.inventory[d := s.inventory[d].(provisionedAt := None, status := InInventory)]
      && d.did !in t.owners && (forall e | e in t.devices :: e.did != d.did)
      && (forall e | e in s.inventory && e != d && e in s.devices :: e in t.devices && t.devices[e] == s.devices[e])
  {
    RunKeepsInv(run);
  }

  // ---------- looking a device up by either address ----------

  /** The rows the app's adopt query matches: Wi-Fi or BLE address, provisioned, joined with devices by did. */
  function AdoptRows(s: State, m: string): set<Device> {
    set d | d in s.inventory && (s.inventory[d].mac == Some(m) || s.inventory[d].ble == Some(m))
            && s.inventory[d].provisionedAt.Some? && Joins(s, d.did)
  }

  predicate Joins(s: State, did: string) { exists e | e in s.devices :: e.did == did }

  /** The join hides no provisioned row. */
  lemma JoinsAll(s: State, d: Device)
    requires Inv(s) && d in s.inventory && s.inventory[d].provisionedAt.Some?
    ensures Joins(s, d.did)
  {
    assert RowLifecycle(s.inventory[d], s.devices, d);
  }

  ghost predicate AtMostOne(ds: set<Device>) {
    forall d, e | d in ds && e in ds :: d == e
  }

  /** m is provisioned, and its row holds a BLE address. */
  predicate InUseWithBle(s: State, m: string) {
    InUse(s, m) && s.inventory[s.macs[m]].ble.Some?
  }

  /** m is provisioned, and so is the MAC two addresses below it, with a BLE address on record. */
  ghost predicate TwoApart(s: State, m: string) {
    InUse(s, m) && exists below :: InUseWithBle(s, below) && Mac.PlusN(below, 2) == m
  }

  /** The provisioned rows that hold m as their BLE address are those of MACs two addresses below. */
  lemma {:induction false} BleIsTwoAbove(s: State, m: string, d: Device)
    requires MacsOk(s) && BlesOk(s) && d in s.inventory && s.inventory[d].provisionedAt.Some?
    ensures s.inventory[d].ble == Some(m) <==>
      exists below :: InUseWithBle(s, below) && s.macs[below] == d && Mac.PlusN(below, 2) == m
  {
    assert RowMacOk(s.inventory[d]);
    if s.inventory[d].ble == Some(m) {
      var below := s.inventory[d].mac.value;
      assert InUseWithBle(s, below) && s.macs[below] == d && Mac.PlusN(below, 2) == m;
    }
  }

  /** The lookup finds two devices exactly when two provisioned MACs are two apart and the lower has a BLE address. */
  lemma {:induction false} AdoptLookupExactly(run: seq<Event>, m: string)
    requires ValidRun(run)
    ensures AtMostOne(AdoptRows(After(run), m)) <==> !TwoApart(After(run), m)
  {
    RunKeepsInv(run);
    var s := After(run);
    if TwoApart(s, m) {
      var below :| InUseWithBle(s, below) && Mac.PlusN(below, 2) == m;
      var d := s.macs[below];
      BleIsTwoAbove(s, m, d);
      BleIsAnother(s, d, m);
      JoinsAll(s, d);
      JoinsAll(s, s.macs[m]);
      assert d in AdoptRows(s, m) && s.macs[m] in AdoptRows(s, m);
    } else {
      forall d, e | d in AdoptRows(s, m) && e in AdoptRows(s, m) ensures d == e {
        BleIsTwoAbove(s, m, d);
        BleIsTwoAbove(s, m, e);
        assert s.inventory[d].mac == Some(m) ==> InUse(s, m);
        assert s.inventory[e].mac == Some(m) ==> InUse(s, m);
      }
    }
  }

  lemma {:induction false} TakenAsGiven(m: string)
    requires WorkList.IsValid(m)
    ensures WorkList.Norm(m) == m && Text.Lower(WorkList.Strip(m)) == m && Mac.IsMac(m)
  {
    WorkList.NormKeepsValid(m);
    WorkList.StripKeeps(m);
    assert forall i | 0 <= i < |m| :: Hex.IsLowerDigit(m[i]);
    assert Text.Lower(m) == m;
  }

  lemma {:induction false} Next(run: seq<Event>, q: Request) returns (run': seq<Event>)
    requires ValidRun(run) && FreshIds(After(run), q)
    ensures ValidRun(run') && After(run') == Step(After(run), 0, q).0
  {
    run' := run + [Event(0, q)];
    OneMore(run, Event(0, q));
  }

  function AfterSeed(s: State, m: string, did: string): Option<State> {
    Insert(s, Device("t", did), HandMade(m, Some(Mac.PlusN(m, 2)), "p"))
  }

  lemma {:induction false} SeedNew(run: seq<Event>, m: string, did: string) returns (run': seq<Event>)
    requires ValidRun(run) && WorkList.IsValid(m) && did != "" && did !in After(run).drawn
    requires "t" in After(run).tenants && m !in After(run).macs && AfterSeed(After(run), m, did).Some?
    ensures ValidRun(run') && After(run') == AfterSeed(After(run), m, did).value
  {
    TakenAsGiven(m);
    run' := Next(run, Seed(m, "t", "p", did));
  }

  function Claimed(row: Row): Row { row.(provisionedAt := Some(0), status := Provisioned) }

  lemma {:induction false} ClaimNew(run: seq<Event>, m: string) returns (run': seq<Event>)
    requires ValidRun(run) && WorkList.IsValid(m) && m in After(run).macs
    requires var s := After(run); s.macs[m] in s.inventory && s.inventory[s.macs[m]].provisionedAt.None? && s.macs[m].tid in s.tenants
    ensures ValidRun(run') && After(run').macs == After(run).macs && After(run').tenants == After(run).tenants
    ensures var s := After(run); After(run').inventory == s.inventory[s.macs[m] := Claimed(s.inventory[s.macs[m]])]
  {
    TakenAsGiven(m);
    run' := Next(run, Claim(m));
  }

  lemma {:induction false} TwoAbove(low: string)
    requires WorkList.IsValid(low)
    ensures var high := Mac.PlusN(low, 2); WorkList.IsValid(high) && high != low && Mac.PlusN(high, 2) != high
  {
    hide Mac.PlusN, Mac.Denotes;
    TakenAsGiven(low);
    Mac.PlusNAdds(low, 2);
    Mac.PlusNAdds(Mac.PlusN(low, 2), 2);
    Mac.Below48(low);
    Mac.Below48(Mac.PlusN(low, 2));
    Mac.NotItself(Mac.Denotes(low));
    Mac.NotItself(Mac.Denotes(Mac.PlusN(low, 2)));
  }

  /** Device did of tenant t waits in the inventory with its MAC and the BLE address two above. */
  predicate Waits(s: State, m: string, did: string) {
    var d := Device("t", did);
    m in s.macs && s.macs[m] == d && d in s.inventory && s.inventory[d] == HandMade(m, Some(Mac.PlusN(m, 2)), "p")
  }

  lemma {:induction false} TwoSeeded(low: string, high: string) returns (run: seq<Event>)
    requires WorkList.IsValid(low) && WorkList.IsValid(high) && high == Mac.PlusN(low, 2) && high != low && Mac.PlusN(high, 2) != high
    ensures ValidRun(run) && "t" in After(run).tenants && Waits(After(run), low, "1") && Waits(After(run), high, "2")
  {
    hide Mac.PlusN, WorkList.IsValid;
    OneMore([], Event(0, AddTenant("t")));
    run := SeedNew([] + [Event(0, AddTenant("t"))], low, "1");
    run := SeedNew(run, high, "2");
  }

  /** For every MAC: seeded with the one two above it and both claimed, the lookup of the upper one finds both. */
  lemma {:induction false} AdoptLookupMayFindTwo(low: string) returns (run: seq<Event>)
    requires WorkList.IsValid(low)
    ensures ValidRun(run) && !AtMostOne(AdoptRows(After(run), Mac.PlusN(low, 2)))
  {
    var high := Mac.PlusN(low, 2);
    TwoAbove(low);
    run := TwoSeeded(low, high);
    run := ClaimNew(run, low);
    run := ClaimNew(run, high);
    RunKeepsInv(run);
    JoinsAll(After(run), Device("t", "1"));
    JoinsAll(After(run), Device("t", "2"));
    assert Device("t", "1") in AdoptRows(After(run), high) && Device("t", "2") in AdoptRows(After(run), high);
  }

  lemma {:induction false} BleIsAnother(s: State, d: Device, m: string)
    requires MacsOk(s) && BlesOk(s) && d in s.inventory && s.inventory[d].ble == Some(m)
    ensures s.inventory[d].mac != Some(m)
  {
    assert RowMacOk(s.inventory[d]);
    var mac := s.inventory[d].mac.value;
    WorkList.NormKeepsValid(mac);
    Mac.PlusNAdds(mac, 2);
    Mac.Below48(mac);
    Mac.NotItself(Mac.Denotes(mac));
  }
}
