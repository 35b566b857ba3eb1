// Trust-on-first-use ownership of a device by whoever first asks to sign a BLE nonce for it
// (internal/app/ble.go). The claim is the write-once protocol with the user id as the value.
module BleClaim {
  import opened Common
  import Schedule
  import W = WriteOnce

  type Claims = W.Store<string, string>  // did → owner

  /** The call got past the ownership check: the owner it read is its own user. */
  predicate Passed(s: Claims, c: nat) {
    c in s.calls && s.calls[c].pc == W.Done(s.calls[c].mine)
  }

  /** However concurrent calls for one device interleave or fail, at most one user ever passes. */
  lemma {:induction false} OnlyOneUserPasses(ws: seq<Claims>, ss: seq<W.Step<string, string>>, i: nat, j: nat, c: nat, d: nat)
    requires W.IsRun(ws, ss) && i < |ws| && j < |ws| && Passed(ws[i], c) && Passed(ws[j], d)
    requires ws[i].calls[c].key == ws[j].calls[d].key
    ensures ws[i].calls[c].mine == ws[j].calls[d].mine
  {
    W.AllCallersAgree(ws, ss, i, j, c, d);
  }

  /** … and that user is the recorded owner from then on. */
  lemma {:induction false} PassedUserStaysOwner(ws: seq<Claims>, ss: seq<W.Step<string, string>>, i: nat, j: nat, c: nat)
    requires W.IsRun(ws, ss) && i <= j < |ws| && Passed(ws[i], c)
    ensures ws[i].calls[c].key in ws[j].rows && ws[j].rows[ws[i].calls[c].key] == ws[i].calls[c].mine
  {
    W.RunKeepsInv(ws, ss, i);
    W.RowsNeverChange(ws, ss, i, j, ws[i].calls[c].key);
  }

  /** A call that finished reading passes exactly when its user is the recorded owner at any later time. */
  lemma {:induction false} PassesIffOwner(ws: seq<Claims>, ss: seq<W.Step<string, string>>, i: nat, j: nat, c: nat)
    requires W.IsRun(ws, ss) && i <= j < |ws| && c in ws[i].calls && ws[i].calls[c].pc.Done?
    ensures ws[i].calls[c].key in ws[j].rows
    ensures Passed(ws[i], c) <==> ws[j].rows[ws[i].calls[c].key] == ws[i].calls[c].mine
  {
    W.RunKeepsInv(ws, ss, i);
    W.RowsNeverChange(ws, ss, i, j, ws[i].calls[c].key);
  }

  /** Signed stands for a signature of the message under the tenant's active key. */
  datatype Outcome = Signed(message: string, tid: string) | Guest | InvalidRole | NotFound | ClaimedByOther | BadRequest | NoSigningKey

  datatype Resolved = Resolved(did: string, tid: string)

  function SignedRole(role: string): string {
    if role == "" then "owner" else role
  }

  type Others = Schedule.Others<Claims, W.Step<string, string>>

  /**
   * The handler over app_devices. Everything that was ever done to the table, by this handler's calls and by the
   * others' steps between their statements, is one path of the system above.
   */
  class Handler {
    const start: Claims
    var owners: map<string, string>
    var calls: map<nat, W.Call<string, string>>
    ghost var past: seq<W.Step<string, string>>

    function View(): Claims
      reads this
    {
      W.Store(owners, calls)
    }

    ghost predicate Valid()
      reads this
    {
      start.calls == map[] && W.Leads(start, past, View())
    }

    constructor (owners: map<string, string>)
      ensures Valid() && start.rows == this.owners == owners && past == []
    {
      start := W.Store(owners, map[]);
      this.owners, calls, past := owners, map[], [];
    }

    /** The other callers' turn. */
    method Meanwhile(others: Others, c: nat)
      requires Valid() && W.Possible(others, c)
      modifies this
      ensures Valid() && old(past) <= past
      ensures if c in old(calls) then c in calls && calls[c] == old(calls)[c] else c !in calls
      ensures forall did | did in old(owners) :: did in owners && owners[did] == old(owners)[did]
    {
      var steps := others(View());
      var after := Schedule.Played(W.Do<string, string>, View(), steps);
      W.OthersKeep(View(), steps, after, c);
      Schedule.Joined(W.Enabled<string, string>, W.Do<string, string>, start, past, View(), steps, after);
      past := past + steps;
      owners, calls := after.rows, after.calls;
    }

    ghost method Record(st: W.Step<string, string>, before: Claims)
      requires start.calls == map[] && W.Leads(start, past, before) && W.Enabled(before, st) && View() == W.Apply(before, st)
      modifies `past
      ensures Valid() && past == old(past) + [st]
    {
      Schedule.OneMore(W.Enabled<string, string>, W.Do<string, string>, start, past, before, st);
      past := past + [st];
    }

    method Enter(c: nat, did: string, uid: string)
      requires Valid() && c !in calls
      modifies this
      ensures Valid() && old(past) <= past && owners == old(owners) && c in calls && calls[c] == W.Call(did, uid, W.Starting)
    {
      ghost var before := View();
      calls := calls[c := W.Call(did, uid, W.Starting)];
      Record(W.Enter(c, did, uid), before);
    }

    /** SELECT owner_id, before the insert and again after it. */
    method SelectOwner(c: nat) returns (owner: Option<string>)
      requires Valid() && c in calls && (calls[c].pc.Starting? || calls[c].pc.Inserted?)
      modifies this
      ensures Valid() && old(past) <= past && owners == old(owners)
      ensures owner == if old(calls)[c].key in owners then Some(owners[old(calls)[c].key]) else None
      ensures c in calls && calls[c] == old(calls)[c].(pc := calls[c].pc)
      ensures calls[c].pc == if owner.Some? then W.Done(owner.value) else if old(calls)[c].pc.Starting? then W.Missed else W.Failed
    {
      ghost var before := View();
      var call := calls[c];
      owner := if call.key in owners then Some(owners[call.key]) else None;
      calls := calls[c := call.(pc :=
        if owner.Some? then W.Done(owner.value) else if call.pc.Starting? then W.Missed else W.Failed)];
      Record(if call.pc.Starting? then W.Select(c, true) else W.Reselect(c, true), before);
    }

    /** INSERT … ON CONFLICT (did) DO NOTHING */
    method InsertClaim(c: nat)
      requires Valid() && c in calls && calls[c].pc.Missed?
      modifies this
      ensures Valid() && old(past) <= past && owners == W.InsertIfAbsent(old(owners), old(calls)[c].key, old(calls)[c].mine)
      ensures c in calls && calls[c] == old(calls)[c].(pc := W.Inserted)
    {
      ghost var before := View();
      var call := calls[c];
      if call.key !in owners { owners := owners[call.key := call.mine]; }
      calls := calls[c := call.(pc := W.Inserted)];
      Record(W.Insert(c, true), before);
    }

    /** The ownership check of call c, the other calls taking their steps between its statements. */
    method CheckOwner(c: nat, did: string, uid: string, others: Others) returns (mine: bool)
      requires Valid() && c !in calls && W.Possible(others, c)
      modifies this
      ensures Valid() && old(past) <= past && did in owners && c in calls && calls[c] == W.Call(did, uid, W.Done(owners[did]))
      ensures mine <==> owners[did] == uid
    {
      Enter(c, did, uid);
      Meanwhile(others, c);
      var owner := SelectOwner(c);
      if owner.Some? { return owner.value == uid; }
      Meanwhile(others, c);
      InsertClaim(c);
      Meanwhile(others, c);
      owner := SelectOwner(c);
      return owner.value == uid;
    }

    /** `device` is what the raw device id resolved to; uid comes from the verified access token; `hasKey` is the key service's answer. */
    method SignBLENonce(c: nat, uid: string, callerRole: string, deviceId: string, nonce: string, role: string,
                        device: Option<Resolved>, hasKey: bool, others: Others) returns (r: Outcome)
      requires Valid() && uid != "" && c !in calls && W.Possible(others, c)
      modifies this
      ensures Valid() && old(past) <= past
      ensures var checked := deviceId != "" && nonce != "" && callerRole != "guest" && role in ["", "owner", "user"]
                             && device.Some? && device.value.tid != "";
        if checked then Asked(View(), c, device.value.did, uid) && r == AnswerTo(View(), c, deviceId, nonce, role, device.value, hasKey)
        else View() == old(View()) && !r.Signed? && !r.ClaimedByOther? && !r.NoSigningKey?
    {
      if deviceId == "" || nonce == "" { return BadRequest; }
      if callerRole == "guest" { return Guest; }
      if role != "" && role !in ["owner", "user"] { return InvalidRole; }
      if device.None? || device.value.tid == "" { return NotFound; }
      var mine := CheckOwner(c, device.value.did, uid, others);
      if !mine { return ClaimedByOther; }
      if !hasKey { return NoSigningKey; }
      return Signed(deviceId + nonce + SignedRole(role), device.value.tid);
    }
  }

  /** Call c, for this device and user, has read the owner that is on record. */
  predicate Asked(s: Claims, c: nat, did: string, uid: string) {
    did in s.rows && c in s.calls && s.calls[c] == W.Call(did, uid, W.Done(s.rows[did]))
  }

  /** A claim stands even when there is no key to sign with. */
  function AnswerTo(s: Claims, c: nat, deviceId: string, nonce: string, role: string, device: Resolved, hasKey: bool): Outcome {
    if !Passed(s, c) then ClaimedByOther
    else if !hasKey then NoSigningKey
    else Signed(deviceId + nonce + SignedRole(role), device.tid)
  }

  /** Whatever a handler went through: two calls that passed for one device, ever, were made by one user. */
  lemma {:induction false} SignedForOneUser(start: Claims, p: seq<W.Step<string, string>>, s: Claims, c: nat,
                                            q: seq<W.Step<string, string>>, t: Claims, d: nat)
    requires start.calls == map[] && W.Leads(start, p, s) && W.Leads(start, q, t) && p <= q
    requires Passed(s, c) && Passed(t, d) && s.calls[c].key == t.calls[d].key
    ensures s.calls[c].mine == t.calls[d].mine
  {
    var ws := W.RunOf(start, q, t);
    W.WorldAt(ws, q, |p|);
    assert q[..|p|] == p;
    OnlyOneUserPasses(ws, q, |p|, |q|, c, d);
  }
}
