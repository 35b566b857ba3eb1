// Runs over the shadow table and its cached documents, and the service that writes both
// (internal/shadow/shadow.go).
//
// Requests are atomic and Redis calls succeed. The cache is keyed by device: tenant ids hold no colon.
module Shadow {
  import opened Common
  import opened ShadowRows

  datatype Device = Device(tid: string, did: string)

  datatype State = State(devices: set<Device>, rows: map<Device, Table>, cache: map<Device, Doc>)

  const Empty := State({}, map[], map[])

  /** SELECT … WHERE tid = d.tid AND did = d.did */
  function RowsOf(rows: map<Device, Table>, d: Device): Table { if d in rows then rows[d] else map[] }

  // ---------- requests ----------

  datatype Event =
    | Add(d: Device)
    | Remove(d: Device)  // deleting the device row deletes its shadow rows, but no cached document
    | Report(d: Device, dps: Option<map<string, Json>>, order: seq<string>)
    | Desire(d: Device, dp: int, value: Json)
    | DirectDesire(d: Device, dp: int, value: Json)  // the command handlers write the column themselves
    | Snap(d: Device, full: Json, rssi: int, t: int)
    | Get(d: Device)
    | Expire(d: Device)

  datatype Reply = Done | BadPayload | DbError | Found(doc: Doc)

  /** The walk over a report's entries is a walk over all of them. */
  predicate ValidEvent(e: Event) {
    e.Report? && e.dps.Some? ==> IsOrder(e.order, e.dps.value)
  }

  /** The upserts of a report. */
  function BatchOf(e: Event): seq<Entry>
    requires ValidEvent(e) && e.Report? && e.dps.Some?
  {
    Queued(DpOf, e.dps.value, e.order)
  }

  function Put(s: State, d: Device, t: Table): State { s.(rows := s.rows[d := t]) }

  function Refresh(s: State, d: Device): State { s.(cache := s.cache[d := Projection(RowsOf(s.rows, d))]) }

  /** One device's rows are written and its document rebuilt from them. */
  function Written(s: State, d: Device, t: Table): State { Refresh(Put(s, d, t), d) }

  function StepReport(s: State, e: Event): (State, Reply)
    requires ValidEvent(e) && e.Report?
  {
    if e.dps.None? then (s, BadPayload)
    else if e.dps.value == map[] then (s, Done)
    else if !Accepted(e.d in s.devices, BatchOf(e)) then (s, DbError)
    else (Written(s, e.d, RunBatch(RowsOf(s.rows, e.d), BatchOf(e))), Done)
  }

  function StepDesire(s: State, d: Device, dp: int, value: Json): (State, Reply) {
    if !Storable(d in s.devices, dp) then (s, DbError)
    else (Written(s, d, PutDesired(RowsOf(s.rows, d), dp, value)), Done)
  }

  function StepGet(s: State, d: Device): (State, Reply) {
    if d in s.cache then (s, Found(s.cache[d])) else (Refresh(s, d), Found(Projection(RowsOf(s.rows, d))))
  }

  function Step(s: State, e: Event): (State, Reply)
    requires ValidEvent(e)
  {
    match e
    case Add(d) => (s.(devices := s.devices + {d}), Done)
    case Remove(d) => (s.(devices := s.devices - {d}, rows := s.rows - {d}), Done)
    case Report(_, _, _) => StepReport(s, e)
    case Desire(d, dp, value) => StepDesire(s, d, dp, value)
    case DirectDesire(d, dp, value) =>
      (if Storable(d in s.devices, dp) then Put(s, d, PutDesired(RowsOf(s.rows, d), dp, value)) else s, Done)
    case Snap(d, full, rssi, t) => (s.(cache := s.cache[d := Snapshot(full, rssi, t)]), Done)
    case Get(d) => StepGet(s, d)
    case Expire(d) => (s.(cache := s.cache - {d}), Done)
  }

  predicate ValidRun(run: seq<Event>) {
    forall i | 0 <= i < |run| :: ValidEvent(run[i])
  }

  function After(run: seq<Event>): State
    requires ValidRun(run)
  {
    if run == [] then Empty else Step(After(run[..|run| - 1]), run[|run| - 1]).0
  }

  // ---------- columns over runs ----------

  /** Whether the device row is there, from the adds and removes alone. */
  predicate Present(run: seq<Event>, d: Device) {
    run != [] &&
      var e := run[|run| - 1];
      if e == Add(d) then true else if e == Remove(d) then false else Present(run[..|run| - 1], d)
  }

  /** Event i is a report of d that is stored. */
  predicate Stored(run: seq<Event>, i: nat, d: Device)
    requires ValidRun(run) && i < |run|
  {
    run[i].Report? && run[i].d == d && run[i].dps.Some? && Accepted(Present(run[..i], d), BatchOf(run[i]))
  }

  /** What report i says, id by id. */
  function Said(run: seq<Event>, i: nat): map<int, Json>
    requires ValidRun(run) && i < |run| && run[i].Report? && run[i].dps.Some?
  {
    DeltaIn(DpOf, run[i].dps.value, run[i].order)
  }

  /** Event i is a stored write of d's desired column. */
  predicate Wished(run: seq<Event>, i: nat, d: Device)
    requires i < |run|
  {
    (run[i].Desire? || run[i].DirectDesire?) && run[i].d == d && Storable(Present(run[..i], d), run[i].dp)
  }

  /** The merge of the stored reports since the device row was last removed. No desired write enters it. */
  function Reports(run: seq<Event>, d: Device): map<int, Json>
    requires ValidRun(run)
  {
    if run == [] then map[]
    else
      var n := |run| - 1;
      if Stored(run, n, d) then Reports(run[..n], d) + Said(run, n)
      else if run[n] == Remove(d) then map[] else Reports(run[..n], d)
  }

  /** The merge of the stored wishes since the device row was last removed. No report enters it. */
  function Wishes(run: seq<Event>, d: Device): map<int, Json> {
    if run == [] then map[]
    else
      var n := |run| - 1;
      if Wished(run, n, d) then Wishes(run[..n], d)[run[n].dp := run[n].value]
      else if run[n] == Remove(d) then map[] else Wishes(run[..n], d)
  }

  lemma {:induction false} PresentIsDevices(run: seq<Event>, d: Device)
    requires ValidRun(run)
    ensures d in After(run).devices <==> Present(run, d)
  {
    if run != [] { PresentIsDevices(run[..|run| - 1], d); }
  }

  /** What one event leaves of its own device's rows. */
  function NewRows(present: bool, t: Table, e: Event): Table
    requires ValidEvent(e)
  {
    if e.Report? then (if e.dps.Some? && Accepted(present, BatchOf(e)) then RunBatch(t, BatchOf(e)) else t)
    else if e.Desire? || e.DirectDesire? then (if Storable(present, e.dp) then PutDesired(t, e.dp, e.value) else t)
    else if e.Remove? then map[] else t
  }

  lemma StepRows(s: State, e: Event, d: Device)
    requires ValidEvent(e)
    ensures RowsOf(Step(s, e).0.rows, d) ==
      if e.d == d then NewRows(d in s.devices, RowsOf(s.rows, d), e) else RowsOf(s.rows, d)
  {
    if e.Report? {
      ReportRows(s, e, d);
    }
  }

  lemma ReportRows(s: State, e: Event, d: Device)
    requires ValidEvent(e) && e.Report?
    ensures RowsOf(StepReport(s, e).0.rows, d) ==
      if e.d == d then NewRows(d in s.devices, RowsOf(s.rows, d), e) else RowsOf(s.rows, d)
  {
    if e.dps == Some(map[]) {
      EmptyReport(RowsOf(s.rows, d), e);
    } else if e.dps.Some? && Accepted(e.d in s.devices, BatchOf(e)) {
      WrittenRows(s, e.d, RunBatch(RowsOf(s.rows, e.d), BatchOf(e)), d);
    }
  }

  lemma WrittenRows(s: State, d: Device, t: Table, e: Device)
    ensures RowsOf(Written(s, d, t).rows, e) == if e == d then t else RowsOf(s.rows, e)
  {
  }

  lemma HeadIsKey(order: seq<string>, dps: map<string, Json>)
    requires IsOrder(order, dps)
    ensures order != [] ==> order[0] in dps
  {
  }

  lemma EmptyReport(t: Table, e: Event)
    requires ValidEvent(e) && e.Report? && e.dps == Some(map[])
    ensures e.order == [] && BatchOf(e) == [] && RunBatch(t, BatchOf(e)) == t
  {
    HeadIsKey(e.order, e.dps.value);
  }

  /** What one event does to the reported column. */
  lemma NewReported(present: bool, t: Table, e: Event)
    requires ValidEvent(e)
    ensures Reported(NewRows(present, t, e)) ==
      if e.Report? && e.dps.Some? && Accepted(present, BatchOf(e)) then Reported(t) + DeltaIn(DpOf, e.dps.value, e.order)
      else if e.Remove? then map[] else Reported(t)
  {
    if e.Report? && e.dps.Some? {
      BatchIsMerge(DpOf, t, e.dps.value, e.order);
      MergeColumns(t, DeltaIn(DpOf, e.dps.value, e.order));
    } else if e.Desire? || e.DirectDesire? {
      PutDesiredColumns(t, e.dp, e.value);
    }
  }

  lemma NewDesired(present: bool, t: Table, e: Event)
    requires ValidEvent(e)
    ensures Desired(NewRows(present, t, e)) ==
      if (e.Desire? || e.DirectDesire?) && Storable(present, e.dp) then Desired(t)[e.dp := e.value]
      else if e.Remove? then map[] else Desired(t)
  {
    if e.Report? && e.dps.Some? {
      BatchIsMerge(DpOf, t, e.dps.value, e.order);
      MergeColumns(t, DeltaIn(DpOf, e.dps.value, e.order));
    } else if e.Desire? || e.DirectDesire? {
      PutDesiredColumns(t, e.dp, e.value);
    }
  }

  /** In every run each column is the right-biased merge of its own writes, whatever the other column was told. */
  lemma {:induction false} ColumnsAreMerges(run: seq<Event>, d: Device)
    requires ValidRun(run)
    ensures Reported(RowsOf(After(run).rows, d)) == Reports(run, d)
    ensures Desired(RowsOf(After(run).rows, d)) == Wishes(run, d)
  {
    if run != [] {
      var n := |run| - 1;
      ColumnsAreMerges(run[..n], d);
      PresentIsDevices(run[..n], d);
      var s := After(run[..n]);
      StepRows(s, run[n], d);
      NewReported(d in s.devices, RowsOf(s.rows, d), run[n]);
      NewDesired(d in s.devices, RowsOf(s.rows, d), run[n]);
    }
  }

  /** Report i is the last to speak of dp, and no removal followed. */
  ghost predicate LastHeard(run: seq<Event>, i: nat, d: Device, dp: int, v: Json)
    requires ValidRun(run) && i < |run|
  {
    && Stored(run, i, d) && dp in Said(run, i) && Said(run, i)[dp] == v
    && forall j | i < j < |run| :: Silent(run, j, d, dp)
  }

  predicate Silent(run: seq<Event>, j: nat, d: Device, dp: int)
    requires ValidRun(run) && j < |run|
  {
    run[j] != Remove(d) && (Stored(run, j, d) ==> dp !in Said(run, j))
  }

  lemma PrefixSame(run: seq<Event>, n: nat, j: nat, d: Device, dp: int)
    requires ValidRun(run) && j < n <= |run|
    ensures ValidRun(run[..n]) && Silent(run[..n], j, d, dp) == Silent(run, j, d, dp) && Stored(run[..n], j, d) == Stored(run, j, d)
  {
    assert run[..n][..j] == run[..j];
  }

  lemma LastHeardInPrefix(run: seq<Event>, i: nat, d: Device, dp: int, v: Json)
    requires ValidRun(run) && i < |run| - 1
    ensures LastHeard(run, i, d, dp, v) <==> Silent(run, |run| - 1, d, dp) && LastHeard(run[..|run| - 1], i, d, dp, v)
  {
    var n := |run| - 1;
    forall j | 0 <= j < n ensures Silent(run[..n], j, d, dp) == Silent(run, j, d, dp) && Stored(run[..n], j, d) == Stored(run, j, d) {
      PrefixSame(run, n, j, d, dp);
    }
  }

  /** A value is reported exactly when the last stored report that names its id, with no removal since, said it. */
  lemma {:induction false} ReportedIsLastHeard(run: seq<Event>, d: Device, dp: int, v: Json)
    requires ValidRun(run)
    ensures dp in Reports(run, d) && Reports(run, d)[dp] == v <==> exists i :: 0 <= i < |run| && LastHeard(run, i, d, dp, v)
  {
    if run != [] {
      var n := |run| - 1;
      ReportedIsLastHeard(run[..n], d, dp, v);
      forall i | 0 <= i < n
        ensures LastHeard(run, i, d, dp, v) <==> Silent(run, n, d, dp) && LastHeard(run[..n], i, d, dp, v)
      {
        LastHeardInPrefix(run, i, d, dp, v);
      }
      if Silent(run, n, d, dp) {
        if i :| 0 <= i < n && LastHeard(run[..n], i, d, dp, v) { assert LastHeard(run, i, d, dp, v); }
      } else if Stored(run, n, d) {
        assert LastHeard(run, n, d, dp, v) <==> Said(run, n)[dp] == v;
      }
    }
  }

  /** Two runs that differ only in the order in which each report's map was walked. */
  ghost predicate SameButOrders(a: seq<Event>, b: seq<Event>) {
    |a| == |b| && forall i | 0 <= i < |a| ::
      if a[i].Report? then b[i].Report? && a[i].d == b[i].d && a[i].dps == b[i].dps else a[i] == b[i]
  }

  predicate Clear(e: Event) {
    e.Report? && e.dps.Some? ==> !Ambiguous(DpOf, e.dps.value)
  }

  lemma {:induction false} EntriesOf(id: string -> int, dps: map<string, Json>, order: seq<string>, present: bool)
    requires forall key | key in order :: key in dps
    ensures Accepted(present, Queued(id, dps, order)) <==> forall key | key in order && id(key) >= 1 :: Storable(present, id(key))
  {
    if order != [] {
      var n := |order| - 1;
      EntriesOf(id, dps, order[..n], present);
      var q, all := Queued(id, dps, order[..n]), Queued(id, dps, order);
      assert forall k | k in order :: k == order[n] || k in order[..n];
      assert forall i | 0 <= i < |q| :: all[i] == q[i];
      if id(order[n]) >= 1 { assert all[|q|] == (id(order[n]), dps[order[n]]); }
    }
  }

  lemma StepUnordered(s: State, a: Event, b: Event)
    requires ValidEvent(a) && ValidEvent(b) && SameButOrders([a], [b]) && Clear(a)
    ensures Step(s, a) == Step(s, b)
  {
    assert [a][0] == a && [b][0] == b;
    if a.Report? && a.dps.Some? {
      EntriesOf(DpOf, a.dps.value, a.order, a.d in s.devices);
      EntriesOf(DpOf, a.dps.value, b.order, a.d in s.devices);
      SameForAllOrders(DpOf, RowsOf(s.rows, a.d), a.dps.value, a.order, b.order);
    }
  }

  /** When no report names an id twice with two values, table, cache and replies do not depend on iteration order. */
  lemma {:induction false} RunsUnordered(a: seq<Event>, b: seq<Event>)
    requires ValidRun(a) && ValidRun(b) && SameButOrders(a, b) && forall i | 0 <= i < |a| :: Clear(a[i])
    ensures After(a) == After(b)
  {
    if a != [] {
      var n := |a| - 1;
      RunsUnordered(a[..n], b[..n]);
      assert SameButOrders([a[n]], [b[n]]);
      StepUnordered(After(a[..n]), a[n], b[n]);
    }
  }

  // ---------- the cached document ----------

  predicate Agrees(s: State, d: Device) {
    d in s.cache ==> s.cache[d] == Projection(RowsOf(s.rows, d))
  }

  /** The writes that leave the cache alone, and the one that leaves the table alone. */
  predicate Bypasses(e: Event, d: Device) {
    e.d == d && (e.DirectDesire? || e.Snap? || e.Remove?)
  }

  /** The event leaves d's document rebuilt, or gone. */
  predicate Rebuilds(s: State, e: Event, d: Device)
    requires ValidEvent(e)
  {
    e.d == d && (e.Expire? || (e.Get? && d !in s.cache) || (e.Desire? && Storable(d in s.devices, e.dp))
      || (e.Report? && e.dps.Some? && e.dps.value != map[] && Accepted(d in s.devices, BatchOf(e))))
  }

  lemma WrittenAgrees(s: State, d: Device, t: Table)
    ensures Agrees(Written(s, d, t), d) && Agrees(Refresh(s, d), d)
  {
  }

  lemma ReportAgrees(s: State, e: Event)
    requires ValidEvent(e) && e.Report? && Rebuilds(s, e, e.d)
    ensures Agrees(StepReport(s, e).0, e.d)
  {
    WrittenAgrees(s, e.d, RunBatch(RowsOf(s.rows, e.d), BatchOf(e)));
  }

  lemma DesireAgrees(s: State, e: Event)
    requires e.Desire? && Rebuilds(s, e, e.d)
    ensures Agrees(StepDesire(s, e.d, e.dp, e.value).0, e.d)
  {
    WrittenAgrees(s, e.d, PutDesired(RowsOf(s.rows, e.d), e.dp, e.value));
  }

  lemma RebuildAgrees(s: State, e: Event, d: Device)
    requires ValidEvent(e) && Rebuilds(s, e, d)
    ensures Agrees(Step(s, e).0, d)
  {
    if e.Report? { ReportAgrees(s, e); }
    if e.Desire? { DesireAgrees(s, e); }
    if e.Get? { WrittenAgrees(s, d, map[]); }
  }

  lemma StepKeepsAgreement(s: State, e: Event, d: Device)
    requires ValidEvent(e) && Agrees(s, d) && !Bypasses(e, d)
    ensures Agrees(Step(s, e).0, d)
  {
  }

  lemma {:induction false} AgreementLasts(run: seq<Event>, k: nat, d: Device)
    requires ValidRun(run) && k <= |run| && Agrees(After(run[..k]), d)
    requires forall i | k <= i < |run| :: !Bypasses(run[i], d)
    ensures Agrees(After(run), d)
  {
    if |run| == k {
      assert run[..k] == run;
    } else {
      var n := |run| - 1;
      assert run[..n][..k] == run[..k];
      AgreementLasts(run[..n], k, d);
      var s' := Step(After(run[..n]), run[n]).0;
      assert Agrees(s', d) by { StepKeepsAgreement(After(run[..n]), run[n], d); }
      assert After(run) == s';
    }
  }

  /**
   * From the start of a run, or from any rebuild in it, up to the next write that goes past the cache, the
   * document is absent or is the table's projection.
   */
  lemma {:induction false} CacheAgrees(run: seq<Event>, k: nat, d: Device)
    requires ValidRun(run) && k <= |run|
    requires k == 0 || Rebuilds(After(run[..k - 1]), run[k - 1], d)
    requires forall i | k <= i < |run| :: !Bypasses(run[i], d)
    ensures Agrees(After(run), d)
  {
    if k > 0 {
      RebuildAgrees(After(run[..k - 1]), run[k - 1], d);
      assert run[..k][..k - 1] == run[..k - 1];
    }
    AgreementLasts(run, k, d);
  }

  /** So GetShadow answers the two merges of the run, printed. */
  lemma GetShadowAnswersTheMerges(run: seq<Event>, k: nat, d: Device)
    requires ValidRun(run) && k <= |run|
    requires k == 0 || Rebuilds(After(run[..k - 1]), run[k - 1], d)
    requires forall i | k <= i < |run| :: !Bypasses(run[i], d)
    ensures var r := Step(After(run), Get(d)).1;
      r.Found? && forall t | Desired(t) == Wishes(run, d) && Reported(t) == Reports(run, d) :: r.doc == Projection(t)
  {
    CacheAgrees(run, k, d);
    ColumnsAreMerges(run, d);
  }

  /** What the caller of a write past the cache could look up first: it changes nothing that a cached document shows. */
  predicate Harmless(present: bool, cached: bool, desired: map<int, Json>, reported: map<int, Json>, e: Event) {
    !e.Snap? && (cached ==>
      && (e.Remove? ==> desired == map[] && reported == map[])
      && (e.DirectDesire? && Storable(present, e.dp) ==> e.dp in desired && desired[e.dp] == e.value))
  }

  lemma StepBypasses(s: State, e: Event, d: Device)
    requires ValidEvent(e) && Agrees(s, d) && Bypasses(e, d)
    ensures var t := RowsOf(s.rows, d);
      Agrees(Step(s, e).0, d) <==> Harmless(d in s.devices, d in s.cache, Desired(t), Reported(t), e)
  {
    var t := RowsOf(s.rows, d);
    ProjectionIsFaithful(t, RowsOf(Step(s, e).0.rows, d));
    if e.DirectDesire? {
      PutDesiredColumns(t, e.dp, e.value);
      SameUpdate(Desired(t), e.dp, e.value);
    }
  }

  lemma SameUpdate(m: map<int, Json>, dp: int, v: Json)
    ensures m[dp := v] == m <==> dp in m && m[dp] == v
  {
    assert m[dp := v][dp] == v;
  }

  /**
   * After any stretch that GetShadowAnswersTheMerges covers, a write past the cache leaves no wrong document exactly
   * when nothing is cached and it is no snapshot, or when it changes nothing: a removal of a device without values,
   * or a wish that is refused or already stands.
   */
  lemma BypassShows(run: seq<Event>, k: nat, e: Event, d: Device)
    requires ValidRun(run) && k <= |run| && ValidEvent(e) && Bypasses(e, d)
    requires k == 0 || Rebuilds(After(run[..k - 1]), run[k - 1], d)
    requires forall i | k <= i < |run| :: !Bypasses(run[i], d)
    ensures Agrees(Step(After(run), e).0, d) <==>
      Harmless(Present(run, d), d in After(run).cache, Wishes(run, d), Reports(run, d), e)
  {
    CacheAgrees(run, k, d);
    ColumnsAreMerges(run, d);
    PresentIsDevices(run, d);
    StepBypasses(After(run), e, d);
  }

  lemma OneMore(run: seq<Event>, e: Event)
    requires ValidRun(run) && ValidEvent(e)
    ensures ValidRun(run + [e]) && After(run + [e]) == Step(After(run), e).0
  {
    assert (run + [e])[..|run|] == run;
  }

  /**
   * In every run: a wish through the service and then another value for the same datapoint past it, and GetShadow
   * answers the document of the first wish, which is not the table's.
   */
  lemma StaleAnswer(run: seq<Event>, d: Device, dp: int, v: Json, w: Json)
    requires ValidRun(run) && Storable(Present(run, d), dp) && v != w
    ensures var through := run + [Desire(d, dp, v)];
      var past := through + [DirectDesire(d, dp, w)];
      && ValidRun(past) && Step(After(past), Get(d)).1 == Found(Projection(RowsOf(After(through).rows, d)))
      && Projection(RowsOf(After(through).rows, d)) != Projection(RowsOf(After(past).rows, d))
      && dp in Desired(RowsOf(After(past).rows, d)) && Desired(RowsOf(After(past).rows, d))[dp] == w
  {
    PresentIsDevices(run, d);
    OneMore(run, Desire(d, dp, v));
    OneMore(run + [Desire(d, dp, v)], DirectDesire(d, dp, w));
    var s := After(run);
    var s1 := Step(s, Desire(d, dp, v)).0;
    WishThrough(s, d, dp, v);
    WishPast(s1, d, dp, w);
    OtherWish(RowsOf(s.rows, d), dp, v, w);
  }

  lemma WishThrough(s: State, d: Device, dp: int, v: Json)
    requires Storable(d in s.devices, dp)
    ensures var s1 := Step(s, Desire(d, dp, v)).0;
      RowsOf(s1.rows, d) == PutDesired(RowsOf(s.rows, d), dp, v) && s1.devices == s.devices
      && d in s1.cache && s1.cache[d] == Projection(PutDesired(RowsOf(s.rows, d), dp, v))
  {
  }

  lemma WishPast(s: State, d: Device, dp: int, w: Json)
    requires Storable(d in s.devices, dp) && d in s.cache
    ensures var s1 := Step(s, DirectDesire(d, dp, w)).0;
      RowsOf(s1.rows, d) == PutDesired(RowsOf(s.rows, d), dp, w) && Step(s1, Get(d)).1 == Found(s.cache[d])
  {
  }

  lemma OtherWish(t: Table, dp: int, v: Json, w: Json)
    requires v != w
    ensures var t1 := PutDesired(t, dp, v);
      var t2 := PutDesired(t1, dp, w);
      Projection(t1) != Projection(t2) && dp in Desired(t2) && Desired(t2)[dp] == w
  {
    var t1 := PutDesired(t, dp, v);
    PutDesiredColumns(t, dp, v);
    PutDesiredColumns(t1, dp, w);
    ProjectionIsFaithful(t1, PutDesired(t1, dp, w));
  }

  // ---------- the service ----------

  class Service {
    var devices: set<Device>
    var rows: map<Device, Table>
    var cache: map<Device, Doc>

    ghost function View(): State
      reads this
    {
      State(devices, rows, cache)
    }

    constructor ()
      ensures View() == Empty
    {
      devices, rows, cache := {}, map[], map[];
    }

    /** The walk over a report's entries, in whatever order the map gives them. */
    method QueueUpserts(dps: map<string, Json>) returns (batch: seq<Entry>, ghost order: seq<string>)
      ensures IsOrder(order, dps) && batch == Queued(DpOf, dps, order)
    {
      batch, order := [], [];
      var todo := dps.Keys;
      while todo != {}
        invariant todo <= dps.Keys
        invariant forall i, j | 0 <= i < j < |order| :: order[i] != order[j]
        invariant forall key | key in dps :: key in order <==> key !in todo
        invariant forall key | key in order :: key in dps
        invariant batch == Queued(DpOf, dps, order)
        decreases |todo|
      {
        var key :| key in todo;
        todo := todo - {key};
        ghost var front := order;
        order := order + [key];
        assert order[..|order| - 1] == front;
        var dp := DpOf(key);
        if dp < 1 {
          assert batch + [] == batch;
          continue;
        }
        batch := batch + [(dp, dps[key])];
      }
    }

    /** Upserts are queued entry by entry, then run as one batch; the ghost result is the order that was taken. */
    method UpdateReported(d: Device, dps: Option<map<string, Json>>) returns (r: Reply, ghost order: seq<string>)
      modifies `rows, `cache
      ensures ValidEvent(Report(d, dps, order)) && (View(), r) == Step(old(View()), Report(d, dps, order))
    {
      if dps.None? { return BadPayload, []; }
      if dps.value == map[] { return Done, []; }
      var batch;
      batch, order := QueueUpserts(dps.value);
      assert batch == BatchOf(Report(d, dps, order));
      if exists i | 0 <= i < |batch| :: !Storable(d in devices, batch[i].0) { return DbError, order; }
      rows := rows[d := RunBatch(RowsOf(rows, d), batch)];
      RefreshCache(d);
      return Done, order;
    }

    method SetDesired(d: Device, dp: int, value: Json) returns (r: Reply)
      modifies `rows, `cache
      ensures (View(), r) == Step(old(View()), Desire(d, dp, value))
    {
      if !Storable(d in devices, dp) { return DbError; }
      rows := rows[d := PutDesired(RowsOf(rows, d), dp, value)];
      RefreshCache(d);
      return Done;
    }

    method HandleShadow(d: Device, full: Json, rssi: int, t: int)
      modifies `cache
      ensures View() == Step(old(View()), Snap(d, full, rssi, t)).0
    {
      cache := cache[d := Snapshot(full, rssi, t)];
    }

    method GetShadow(d: Device) returns (r: Reply)
      modifies `cache
      ensures (View(), r) == Step(old(View()), Get(d))
    {
      if d in cache { return Found(cache[d]); }
      RefreshCache(d);
      return Found(cache[d]);
    }

    /** Rows come in any order; both objects are filled row by row. */
    method RefreshCache(d: Device)
      modifies `cache
      ensures View() == Refresh(old(View()), d)
    {
      ItoaIsInjective();
      var desired, reported := Objects(Decimal.Itoa, RowsOf(rows, d));
      cache := cache[d := Columns(desired, reported)];
    }
  }

  method Objects(text: int -> string, t: Table) returns (desired: map<string, Json>, reported: map<string, Json>)
    requires Injective(text)
    ensures desired == Named(text, Desired(t)) && reported == Named(text, Reported(t))
  {
    desired, reported := map[], map[];
    var todo := t.Keys;
    ghost var done: set<int> := {};
    while todo != {}
      invariant todo <= t.Keys && done == t.Keys - todo
      invariant Shows(text, t, done, desired, reported)
      decreases |todo|
    {
      var dp := AnyOf(todo);
      todo := todo - {dp};
      var key := text(dp);
      OneMoreRow(text, t, done, dp, desired, reported);
      if t[dp].desired.Some? { desired := desired[key := t[dp].desired.value]; }
      if t[dp].reported.Some? { reported := reported[key := t[dp].reported.value]; }
      done := done + {dp};
    }
    WholeTable(t, done);
  }

  ghost predicate Shows(text: int -> string, t: Table, done: set<int>, desired: map<string, Json>, reported: map<string, Json>)
    requires Injective(text)
  {
    desired == Named(text, Desired(Part(t, done))) && reported == Named(text, Reported(Part(t, done)))
  }

  lemma OneMoreRow(text: int -> string, t: Table, done: set<int>, dp: int, desired: map<string, Json>, reported: map<string, Json>)
    requires Injective(text) && dp in t && dp !in done && Shows(text, t, done, desired, reported)
    ensures Shows(text, t, done + {dp},
      if t[dp].desired.Some? then desired[text(dp) := t[dp].desired.value] else desired,
      if t[dp].reported.Some? then reported[text(dp) := t[dp].reported.value] else reported)
  {
    OneMoreDesired(text, t, done, dp);
    OneMoreReported(text, t, done, dp);
  }

  lemma WholeTable(t: Table, done: set<int>)
    requires done == t.Keys
    ensures Part(t, done) == t
  {
  }

  function Part(t: Table, dps: set<int>): Table {
    map dp | dp in t && dp in dps :: t[dp]
  }

  lemma NamedOneMore(text: int -> string, m: map<int, Json>, dp: int, v: Json)
    requires Injective(text)
    ensures Named(text, m[dp := v]) == Named(text, m)[text(dp) := v]
  {
    assert forall e | e in m[dp := v] :: e == dp || e in m;
    forall e | e in m && text(e) == text(dp) ensures e == dp {}
  }

  lemma OneMoreDesired(text: int -> string, t: Table, done: set<int>, dp: int)
    requires Injective(text) && dp in t && dp !in done
    ensures var m, m' := Named(text, Desired(Part(t, done))), Named(text, Desired(Part(t, done + {dp})));
      m' == if t[dp].desired.Some? then m[text(dp) := t[dp].desired.value] else m
  {
    var c, c' := Desired(Part(t, done)), Desired(Part(t, done + {dp}));
    if t[dp].desired.Some? {
      assert c' == c[dp := t[dp].desired.value];
      NamedOneMore(text, c, dp, t[dp].desired.value);
    } else {
      assert c' == c;
    }
  }

  lemma OneMoreReported(text: int -> string, t: Table, done: set<int>, dp: int)
    requires Injective(text) && dp in t && dp !in done
    ensures var m, m' := Named(text, Reported(Part(t, done))), Named(text, Reported(Part(t, done + {dp})));
      m' == if t[dp].reported.Some? then m[text(dp) := t[dp].reported.value] else m
  {
    var c, c' := Reported(Part(t, done)), Reported(Part(t, done + {dp}));
    if t[dp].reported.Some? {
      assert c' == c[dp := t[dp].reported.value];
      NamedOneMore(text, c, dp, t[dp].reported.value);
    } else {
      assert c' == c;
    }
  }
}
