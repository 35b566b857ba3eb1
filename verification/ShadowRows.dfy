// One device's shadow rows: its two columns, the upserts of a report and the document made of them
// (internal/shadow/shadow.go).
module ShadowRows {
  import opened Common
  import opened Decimal

  const MAX_INT32: int := 0x7fff_ffff
  const MIN_INT32: int := -0x8000_0000

  type Json = string

  datatype Row = Row(desired: Option<Json>, reported: Option<Json>)

  type Table = map<int, Row>

  datatype Doc = Columns(desired: map<string, Json>, reported: map<string, Json>) | Snapshot(dps: Json, rssi: int, t: int)

  // ---------- columns and their document ----------

  function Reported(t: Table): map<int, Json> { map dp | dp in t && t[dp].reported.Some? :: t[dp].reported.value }

  function Desired(t: Table): map<int, Json> { map dp | dp in t && t[dp].desired.Some? :: t[dp].desired.value }

  ghost predicate Injective(text: int -> string) {
    forall a, b {:trigger text(a), text(b)} :: text(a) == text(b) ==> a == b
  }

  lemma ItoaIsInjective()
    ensures Injective(Itoa)
  {
    forall a, b | Itoa(a) == Itoa(b) ensures a == b { ItoaInjective(a, b); }
  }

  /** A column as a JSON object: its ids become keys. */
  function Named(text: int -> string, m: map<int, Json>): map<string, Json>
    requires Injective(text)
  {
    map dp | dp in m :: text(dp) := m[dp]
  }

  function Projection(t: Table): Doc {
    ItoaIsInjective();
    Columns(Named(Itoa, Desired(t)), Named(Itoa, Reported(t)))
  }

  lemma NamedAt(text: int -> string, m: map<int, Json>, dp: int)
    requires Injective(text)
    ensures text(dp) in Named(text, m) <==> dp in m
    ensures dp in m ==> Named(text, m)[text(dp)] == m[dp]
  {
    if text(dp) in Named(text, m) {
      var e :| e in m && text(e) == text(dp);
    }
  }

  lemma NamedInjective(text: int -> string, m: map<int, Json>, n: map<int, Json>)
    requires Injective(text)
    ensures Named(text, m) == Named(text, n) <==> m == n
  {
    if Named(text, m) == Named(text, n) {
      forall dp ensures (dp in m <==> dp in n) && (dp in m ==> m[dp] == n[dp]) {
        NamedAt(text, m, dp);
        NamedAt(text, n, dp);
      }
      assert m == n;
    }
  }

  /** The document determines both columns, so whoever reads it reads the table. */
  lemma ProjectionIsFaithful(a: Table, b: Table)
    ensures Projection(a) == Projection(b) <==> Desired(a) == Desired(b) && Reported(a) == Reported(b)
  {
    ItoaIsInjective();
    NamedInjective(Itoa, Desired(a), Desired(b));
    NamedInjective(Itoa, Reported(a), Reported(b));
  }

  // ---------- statements ----------

  function RowAt(t: Table, dp: int): Row { if dp in t then t[dp] else Row(None, None) }

  function PutReported(t: Table, dp: int, v: Json): Table { t[dp := RowAt(t, dp).(reported := Some(v))] }

  function PutDesired(t: Table, dp: int, v: Json): Table { t[dp := RowAt(t, dp).(desired := Some(v))] }

  lemma PutDesiredColumns(t: Table, dp: int, v: Json)
    ensures Desired(PutDesired(t, dp, v)) == Desired(t)[dp := v] && Reported(PutDesired(t, dp, v)) == Reported(t)
  {
  }

  /** The id that a key of a report names; below 1 the entry is skipped. */
  function DpOf(key: string): int {
    var n := Scan(key);
    if n.Some? then n.value else 0
  }

  type Entry = (int, Json)

  /** The upserts queued by one pass over the entries in some order; `id` reads their keys. */
  function Queued(id: string -> int, dps: map<string, Json>, order: seq<string>): seq<Entry>
    requires forall key | key in order :: key in dps
  {
    if order == [] then []
    else
      var n := |order| - 1;
      Queued(id, dps, order[..n]) + (if id(order[n]) < 1 then [] else [(id(order[n]), dps[order[n]])])
  }

  function RunBatch(t: Table, batch: seq<Entry>): Table {
    if batch == [] then t
    else
      var n := |batch| - 1;
      PutReported(RunBatch(t, batch[..n]), batch[n].0, batch[n].1)
  }

  /** Go walks a map in any order. */
  predicate IsOrder(order: seq<string>, dps: map<string, Json>) {
    && (forall i, j | 0 <= i < j < |order| :: order[i] != order[j])
    && (forall key | key in order :: key in dps)
    && (forall key | key in dps :: key in order)
  }

  /** dp_id is an INT column, and a row needs its device. */
  predicate Storable(present: bool, dp: int) {
    present && MIN_INT32 <= dp <= MAX_INT32
  }

  predicate Accepted(present: bool, batch: seq<Entry>) {
    forall i | 0 <= i < |batch| :: Storable(present, batch[i].0)
  }

  // ---------- one report is one merge, whatever the order ----------

  /** Two keys name one id and differ in value. */
  predicate Ambiguous(id: string -> int, dps: map<string, Json>) {
    exists a, b | a in dps && b in dps :: id(a) == id(b) && id(a) >= 1 && dps[a] != dps[b]
  }

  /** What a report says, id by id. */
  function Delta(id: string -> int, dps: map<string, Json>): map<int, Json>
    requires !Ambiguous(id, dps)
  {
    map key | key in dps && id(key) >= 1 :: id(key) := dps[key]
  }

  /** What a report says when its entries are taken in some order, the last one winning. */
  function DeltaIn(id: string -> int, dps: map<string, Json>, order: seq<string>): map<int, Json>
    requires forall key | key in order :: key in dps
  {
    if order == [] then map[]
    else
      var n := |order| - 1;
      var before := DeltaIn(id, dps, order[..n]);
      if id(order[n]) < 1 then before else before[id(order[n]) := dps[order[n]]]
  }

  /** The right-biased merge of a delta into the reported column. */
  function Merge(t: Table, delta: map<int, Json>): Table {
    map dp | dp in t.Keys + delta.Keys ::
      if dp in delta then RowAt(t, dp).(reported := Some(delta[dp])) else RowAt(t, dp)
  }

  lemma MergeColumns(t: Table, delta: map<int, Json>)
    ensures Reported(Merge(t, delta)) == Reported(t) + delta && Desired(Merge(t, delta)) == Desired(t)
  {
  }

  lemma MergeOne(t: Table, delta: map<int, Json>, dp: int, v: Json)
    ensures Merge(t, delta[dp := v]) == PutReported(Merge(t, delta), dp, v)
  {
  }

  lemma {:induction false} BatchIsMerge(id: string -> int, t: Table, dps: map<string, Json>, order: seq<string>)
    requires forall key | key in order :: key in dps
    ensures RunBatch(t, Queued(id, dps, order)) == Merge(t, DeltaIn(id, dps, order))
  {
    if order != [] {
      var n := |order| - 1;
      BatchIsMerge(id, t, dps, order[..n]);
      var q := Queued(id, dps, order[..n]);
      if id(order[n]) < 1 {
        assert q + [] == q;
      } else {
        assert (q + [(id(order[n]), dps[order[n]])])[..|q|] == q;
        MergeOne(t, DeltaIn(id, dps, order[..n]), id(order[n]), dps[order[n]]);
      }
    } else {
      assert Merge(t, map[]) == t;
    }
  }

  /** In an unambiguous report each id has the value of any of its keys. */
  lemma {:induction false} DeltaInHas(id: string -> int, dps: map<string, Json>, order: seq<string>, key: string)
    requires forall k | k in order :: k in dps
    requires !Ambiguous(id, dps) && key in order && id(key) >= 1
    ensures id(key) in DeltaIn(id, dps, order) && DeltaIn(id, dps, order)[id(key)] == dps[key]
  {
    var n := |order| - 1;
    if key != order[n] {
      assert key in order[..n];
      DeltaInHas(id, dps, order[..n], key);
    }
  }

  lemma {:induction false} DeltaInFrom(id: string -> int, dps: map<string, Json>, order: seq<string>, dp: int) returns (key: string)
    requires (forall k | k in order :: k in dps) && dp in DeltaIn(id, dps, order)
    ensures key in order && id(key) == dp >= 1
  {
    var n := |order| - 1;
    if dp in DeltaIn(id, dps, order[..n]) { key := DeltaInFrom(id, dps, order[..n], dp); } else { key := order[n]; }
  }

  lemma DeltaInIsDelta(id: string -> int, dps: map<string, Json>, order: seq<string>)
    requires IsOrder(order, dps) && !Ambiguous(id, dps)
    ensures DeltaIn(id, dps, order) == Delta(id, dps)
  {
    var m, n := DeltaIn(id, dps, order), Delta(id, dps);
    forall dp | dp in m ensures dp in n && n[dp] == m[dp] {
      var key := DeltaInFrom(id, dps, order, dp);
      DeltaInHas(id, dps, order, key);
    }
    forall dp | dp in n ensures dp in m {
      var key :| key in dps && id(key) == dp >= 1;
      DeltaInHas(id, dps, order, key);
    }
    assert m.Keys == n.Keys;
  }

  lemma {:induction false} SomeOrder(keys: set<string>) returns (order: seq<string>)
    ensures (forall i, j | 0 <= i < j < |order| :: order[i] != order[j]) && (forall key :: key in order <==> key in keys)
    decreases |keys|
  {
    if keys == {} { order := []; }
    else {
      var key :| key in keys;
      order := SomeOrder(keys - {key});
      order := order + [key];
    }
  }

  lemma LastEntry(id: string -> int, dps: map<string, Json>, rest: seq<string>, key: string)
    requires (forall k | k in rest + [key] :: k in dps) && id(key) >= 1
    ensures id(key) in DeltaIn(id, dps, rest + [key]) && DeltaIn(id, dps, rest + [key])[id(key)] == dps[key]
  {
    assert (rest + [key])[..|rest|] == rest;
    assert forall k | k in rest :: k in rest + [key];
  }

  lemma OrderOf(dps: map<string, Json>, rest: seq<string>, a: string, b: string)
    requires a in dps && b in dps && a != b
    requires (forall i, j | 0 <= i < j < |rest| :: rest[i] != rest[j]) && (forall key :: key in rest <==> key in dps.Keys - {a, b})
    ensures IsOrder((rest + [a]) + [b], dps)
  {
    var o := (rest + [a]) + [b];
    assert o[|rest|] == a && o[|rest| + 1] == b;
    assert forall i | 0 <= i < |rest| :: o[i] == rest[i] && rest[i] in rest;
    forall key | key in dps ensures key in o {
      if key != a && key != b { assert key in rest; }
    }
  }

  /** Two orders of an ambiguous report that leave different columns. */
  lemma AmbiguityShows(id: string -> int, dps: map<string, Json>) returns (o: seq<string>, p: seq<string>)
    requires Ambiguous(id, dps)
    ensures IsOrder(o, dps) && IsOrder(p, dps) && DeltaIn(id, dps, o) != DeltaIn(id, dps, p)
  {
    var a, b :| a in dps && b in dps && id(a) == id(b) && id(a) >= 1 && dps[a] != dps[b];
    var rest := SomeOrder(dps.Keys - {a, b});
    o, p := (rest + [a]) + [b], (rest + [b]) + [a];
    OrderOf(dps, rest, a, b);
    OrderOf(dps, rest, b, a);
    LastEntry(id, dps, rest + [a], b);
    LastEntry(id, dps, rest + [b], a);
  }

  lemma SameForAllOrders(id: string -> int, t: Table, dps: map<string, Json>, o: seq<string>, p: seq<string>)
    requires !Ambiguous(id, dps) && IsOrder(o, dps) && IsOrder(p, dps)
    ensures RunBatch(t, Queued(id, dps, o)) == RunBatch(t, Queued(id, dps, p)) == Merge(t, Delta(id, dps))
  {
    BatchIsMerge(id, t, dps, o);
    BatchIsMerge(id, t, dps, p);
    DeltaInIsDelta(id, dps, o);
    DeltaInIsDelta(id, dps, p);
  }

  lemma DifferentForSomeOrders(id: string -> int, t: Table, dps: map<string, Json>) returns (o: seq<string>, p: seq<string>)
    requires Ambiguous(id, dps) && t == map[]
    ensures IsOrder(o, dps) && IsOrder(p, dps) && RunBatch(t, Queued(id, dps, o)) != RunBatch(t, Queued(id, dps, p))
  {
    o, p := AmbiguityShows(id, dps);
    BatchIsMerge(id, t, dps, o);
    BatchIsMerge(id, t, dps, p);
    MergeIntoEmpty(DeltaIn(id, dps, o));
    MergeIntoEmpty(DeltaIn(id, dps, p));
  }

  lemma MergeIntoEmpty(delta: map<int, Json>)
    ensures Reported(Merge(map[], delta)) == delta
  {
    MergeColumns(map[], delta);
    assert Reported(map[]) + delta == delta;
  }

  /** Map iteration order is never seen exactly when no two keys name one id with two values. */
  lemma OrderUnseenExactly(id: string -> int, dps: map<string, Json>)
    ensures (forall o, p, t | IsOrder(o, dps) && IsOrder(p, dps) ::
               RunBatch(t, Queued(id, dps, o)) == RunBatch(t, Queued(id, dps, p))) <==> !Ambiguous(id, dps)
  {
    if Ambiguous(id, dps) {
      var o, p := DifferentForSomeOrders(id, map[], dps);
    } else {
      forall o, p, t | IsOrder(o, dps) && IsOrder(p, dps)
        ensures RunBatch(t, Queued(id, dps, o)) == RunBatch(t, Queued(id, dps, p))
      {
        SameForAllOrders(id, t, dps, o, p);
      }
    }
  }

  /** The text of a positive id of 64 bits, without a leading zero. */
  predicate IsIdText(key: string) {
    IsCanonical(key) && 1 <= Value(key) <= MAX_INT64
  }

  /** Such a text is read as the number it writes, and printed back. */
  lemma IdTextIsRead(key: string)
    requires IsIdText(key)
    ensures DpOf(key) == Value(key) && Itoa(DpOf(key)) == key
  {
    PrintsExactly(key);
    var n: nat :| Print(n) == key;
    ValueOfPrint(n);
    ScanOfItoa(n, "");
    assert key + "" == key;
  }

  /** Canonical keys are read as what they print, so they never clash. */
  lemma CanonicalIsUnambiguous(dps: map<string, Json>)
    requires forall key | key in dps :: IsIdText(key)
    ensures !Ambiguous(DpOf, dps)
    ensures forall key | key in dps :: Itoa(DpOf(key)) == key
  {
    forall key | key in dps ensures Itoa(DpOf(key)) == key { IdTextIsRead(key); }
  }

  /**
   * A report that says an id twice, once with a zero in front, with two values: whatever was there before, the table
   * ends with the value of the entry that Go's map gave last.
   */
  lemma AliasesClash(t: Table, n: nat, v: Json, w: Json)
    requires 1 <= n <= MAX_INT64 && v != w
    ensures var (key, alias) := (Print(n), "0" + Print(n));
      var dps := map[key := v, alias := w];
      && Ambiguous(DpOf, dps) && IsOrder([key, alias], dps) && IsOrder([alias, key], dps)
      && Reported(RunBatch(t, Queued(DpOf, dps, [key, alias]))) == Reported(t)[n := w]
      && Reported(RunBatch(t, Queued(DpOf, dps, [alias, key]))) == Reported(t)[n := v]
  {
    var key, alias := Print(n), "0" + Print(n);
    var dps := map[key := v, alias := w];
    ScanOfPrint(n, "");
    assert key + "" == key;
    ScanAliases(n);
    hide Scan, RunBatch, Queued, Reported;
    assert |alias| == |key| + 1;
    TwoKeysClash(t, DpOf, key, alias, n, v, w);
  }

  lemma TwoKeysClash(t: Table, id: string -> int, a: string, b: string, n: int, v: Json, w: Json)
    requires a != b && v != w && id(a) == n == id(b) && n >= 1
    ensures var dps := map[a := v, b := w];
      && Ambiguous(id, dps) && IsOrder([a, b], dps) && IsOrder([b, a], dps)
      && Reported(RunBatch(t, Queued(id, dps, [a, b]))) == Reported(t)[n := w]
      && Reported(RunBatch(t, Queued(id, dps, [b, a]))) == Reported(t)[n := v]
  {
    hide RunBatch, Queued, Reported;
    var dps := map[a := v, b := w];
    assert a in dps && b in dps && dps[a] != dps[b];
    TwoEntries(t, id, dps, a, b, n);
    TwoEntries(t, id, dps, b, a, n);
  }

  lemma TwoEntries(t: Table, id: string -> int, dps: map<string, Json>, a: string, b: string, n: int)
    requires a in dps && b in dps && id(a) == n == id(b) && n >= 1
    ensures Reported(RunBatch(t, Queued(id, dps, [a, b]))) == Reported(t)[n := dps[b]]
  {
    BatchIsMerge(id, t, dps, [a, b]);
    assert [a, b][..1] == [a] && [a][..0] == [];
    assert DeltaIn(id, dps, [a]) == map[n := dps[a]];
    assert DeltaIn(id, dps, [a, b]) == map[n := dps[b]];
    MergeColumns(t, map[n := dps[b]]);
  }
}
