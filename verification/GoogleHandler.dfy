// The EXECUTE intent: one answer per command of the request (internal/google/handler.go), over the two
// map-filling loops of internal/google/mapper.go.
module GoogleHandler {
  import opened Common
  import opened Google

  // ---------- the mapper's loops ----------

  method DPSToState(caps: seq<Cap>, dps: Dps, online: bool) returns (state: View)
    ensures state == StateOf(caps, dps, online)
  {
    state := map[Online := Flag(online), Status := Text("SUCCESS")];
    for i := 0 to |caps|
      invariant state == StateOf(caps[..i], dps, online)
    {
      var c := caps[i];
      assert caps[..i + 1][..i] == caps[..i] && caps[..i + 1][i] == c;
      if c.dp !in dps {
        assert state + map[] == state;
        continue;
      }
      state := state + Shows(c.kind, dps[c.dp]);
    }
    assert caps[..|caps|] == caps;
  }

  method ExecuteCommandToDPS(e: Exec, caps: seq<Cap>) returns (dps: Dps)
    ensures dps == CommandToDps(e, caps)
  {
    var kindDp: map<Kind, string> := map[];
    for i := 0 to |caps|
      invariant forall k :: (k in kindDp <==> DpOf(caps[..i], k).Some?) && (k in kindDp ==> DpOf(caps[..i], k) == Some(kindDp[k]))
    {
      assert caps[..i + 1][..i] == caps[..i] && caps[..i + 1][i] == caps[i];
      kindDp := kindDp[caps[i].kind := caps[i].dp];
    }
    assert caps[..|caps|] == caps;
    dps := map[];
    var aim, k := Aim(e), MainKind(e.command);
    if k in aim && k in kindDp { dps := dps[kindDp[k] := aim[k]]; }
    if ColourTemp in aim && ColourTemp in kindDp { dps := dps[kindDp[ColourTemp] := aim[ColourTemp]]; }
  }

  // ---------- the request and its answer ----------

  /** What the service says of a device while the request runs; `refused` are the executions whose SendCommand fails. */
  datatype Answer = NotOwned | Offline | Reachable(caps: seq<Cap>, reported: Dps, refused: set<nat>)

  datatype Target = Target(id: string, answer: Answer)

  datatype Request = Request(targets: seq<Target>, execs: seq<Exec>)

  datatype Result = Succeeded(ids: seq<string>, state: View) | WentOffline(ids: seq<string>) | Failed(ids: seq<string>, code: string)

  const NOT_FOUND := "deviceNotFound"
  const HARD_ERROR := "hardError"

  function ReachedIds(ts: seq<Target>): seq<string> {
    if ts == [] then []
    else ReachedIds(ts[..|ts| - 1]) + (if ts[|ts| - 1].answer.Reachable? then [ts[|ts| - 1].id] else [])
  }

  function OfflineIds(ts: seq<Target>): seq<string> {
    if ts == [] then []
    else OfflineIds(ts[..|ts| - 1]) + (if ts[|ts| - 1].answer.Offline? then [ts[|ts| - 1].id] else [])
  }

  /** An execution that writes nothing is not sent. */
  predicate Refused(a: Answer, execs: seq<Exec>, i: nat)
    requires a.Reachable? && i < |execs|
  {
    i in a.refused && CommandToDps(execs[i], a.caps) != map[]
  }

  /** How many of the first n executions were sent and refused. */
  function RefusedSends(a: Answer, execs: seq<Exec>, n: nat): nat
    requires a.Reachable? && n <= |execs|
  {
    if n == 0 then 0 else RefusedSends(a, execs, n - 1) + if Refused(a, execs, n - 1) then 1 else 0
  }

  function Copies(id: string, n: nat): seq<string> { seq(n, _ => id) }

  function ErrorsOf(t: Target, execs: seq<Exec>): seq<string> {
    match t.answer
    case NotOwned => [t.id]
    case Offline => []
    case Reachable(_, _, _) => Copies(t.id, RefusedSends(t.answer, execs, |execs|))
  }

  function ErrorIds(ts: seq<Target>, execs: seq<Exec>): seq<string> {
    if ts == [] then [] else ErrorIds(ts[..|ts| - 1], execs) + ErrorsOf(ts[|ts| - 1], execs)
  }

  function LastError(ts: seq<Target>, execs: seq<Exec>): string {
    if ts == [] then ""
    else if ErrorsOf(ts[|ts| - 1], execs) == [] then LastError(ts[..|ts| - 1], execs)
    else if ts[|ts| - 1].answer.NotOwned? then NOT_FOUND else HARD_ERROR
  }

  function LastState(ts: seq<Target>, execs: seq<Exec>): View {
    if ts == [] then map[]
    else
      var a := ts[|ts| - 1].answer;
      if a.Reachable? then Optimistic(a.caps, a.reported, execs) else LastState(ts[..|ts| - 1], execs)
  }

  function ResultsOf(q: Request): seq<Result> {
    var ids, off, bad := ReachedIds(q.targets), OfflineIds(q.targets), ErrorIds(q.targets, q.execs);
    (if ids != [] then [Succeeded(ids, LastState(q.targets, q.execs))] else [])
    + (if off != [] then [WentOffline(off)] else [])
    + (if bad != [] then [Failed(bad, LastError(q.targets, q.execs))] else [])
  }

  function AllResults(qs: seq<Request>): seq<Result> {
    if qs == [] then [] else AllResults(qs[..|qs| - 1]) + ResultsOf(qs[|qs| - 1])
  }

  /** The sends of one reachable device. */
  method SendAll(id: string, a: Answer, execs: seq<Exec>, errorIds: seq<string>, lastError: string)
    returns (ids: seq<string>, error: string)
    requires a.Reachable?
    ensures ids == errorIds + Copies(id, RefusedSends(a, execs, |execs|))
    ensures error == if RefusedSends(a, execs, |execs|) > 0 then HARD_ERROR else lastError
  {
    ids, error := errorIds, lastError;
    for i := 0 to |execs|
      invariant ids == errorIds + Copies(id, RefusedSends(a, execs, i))
      invariant error == if RefusedSends(a, execs, i) > 0 then HARD_ERROR else lastError
    {
      var dps := ExecuteCommandToDPS(execs[i], a.caps);
      if |dps| == 0 {
        assert !Refused(a, execs, i);
        continue;
      }
      assert dps != map[];
      if i in a.refused {
        ids := ids + [id];
        error := HARD_ERROR;
        continue;
      }
    }
  }

  /** The state answered for one device: its reported datapoints overwritten, execution by execution. */
  method BuildState(a: Answer, execs: seq<Exec>) returns (state: View)
    requires a.Reachable?
    ensures state == Optimistic(a.caps, a.reported, execs)
  {
    var dps := a.reported;
    for i := 0 to |execs|
      invariant dps == Merged(a.reported, execs[..i], a.caps)
    {
      assert execs[..i + 1][..i] == execs[..i] && execs[..i + 1][i] == execs[i];
      var more := ExecuteCommandToDPS(execs[i], a.caps);
      dps := dps + more;
    }
    assert execs[..|execs|] == execs;
    state := DPSToState(a.caps, dps, true);
  }

  /** The lists and last values that one command's devices leave behind. */
  datatype Tally = Tally(reached: seq<string>, offline: seq<string>, errors: seq<string>, state: View, error: string)

  function TallyOf(ts: seq<Target>, execs: seq<Exec>): Tally {
    Tally(ReachedIds(ts), OfflineIds(ts), ErrorIds(ts, execs), LastState(ts, execs), LastError(ts, execs))
  }

  method AnswerDevice(dev: Target, execs: seq<Exec>, sofar: Tally) returns (t: Tally)
    ensures t.reached == sofar.reached + (if dev.answer.Reachable? then [dev.id] else [])
    ensures t.offline == sofar.offline + (if dev.answer.Offline? then [dev.id] else [])
    ensures t.errors == sofar.errors + ErrorsOf(dev, execs)
    ensures t.state == if dev.answer.Reachable? then Optimistic(dev.answer.caps, dev.answer.reported, execs) else sofar.state
    ensures t.error == if ErrorsOf(dev, execs) == [] then sofar.error else if dev.answer.NotOwned? then NOT_FOUND else HARD_ERROR
  {
    if dev.answer.NotOwned? { return sofar.(errors := sofar.errors + [dev.id], error := NOT_FOUND); }
    if dev.answer.Offline? { return sofar.(offline := sofar.offline + [dev.id]); }
    var errorIds, lastError := SendAll(dev.id, dev.answer, execs, sofar.errors, sofar.error);
    var state := BuildState(dev.answer, execs);
    return Tally(sofar.reached + [dev.id], sofar.offline, errorIds, state, lastError);
  }

  lemma NextTally(ts: seq<Target>, execs: seq<Exec>)
    requires ts != []
    ensures var n := |ts| - 1;
      var (t, t', dev) := (TallyOf(ts[..n], execs), TallyOf(ts, execs), ts[n]);
      && t'.reached == t.reached + (if dev.answer.Reachable? then [dev.id] else [])
      && t'.offline == t.offline + (if dev.answer.Offline? then [dev.id] else [])
      && t'.errors == t.errors + ErrorsOf(dev, execs)
      && (t'.state == if dev.answer.Reachable? then Optimistic(dev.answer.caps, dev.answer.reported, execs) else t.state)
      && (t'.error == if ErrorsOf(dev, execs) == [] then t.error else if dev.answer.NotOwned? then NOT_FOUND else HARD_ERROR)
  {
    hide Optimistic, ErrorsOf;
  }

  method AnswerOne(q: Request) returns (results: seq<Result>)
    ensures results == ResultsOf(q)
  {
    var t := Tally([], [], [], map[], "");
    var ts := q.targets;
    assert t == TallyOf([], q.execs);
    hide Optimistic, ErrorsOf, ReachedIds, OfflineIds, ErrorIds, LastState, LastError;
    for i := 0 to |ts|
      invariant t == TallyOf(ts[..i], q.execs)
    {
      assert ts[..i + 1][..i] == ts[..i] && ts[..i + 1][i] == ts[i];
      NextTally(ts[..i + 1], q.execs);
      t := AnswerDevice(ts[i], q.execs, t);
    }
    assert ts[..|ts|] == ts;
    results := [];
    if t.reached != [] { results := results + [Succeeded(t.reached, t.state)]; }
    if t.offline != [] { results := results + [WentOffline(t.offline)]; }
    if t.errors != [] { results := results + [Failed(t.errors, t.error)]; }
  }

  method HandleExecute(qs: seq<Request>) returns (results: seq<Result>)
    ensures results == AllResults(qs)
  {
    results := [];
    for i := 0 to |qs|
      invariant results == AllResults(qs[..i])
    {
      assert qs[..i + 1][..i] == qs[..i] && qs[..i + 1][i] == qs[i];
      var more := AnswerOne(qs[i]);
      results := results + more;
    }
    assert qs[..|qs|] == qs;
  }

  // ---------- what an answer says ----------

  /** Device j is the last that was reached. */
  predicate LastReached(ts: seq<Target>, j: nat)
    requires j < |ts|
  {
    ts[j].answer.Reachable? && forall l | j < l < |ts| :: !ts[l].answer.Reachable?
  }

  lemma {:induction false} LastStateIs(ts: seq<Target>, execs: seq<Exec>, j: nat)
    requires j < |ts| && LastReached(ts, j)
    ensures LastState(ts, execs) == Optimistic(ts[j].answer.caps, ts[j].answer.reported, execs)
  {
    if j < |ts| - 1 { LastStateIs(ts[..|ts| - 1], execs, j); }
  }

  lemma {:induction false} ReachedIsListed(ts: seq<Target>, i: nat)
    requires i < |ts| && ts[i].answer.Reachable?
    ensures ts[i].id in ReachedIds(ts)
  {
    if i < |ts| - 1 { ReachedIsListed(ts[..|ts| - 1], i); }
  }

  /** On this device an EXECUTE shows of kind k what ExecuteShowsExactly says it should. */
  ghost predicate Clean(a: Answer, k: Kind) {
    a.Reachable? && Alone(a.caps, k) && !Crossed(a.caps, k)
  }

  /**
   * One success entry lists every reached device, even one whose every command was refused, and the state in it
   * is that of the last of them alone: each kind shows the last value aimed at it, or that device's report.
   */
  lemma SuccessSpeaksForTheLastDevice(q: Request, i: nat, j: nat, k: Kind, f: Field)
    requires i < |q.targets| && q.targets[i].answer.Reachable? && j < |q.targets| && LastReached(q.targets, j)
    requires Clean(q.targets[j].answer, k) && f in Fields(k)
    ensures var rs, a := ResultsOf(q), q.targets[j].answer;
      && rs != [] && rs[0].Succeeded? && q.targets[i].id in rs[0].ids
      && Lookup(rs[0].state, f) ==
           if DpOf(a.caps, k).Some? && LastAimed(q.execs, k).Some? then Lookup(Shows(k, LastAimed(q.execs, k).value), f)
           else Lookup(StateOf(a.caps, a.reported, true), f)
  {
    ReachedIsListed(q.targets, i);
    LastStateIs(q.targets, q.execs, j);
    UncrossedShowsTheLast(q.targets[j].answer.caps, q.targets[j].answer.reported, q.execs, k, f);
  }

  /** Of two devices: both or neither have the kind that was aimed at, or nothing was and they reported the same. */
  predicate SameForBoth(a: Answer, b: Answer, execs: seq<Exec>, k: Kind, f: Field)
    requires a.Reachable? && b.Reachable?
  {
    if LastAimed(execs, k).Some? then DpOf(a.caps, k).Some? == DpOf(b.caps, k).Some?
    else Lookup(StateOf(a.caps, a.reported, true), f) == Lookup(StateOf(b.caps, b.reported, true), f)
  }

  lemma SameShownExactly(a: Answer, b: Answer, execs: seq<Exec>, k: Kind, f: Field)
    requires Clean(a, k) && Clean(b, k) && f in Fields(k)
    ensures Lookup(Optimistic(a.caps, a.reported, execs), f) == Lookup(Optimistic(b.caps, b.reported, execs), f)
      <==> SameForBoth(a, b, execs, k, f)
  {
    hide Optimistic, StateOf, Shows, Alone, Crossed;
    UncrossedShowsTheLast(a.caps, a.reported, execs, k, f);
    UncrossedShowsTheLast(b.caps, b.reported, execs, k, f);
    if LastAimed(execs, k).Some? {
      AimedShows(execs, k);
      if DpOf(a.caps, k).None? { WithoutShowsNothing(a.caps, a.reported, k, f); }
      if DpOf(b.caps, k).None? { WithoutShowsNothing(b.caps, b.reported, k, f); }
    }
  }

  /** What the success entry says of a kind is true of device i exactly when it is the same for i and the last reached. */
  lemma SuccessTrueExactly(q: Request, i: nat, j: nat, k: Kind, f: Field)
    requires i < |q.targets| && j < |q.targets| && LastReached(q.targets, j)
    requires Clean(q.targets[i].answer, k) && Clean(q.targets[j].answer, k) && f in Fields(k)
    ensures var rs, a := ResultsOf(q), q.targets[i].answer;
      && rs != [] && rs[0].Succeeded? && q.targets[i].id in rs[0].ids
      && (Lookup(rs[0].state, f) == Lookup(Optimistic(a.caps, a.reported, q.execs), f)
          <==> SameForBoth(a, q.targets[j].answer, q.execs, k, f))
  {
    ReachedIsListed(q.targets, i);
    LastStateIs(q.targets, q.execs, j);
    SameShownExactly(q.targets[i].answer, q.targets[j].answer, q.execs, k, f);
  }

  function Lamp(x: int): Answer {
    Reachable([Cap(Power, "1"), Cap(Brightness, "2")], map["2" := Num(x as real)], {})
  }

  lemma LampShows(x: int)
    ensures Clean(Lamp(x), Brightness) && Lookup(StateOf(Lamp(x).caps, Lamp(x).reported, true), Level) == Some(Count(x))
  {
    var caps := Lamp(x).caps;
    DistinctIsUncrossed(caps, Brightness);
    OnlyColoursShare(caps, Brightness);
    TruncInt(x);
    assert caps[..1] == [Cap(Power, "1")] && caps[..1][..0] == [];
  }

  lemma LampAfter(p: Params, x: int)
    ensures Lookup(Optimistic(Lamp(x).caps, Lamp(x).reported, [Exec(OnOff, p)]), Level) == Some(Count(x))
    ensures RefusedSends(Lamp(x), [Exec(OnOff, p)], 1) == 0
  {
    var execs := [Exec(OnOff, p)];
    LampShows(x);
    UncrossedShowsTheLast(Lamp(x).caps, Lamp(x).reported, execs, Brightness, Level);
    assert execs[..0] == [] && LastAimed(execs, Brightness).None?;
    assert RefusedSends(Lamp(x), execs, 1) == RefusedSends(Lamp(x), execs, 0);
  }

  /** Two devices that were reached and refused nothing. */
  lemma BothReached(x: Target, y: Target, execs: seq<Exec>)
    requires x.answer.Reachable? && RefusedSends(x.answer, execs, |execs|) == 0
    requires y.answer.Reachable? && RefusedSends(y.answer, execs, |execs|) == 0
    ensures ResultsOf(Request([x, y], execs)) == [Succeeded([x.id, y.id], Optimistic(y.answer.caps, y.answer.reported, execs))]
  {
    hide Optimistic, RefusedSends, LastError;
    var ts := [x, y];
    assert ts[..1] == [x] && [x][..0] == [];
    assert ReachedIds([x]) == [x.id] && OfflineIds([x]) == [] && ErrorIds([x], execs) == [];
    assert ReachedIds(ts) == [x.id, y.id] && OfflineIds(ts) == [] && ErrorIds(ts, execs) == [];
  }

  /** Two lamps are switched on together: the answer gives both the brightness of the second. */
  lemma SuccessMisstates(p: Params, x: int, y: int)
    ensures var q := Request([Target("a", Lamp(x)), Target("b", Lamp(y))], [Exec(OnOff, p)]);
      var rs := ResultsOf(q);
      && |rs| == 1 && rs[0].Succeeded? && rs[0].ids == ["a", "b"] && Lookup(rs[0].state, Level) == Some(Count(y))
      && Lookup(Optimistic(Lamp(x).caps, Lamp(x).reported, q.execs), Level) == Some(Count(x))
  {
    hide Optimistic, ResultsOf;
    LampAfter(p, x);
    LampAfter(p, y);
    BothReached(Target("a", Lamp(x)), Target("b", Lamp(y)), [Exec(OnOff, p)]);
  }

  // ---------- one device in two entries ----------

  predicate WasReached(ts: seq<Target>, id: string) {
    exists i | 0 <= i < |ts| :: ts[i].id == id && ts[i].answer.Reachable?
  }

  predicate SomeRefused(a: Answer, execs: seq<Exec>)
    requires a.Reachable?
  {
    exists n | 0 <= n < |execs| :: Refused(a, execs, n)
  }

  /** The device was not found, or was reached and refused something it was sent. */
  predicate HadError(ts: seq<Target>, execs: seq<Exec>, id: string) {
    exists i | 0 <= i < |ts| :: ts[i].id == id && GivesError(ts[i].answer, execs)
  }

  predicate GivesError(a: Answer, execs: seq<Exec>) {
    a.NotOwned? || (a.Reachable? && SomeRefused(a, execs))
  }

  lemma {:induction false} ReachedExactly(ts: seq<Target>, id: string)
    ensures id in ReachedIds(ts) <==> WasReached(ts, id)
  {
    if ts != [] {
      var n := |ts| - 1;
      ReachedExactly(ts[..n], id);
      if WasReached(ts, id) {
        var i :| 0 <= i < |ts| && ts[i].id == id && ts[i].answer.Reachable?;
        assert i == n || ts[..n][i] == ts[i];
      }
    }
  }

  lemma {:induction false} RefusedSendsExactly(a: Answer, execs: seq<Exec>, n: nat)
    requires a.Reachable? && n <= |execs|
    ensures RefusedSends(a, execs, n) > 0 <==> exists m | 0 <= m < n :: Refused(a, execs, m)
  {
    if n > 0 { RefusedSendsExactly(a, execs, n - 1); }
  }

  lemma ErrorsOfExactly(t: Target, execs: seq<Exec>, id: string)
    ensures id in ErrorsOf(t, execs) <==> t.id == id && GivesError(t.answer, execs)
  {
    if t.answer.Reachable? {
      RefusedSendsExactly(t.answer, execs, |execs|);
      if RefusedSends(t.answer, execs, |execs|) > 0 { assert ErrorsOf(t, execs)[0] == t.id; }
    }
  }

  lemma {:induction false} ErrorsExactly(ts: seq<Target>, execs: seq<Exec>, id: string)
    ensures id in ErrorIds(ts, execs) <==> HadError(ts, execs, id)
  {
    if ts != [] {
      var n := |ts| - 1;
      ErrorsExactly(ts[..n], execs, id);
      ErrorsOfExactly(ts[n], execs, id);
      if HadError(ts, execs, id) {
        var i :| 0 <= i < |ts| && ts[i].id == id && GivesError(ts[i].answer, execs);
        assert i == n || ts[..n][i] == ts[i];
      }
    }
  }

  /**
   * A device stands in the success entry exactly when it was reached, and in the error entry exactly when it was not
   * found or refused something: in both when it was reached and refused something, even everything.
   */
  lemma EntriesExactly(q: Request, id: string)
    ensures var rs := ResultsOf(q);
      && ((exists r | r in rs :: r.Succeeded? && id in r.ids) <==> WasReached(q.targets, id))
      && ((exists r | r in rs :: r.Failed? && id in r.ids) <==> HadError(q.targets, q.execs, id))
  {
    hide WasReached, HadError, ReachedIds, OfflineIds, ErrorIds, LastState, LastError;
    ReachedExactly(q.targets, id);
    ErrorsExactly(q.targets, q.execs, id);
    var rs, ids, bad := ResultsOf(q), ReachedIds(q.targets), ErrorIds(q.targets, q.execs);
    if id in ids { assert rs[0] == Succeeded(ids, LastState(q.targets, q.execs)); }
    if id in bad { assert rs[|rs| - 1] == Failed(bad, LastError(q.targets, q.execs)); }
  }

  function SendsRefused(ts: seq<Target>, execs: seq<Exec>): nat {
    if ts == [] then 0
    else
      var a := ts[|ts| - 1].answer;
      SendsRefused(ts[..|ts| - 1], execs) + if a.Reachable? then RefusedSends(a, execs, |execs|) else 0
  }

  /** Every target is listed once as reached, offline or not found; refused sends list their device again as an error. */
  lemma {:induction false} TargetsAccounted(ts: seq<Target>, execs: seq<Exec>)
    ensures |ReachedIds(ts)| + |OfflineIds(ts)| + |ErrorIds(ts, execs)| == |ts| + SendsRefused(ts, execs)
  {
    if ts != [] { TargetsAccounted(ts[..|ts| - 1], execs); }
  }

  /** An error code is given exactly when there is an error entry. */
  lemma {:induction false} ErrorsHaveACode(ts: seq<Target>, execs: seq<Exec>)
    ensures ErrorIds(ts, execs) != [] <==> LastError(ts, execs) != ""
    ensures LastError(ts, execs) in ["", NOT_FOUND, HARD_ERROR]
  {
    if ts != [] { ErrorsHaveACode(ts[..|ts| - 1], execs); }
  }
}
