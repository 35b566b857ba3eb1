// Google Home commands and states over a device's datapoints (internal/google/mapper.go,
// internal/google/handler.go).
//
// Kind, command and field names are constructors. Numbers are reals; int conversions truncate.
module Google {
  import opened Common
  import opened Decimal
  import Color

  datatype Kind =
    | Power | Brightness | Colour | ColourTemp | TargetTemp | ThermoMode | FanSpeed | Lock | Humidity | Temperature
    | OtherKind(name: string)  // contact, motion and whatever else: no state, no command

  datatype Cap = Cap(kind: Kind, dp: string)

  /** A JSON value; an object is known by the channels it decodes to. */
  datatype Value = Null | Bool(b: bool) | Num(x: real) | Str(s: string) | Obj(rgb: Color.RGB) | OtherValue

  type Dps = map<string, Value>

  // ---------- datapoints to state ----------

  // json.Unmarshal into a typed variable: null leaves the zero value.
  function AsBool(v: Value): Option<bool> { if v.Bool? then Some(v.b) else if v.Null? then Some(false) else None }
  function AsNum(v: Value): Option<real> { if v.Num? then Some(v.x) else if v.Null? then Some(0.0) else None }
  function AsStr(v: Value): Option<string> { if v.Str? then Some(v.s) else if v.Null? then Some("") else None }
  function AsRGB(v: Value): Option<Color.RGB> { if v.Obj? then Some(v.rgb) else if v.Null? then Some(Color.RGB(0, 0, 0)) else None }

  datatype Field =
    | Online | Status | On | Level | ColourField | Setpoint | Mode | Speed | IsLocked | IsJammed | AmbientHumidity | AmbientTemperature

  /** Spectrum is the 24-bit integer of its channels. */
  datatype Shown = Flag(b: bool) | Count(n: int) | Degrees(x: real) | Text(s: string) | Spectrum(rgb: Color.RGB) | Kelvin(k: int)

  type View = map<Field, Shown>

  function SpeedName(n: int): string { "speed_" + Itoa(n) }

  /** What a value of a kind shows; nothing when it does not decode. */
  function Shows(k: Kind, v: Value): View {
    match k
    case Power => if AsBool(v).Some? then map[On := Flag(AsBool(v).value)] else map[]
    case Brightness => if AsNum(v).Some? then map[Level := Count(Color.Trunc(AsNum(v).value))] else map[]
    case Colour => if AsRGB(v).Some? then map[ColourField := Spectrum(AsRGB(v).value)] else map[]
    case ColourTemp =>
      if AsNum(v).Some? then map[ColourField := Kelvin(Color.ColorTempToKelvin(Color.Trunc(AsNum(v).value)))] else map[]
    case TargetTemp => if AsNum(v).Some? then map[Setpoint := Degrees(AsNum(v).value)] else map[]
    case ThermoMode => if AsStr(v).Some? then map[Mode := Text(AsStr(v).value)] else map[]
    case FanSpeed => if AsNum(v).Some? then map[Speed := Text(SpeedName(Color.Trunc(AsNum(v).value)))] else map[]
    case Lock => if AsBool(v).Some? then map[IsLocked := Flag(AsBool(v).value), IsJammed := Flag(false)] else map[]
    case Humidity => if AsNum(v).Some? then map[AmbientHumidity := Count(Color.Trunc(AsNum(v).value))] else map[]
    case Temperature => if AsNum(v).Some? then map[AmbientTemperature := Degrees(AsNum(v).value)] else map[]
    case OtherKind(_) => map[]
  }

  function ShownBy(c: Cap, dps: Dps): View {
    if c.dp in dps then Shows(c.kind, dps[c.dp]) else map[]
  }

  function StateOf(caps: seq<Cap>, dps: Dps, online: bool): View {
    if caps == [] then map[Online := Flag(online), Status := Text("SUCCESS")]
    else StateOf(caps[..|caps| - 1], dps, online) + ShownBy(caps[|caps| - 1], dps)
  }

  // ---------- command to datapoints ----------

  datatype Command =
    | OnOff | BrightnessAbsolute | ColorAbsolute | TemperatureSetpoint | SetMode | SetFanSpeed | LockUnlock
    | OtherCommand(name: string)

  /** The entries of params that some command reads; a missing one reads as null. */
  datatype Params = Params(on: Value, brightness: Value, spectrum: Option<Value>, temperature: Option<Value>,
    setpoint: Value, mode: Value, fanSpeed: Value, lock: Value)

  datatype Exec = Exec(command: Command, params: Params)

  function ToFloat(v: Value): real { if v.Num? then v.x else 0.0 }
  function ToInt(v: Value): int { Color.Trunc(ToFloat(v)) }

  /** fmt.Sscanf(name, "speed_%d", &n) on n = 0 */
  function SpeedOf(name: string): int {
    if |name| >= 6 && name[..6] == "speed_" && Scan(name[6..]).Some? then Scan(name[6..]).value else 0
  }

  /** The three low bytes of an integer, as shifts and masks take them. */
  function Unpack(n: int): Color.RGB { Color.RGB(n / 65536 % 256, n / 256 % 256, n % 256) }

  function Pack(rgb: Color.RGB): int { 65536 * rgb.r + 256 * rgb.g + rgb.b }

  /** The value that a command means for each kind it speaks of. */
  function Aim(e: Exec): map<Kind, Value> {
    var p := e.params;
    match e.command
    case OnOff => map[Power := Bool(p.on.Bool? && p.on.b)]
    case BrightnessAbsolute => map[Brightness := Num(ToInt(p.brightness) as real)]
    case ColorAbsolute =>
      (if p.spectrum.Some? then map[Colour := Obj(Unpack(ToInt(p.spectrum.value)))] else map[])
      + (if p.temperature.Some? then map[ColourTemp := Num(Color.KelvinToColorTemp(ToInt(p.temperature.value)) as real)] else map[])
    case TemperatureSetpoint => map[TargetTemp := Num(ToFloat(p.setpoint))]
    case SetMode => map[ThermoMode := Str(if p.mode.Str? then p.mode.s else "")]
    case SetFanSpeed => map[FanSpeed := Num(SpeedOf(if p.fanSpeed.Str? then p.fanSpeed.s else "") as real)]
    case LockUnlock => map[Lock := Bool(p.lock.Bool? && p.lock.b)]
    case OtherCommand(_) => map[]
  }

  /** The datapoint of a kind: the last capability of the list wins. */
  function DpOf(caps: seq<Cap>, k: Kind): Option<string> {
    if caps == [] then None
    else if caps[|caps| - 1].kind == k then Some(caps[|caps| - 1].dp)
    else DpOf(caps[..|caps| - 1], k)
  }

  function Put(dps: Dps, caps: seq<Cap>, e: Exec, k: Kind): Dps {
    if k in Aim(e) && DpOf(caps, k).Some? then dps[DpOf(caps, k).value := Aim(e)[k]] else dps
  }

  function MainKind(c: Command): Kind {
    match c
    case OnOff => Power
    case BrightnessAbsolute => Brightness
    case ColorAbsolute => Colour
    case TemperatureSetpoint => TargetTemp
    case SetMode => ThermoMode
    case SetFanSpeed => FanSpeed
    case LockUnlock => Lock
    case OtherCommand(name) => OtherKind(name)
  }

  /** Only a colour command speaks of two kinds, the colour before the temperature. */
  function CommandToDps(e: Exec, caps: seq<Cap>): Dps {
    Put(Put(map[], caps, e, MainKind(e.command)), caps, e, ColourTemp)
  }

  // ---------- what is shown after a list of executions ----------

  function Merged(reported: Dps, execs: seq<Exec>, caps: seq<Cap>): Dps {
    if execs == [] then reported
    else Merged(reported, execs[..|execs| - 1], caps) + CommandToDps(execs[|execs| - 1], caps)
  }

  /** The state that an EXECUTE answers with. */
  function Optimistic(caps: seq<Cap>, reported: Dps, execs: seq<Exec>): View {
    StateOf(caps, Merged(reported, execs, caps), true)
  }

  predicate DistinctDps(caps: seq<Cap>) {
    forall i, j | 0 <= i < j < |caps| :: caps[i].dp != caps[j].dp
  }

  /** Some command writes capabilities of this kind. */
  predicate Takes(k: Kind) { !k.Humidity? && !k.Temperature? && !k.OtherKind? }

  /** The commands of kind l write a datapoint of kind k. */
  predicate CrossedBy(caps: seq<Cap>, k: Kind, l: Kind) {
    l != k && Takes(l) && DpOf(caps, l).Some? && Cap(k, DpOf(caps, l).value) in caps
  }

  ghost predicate Crossed(caps: seq<Cap>, k: Kind) {
    exists l :: CrossedBy(caps, k, l)
  }

  /** The value of the last execution aimed at a kind. */
  function LastAimed(execs: seq<Exec>, k: Kind): Option<Value> {
    if execs == [] then None
    else if k in Aim(execs[|execs| - 1]) then Some(Aim(execs[|execs| - 1])[k])
    else LastAimed(execs[..|execs| - 1], k)
  }

  function Fields(k: Kind): set<Field> {
    match k
    case Power => {On}
    case Brightness => {Level}
    case Colour => {ColourField}
    case ColourTemp => {ColourField}
    case TargetTemp => {Setpoint}
    case ThermoMode => {Mode}
    case FanSpeed => {Speed}
    case Lock => {IsLocked, IsJammed}
    case Humidity => {AmbientHumidity}
    case Temperature => {AmbientTemperature}
    case OtherKind(_) => {}
  }

  lemma ShowsItsFields(k: Kind, v: Value)
    ensures Shows(k, v) != map[] ==> Shows(k, v).Keys == Fields(k)
    ensures Shows(k, v).Keys <= Fields(k)
  {
  }

  /** What a command aims at a kind always decodes as that kind. */
  lemma AimShows(e: Exec, k: Kind)
    requires k in Aim(e)
    ensures Shows(k, Aim(e)[k]).Keys == Fields(k) && Fields(k) != {}
  {
  }

  lemma {:induction false} AimedShows(execs: seq<Exec>, k: Kind)
    requires LastAimed(execs, k).Some?
    ensures Shows(k, LastAimed(execs, k).value).Keys == Fields(k) && Fields(k) != {}
  {
    var n := |execs| - 1;
    if k in Aim(execs[n]) { AimShows(execs[n], k); } else { AimedShows(execs[..n], k); }
  }

  /** Cap i is the one that commands of its kind write. */
  predicate Chosen(caps: seq<Cap>, i: nat)
    requires i < |caps|
  {
    forall j | i < j < |caps| :: caps[j].kind != caps[i].kind
  }

  lemma {:induction false} DpIsSome(caps: seq<Cap>, i: nat)
    requires i < |caps|
    ensures DpOf(caps, caps[i].kind).Some?
  {
    var n := |caps| - 1;
    if i < n { DpIsSome(caps[..n], i); }
  }

  lemma {:induction false} DpFrom(caps: seq<Cap>, k: Kind) returns (i: nat)
    requires DpOf(caps, k).Some?
    ensures i < |caps| && caps[i] == Cap(k, DpOf(caps, k).value) && Chosen(caps, i)
  {
    var n := |caps| - 1;
    if caps[n].kind == k { i := n; } else { i := DpFrom(caps[..n], k); }
  }

  lemma AimTakes(e: Exec, k: Kind)
    requires k in Aim(e)
    ensures Takes(k) && (k == MainKind(e.command) || k == ColourTemp)
  {
  }

  /** Distinct datapoints are not crossed; nor are shared ones of one kind, or of kinds that no command writes. */
  lemma DistinctIsUncrossed(caps: seq<Cap>, k: Kind)
    requires DistinctDps(caps)
    ensures !Crossed(caps, k)
  {
    forall l ensures !CrossedBy(caps, k, l) {
      if l != k && DpOf(caps, l).Some? {
        var j := DpFrom(caps, l);
        forall i | 0 <= i < |caps| && caps[i].kind == k ensures caps[i].dp != caps[j].dp { assert i != j; }
      }
    }
  }

  lemma PutAt(dps: Dps, caps: seq<Cap>, e: Exec, k: Kind, c: Cap)
    requires c in caps && !Crossed(caps, c.kind)
    ensures if k == c.kind && k in Aim(e) && DpOf(caps, k) == Some(c.dp)
      then c.dp in Put(dps, caps, e, k) && Put(dps, caps, e, k)[c.dp] == Aim(e)[k]
      else (c.dp in Put(dps, caps, e, k) <==> c.dp in dps) && (c.dp in dps ==> Put(dps, caps, e, k)[c.dp] == dps[c.dp])
  {
    if k in Aim(e) {
      AimTakes(e, k);
      assert !CrossedBy(caps, c.kind, k);
    }
  }

  /** Where no other kind writes, a command writes a capability exactly when it aims at its kind and the kind's datapoint. */
  lemma CommandWrites(e: Exec, caps: seq<Cap>, c: Cap)
    requires c in caps && !Crossed(caps, c.kind)
    ensures c.dp in CommandToDps(e, caps) <==> c.kind in Aim(e) && DpOf(caps, c.kind) == Some(c.dp)
    ensures c.dp in CommandToDps(e, caps) ==> CommandToDps(e, caps)[c.dp] == Aim(e)[c.kind]
  {
    PutAt(map[], caps, e, MainKind(e.command), c);
    PutAt(Put(map[], caps, e, MainKind(e.command)), caps, e, ColourTemp, c);
    if c.kind in Aim(e) { AimTakes(e, c.kind); }
  }

  /** The datapoint of an uncrossed kind holds the last value aimed at it; its other datapoints keep what was reported. */
  lemma {:induction false} MergedAt(reported: Dps, execs: seq<Exec>, caps: seq<Cap>, c: Cap)
    requires c in caps && !Crossed(caps, c.kind)
    ensures var m, last := Merged(reported, execs, caps), LastAimed(execs, c.kind);
      if DpOf(caps, c.kind) == Some(c.dp) && last.Some? then c.dp in m && m[c.dp] == last.value
      else (c.dp in m <==> c.dp in reported) && (c.dp in m ==> m[c.dp] == reported[c.dp])
  {
    if execs != [] {
      var n := |execs| - 1;
      MergedAt(reported, execs[..n], caps, c);
      CommandWrites(execs[n], caps, c);
    }
  }

  /** What the last capability of a kind with a decodable datapoint shows. */
  function LastShown(caps: seq<Cap>, dps: Dps, k: Kind): View {
    if caps == [] then map[]
    else
      var c := caps[|caps| - 1];
      if c.kind == k && ShownBy(c, dps) != map[] then ShownBy(c, dps) else LastShown(caps[..|caps| - 1], dps, k)
  }

  function Lookup(s: View, f: Field): Option<Shown> { if f in s then Some(s[f]) else None }

  /** No other kind of the list writes k's fields: only the two colour kinds share one. */
  predicate Alone(caps: seq<Cap>, k: Kind) {
    forall i | 0 <= i < |caps| :: caps[i].kind == k || caps[i].kind.OtherKind? || Fields(caps[i].kind) !! Fields(k)
  }

  lemma OnlyColoursShare(caps: seq<Cap>, k: Kind)
    ensures !k.Colour? && !k.ColourTemp? ==> Alone(caps, k)
  {
  }

  lemma LookupAdd(s: View, t: View, f: Field)
    ensures Lookup(s + t, f) == if f in t then Some(t[f]) else Lookup(s, f)
  {
  }

  /** A capability writes f when it is of f's kind and its datapoint decodes, and otherwise not. */
  lemma WritesItsField(c: Cap, dps: Dps, k: Kind, f: Field)
    requires f in Fields(k) && (c.kind == k || c.kind.OtherKind? || Fields(c.kind) !! Fields(k))
    ensures f in ShownBy(c, dps) <==> c.kind == k && ShownBy(c, dps) != map[]
  {
    if c.dp in dps {
      ShowsItsFields(c.kind, dps[c.dp]);
      if c.kind == k && ShownBy(c, dps) == map[] { assert f !in ShownBy(c, dps); }
    }
  }

  lemma {:induction false} StateShowsLast(caps: seq<Cap>, dps: Dps, k: Kind, f: Field)
    requires f in Fields(k) && Alone(caps, k)
    ensures Lookup(StateOf(caps, dps, true), f) == Lookup(LastShown(caps, dps, k), f)
  {
    if caps == [] {
      assert f != Online && f != Status;
    } else {
      var n := |caps| - 1;
      StateShowsLast(caps[..n], dps, k, f);
      LookupAdd(StateOf(caps[..n], dps, true), ShownBy(caps[n], dps), f);
      WritesItsField(caps[n], dps, k, f);
    }
  }

  lemma {:induction false} SameWhereSame(caps: seq<Cap>, a: Dps, b: Dps, k: Kind)
    requires forall i | 0 <= i < |caps| && caps[i].kind == k ::
      (caps[i].dp in a <==> caps[i].dp in b) && (caps[i].dp in a ==> a[caps[i].dp] == b[caps[i].dp])
    ensures LastShown(caps, a, k) == LastShown(caps, b, k)
  {
    if caps != [] { SameWhereSame(caps[..|caps| - 1], a, b, k); }
  }

  lemma {:induction false} ChosenShows(caps: seq<Cap>, dps: Dps, i: nat)
    requires i < |caps| && Chosen(caps, i) && ShownBy(caps[i], dps) != map[]
    ensures LastShown(caps, dps, caps[i].kind) == ShownBy(caps[i], dps)
  {
    var n := |caps| - 1;
    if i < n { ChosenShows(caps[..n], dps, i); }
  }

  /** The field shows what the last execution aimed at its kind meant, if the list has the kind, and else the report. */
  predicate ShowsTheLast(caps: seq<Cap>, reported: Dps, execs: seq<Exec>, k: Kind, f: Field) {
    Lookup(Optimistic(caps, reported, execs), f) ==
      if DpOf(caps, k).Some? && LastAimed(execs, k).Some? then Lookup(Shows(k, LastAimed(execs, k).value), f)
      else Lookup(StateOf(caps, reported, true), f)
  }

  lemma AimedIsShown(caps: seq<Cap>, reported: Dps, execs: seq<Exec>, k: Kind)
    requires !Crossed(caps, k) && DpOf(caps, k).Some? && LastAimed(execs, k).Some?
    ensures LastShown(caps, Merged(reported, execs, caps), k) == Shows(k, LastAimed(execs, k).value)
  {
    hide Shows, Crossed, Merged;
    var i := DpFrom(caps, k);
    MergedAt(reported, execs, caps, caps[i]);
    AimedShows(execs, k);
    ChosenShows(caps, Merged(reported, execs, caps), i);
  }

  lemma UnaimedIsShown(caps: seq<Cap>, reported: Dps, execs: seq<Exec>, k: Kind)
    requires !Crossed(caps, k) && !(DpOf(caps, k).Some? && LastAimed(execs, k).Some?)
    ensures LastShown(caps, Merged(reported, execs, caps), k) == LastShown(caps, reported, k)
  {
    hide Crossed, Merged;
    forall i | 0 <= i < |caps| && caps[i].kind == k
      ensures var m := Merged(reported, execs, caps);
        (caps[i].dp in m <==> caps[i].dp in reported) && (caps[i].dp in m ==> m[caps[i].dp] == reported[caps[i].dp])
    {
      MergedAt(reported, execs, caps, caps[i]);
      DpIsSome(caps, i);
    }
    SameWhereSame(caps, Merged(reported, execs, caps), reported, k);
  }

  lemma UncrossedShowsTheLast(caps: seq<Cap>, reported: Dps, execs: seq<Exec>, k: Kind, f: Field)
    requires f in Fields(k) && Alone(caps, k) && !Crossed(caps, k)
    ensures ShowsTheLast(caps, reported, execs, k, f)
  {
    hide Shows, Crossed, Alone, StateOf, Merged, LastShown, LastAimed, Fields;
    StateShowsLast(caps, Merged(reported, execs, caps), k, f);
    StateShowsLast(caps, reported, k, f);
    if DpOf(caps, k).Some? && LastAimed(execs, k).Some? {
      AimedIsShown(caps, reported, execs, k);
    } else {
      UnaimedIsShown(caps, reported, execs, k);
    }
  }

  /** A list without a kind shows nothing of it. */
  lemma {:induction false} WithoutShowsNothing(caps: seq<Cap>, dps: Dps, k: Kind, f: Field)
    requires f in Fields(k) && Alone(caps, k) && DpOf(caps, k).None?
    ensures f !in StateOf(caps, dps, true)
  {
    forall c | c in caps ensures f !in ShownBy(c, dps) {
      var i :| 0 <= i < |caps| && caps[i] == c;
      if c.kind == k { DpIsSome(caps, i); }
      WritesItsField(c, dps, k, f);
    }
    assert f != Online && f != Status;
    ShownOnlyIfWritten(caps, dps, f);
  }

  // ---------- where it goes wrong ----------

  /** A command aimed at one kind alone. */
  function Only(k: Kind): (e: Exec)
    requires Takes(k)
    ensures Aim(e).Keys == {k}
  {
    var p := Params(Bool(true), Num(0.0), None, None, Num(0.0), Str(""), Null, Bool(true));
    match k
    case Power => Exec(OnOff, p)
    case Brightness => Exec(BrightnessAbsolute, p)
    case Colour => Exec(ColorAbsolute, p.(spectrum := Some(Null)))
    case ColourTemp => Exec(ColorAbsolute, p.(temperature := Some(Null)))
    case TargetTemp => Exec(TemperatureSetpoint, p)
    case ThermoMode => Exec(SetMode, p)
    case FanSpeed => Exec(SetFanSpeed, p)
    case Lock => Exec(LockUnlock, p)
  }

  lemma OnlyWrites(caps: seq<Cap>, l: Kind, reported: Dps)
    requires Takes(l) && DpOf(caps, l).Some?
    ensures Merged(reported, [Only(l)], caps) == reported[DpOf(caps, l).value := Aim(Only(l))[l]]
  {
    var e := Only(l);
    AimTakes(e, l);
    assert l in Aim(e);
    assert forall k :: k in Aim(e) ==> k == l;
    assert CommandToDps(e, caps) == map[DpOf(caps, l).value := Aim(e)[l]];
    assert [e][..0] == [] && Merged(reported, [], caps) == reported;
    assert Merged(reported, [e], caps) == reported + CommandToDps(e, caps);
  }

  lemma OnlyAimsAt(k: Kind, l: Kind)
    requires Takes(l) && k != l
    ensures LastAimed([Only(l)], k).None?
  {
    assert k !in Aim(Only(l));
    assert [Only(l)][..0] == [];
  }

  /** A field is shown as soon as one capability writes it. */
  lemma {:induction false} ShownIfWritten(caps: seq<Cap>, dps: Dps, i: nat, f: Field)
    requires i < |caps| && f in ShownBy(caps[i], dps)
    ensures f in StateOf(caps, dps, true)
  {
    hide ShownBy;
    var n := |caps| - 1;
    if i < n { ShownIfWritten(caps[..n], dps, i, f); }
  }

  lemma {:induction false} ShownOnlyIfWritten(caps: seq<Cap>, dps: Dps, f: Field)
    requires f != Online && f != Status && forall c | c in caps :: f !in ShownBy(c, dps)
    ensures f !in StateOf(caps, dps, true)
  {
    if caps != [] { ShownOnlyIfWritten(caps[..|caps| - 1], dps, f); }
  }

  lemma ShownAlone(caps: seq<Cap>, c: Cap, v: Value, f: Field)
    requires c in caps && f in Shows(c.kind, v)
    ensures f in StateOf(caps, map[c.dp := v], true)
  {
    hide Shows, StateOf;
    assert f in ShownBy(c, map[c.dp := v]);
    var i :| 0 <= i < |caps| && caps[i] == c;
    ShownIfWritten(caps, map[c.dp := v], i, f);
  }

  lemma NotTheLast(caps: seq<Cap>, reported: Dps, execs: seq<Exec>, k: Kind, f: Field)
    requires LastAimed(execs, k).None?
    requires f in StateOf(caps, Merged(reported, execs, caps), true) <==> f !in StateOf(caps, reported, true)
    ensures !ShowsTheLast(caps, reported, execs, k, f)
  {
  }

  /** A command of another kind makes a field appear that nothing had reported. */
  lemma Appears(caps: seq<Cap>, k: Kind, l: Kind, c: Cap, f: Field)
    requires f in Fields(k) && l != k && Takes(l) && DpOf(caps, l) == Some(c.dp) && c in caps
    requires f in Shows(c.kind, Aim(Only(l))[l])
    ensures !ShowsTheLast(caps, map[], [Only(l)], k, f)
  {
    assert f != Online && f != Status;
    hide Shows, Aim, StateOf, CommandToDps, Merged, Only, LastAimed, Fields, ShowsTheLast;
    OnlyWrites(caps, l, map[]);
    OnlyAimsAt(k, l);
    var none: Dps, v := map[], Aim(Only(l))[l];
    assert none[c.dp := v] == map[c.dp := v];
    ShownAlone(caps, c, v, f);
    ShownOnlyIfWritten(caps, none, f);
    NotTheLast(caps, none, [Only(l)], k, f);
  }

  lemma NullShows(k: Kind)
    ensures Shows(k, Null).Keys == Fields(k)
  {
  }

  lemma NothingDecodes(caps: seq<Cap>, c: Cap, v: Value, f: Field)
    requires f in Fields(c.kind) && Alone(caps, c.kind) && Shows(c.kind, v) == map[]
    ensures f !in StateOf(caps, map[c.dp := v], true)
  {
    hide Shows, StateOf;
    forall d | d in caps ensures f !in ShownBy(d, map[c.dp := v]) {
      WritesItsField(d, map[c.dp := v], c.kind, f);
    }
    ShownOnlyIfWritten(caps, map[c.dp := v], f);
  }

  /** A command of another kind makes a reported field disappear. */
  lemma Disappears(caps: seq<Cap>, k: Kind, l: Kind, f: Field)
    requires f in Fields(k) && Alone(caps, k) && CrossedBy(caps, k, l) && Shows(k, Aim(Only(l))[l]) == map[]
    ensures !ShowsTheLast(caps, map[DpOf(caps, l).value := Null], [Only(l)], k, f)
  {
    hide Shows, Aim, StateOf, CommandToDps, Merged, Only, LastAimed, Alone, Fields, ShowsTheLast;
    var c, v := Cap(k, DpOf(caps, l).value), Aim(Only(l))[l];
    OnlyWrites(caps, l, map[c.dp := Null]);
    OnlyAimsAt(k, l);
    assert map[c.dp := Null][c.dp := v] == map[c.dp := v];
    NullShows(k);
    ShownAlone(caps, c, Null, f);
    NothingDecodes(caps, c, v, f);
    NotTheLast(caps, map[c.dp := Null], [Only(l)], k, f);
  }

  /** The other colour kind of a list is commanded by itself and shows in the same field. */
  lemma TwoColours(caps: seq<Cap>, k: Kind, f: Field) returns (c: Cap)
    requires f in Fields(k) && !Alone(caps, k)
    ensures c in caps && c.kind != k && Takes(c.kind) && DpOf(caps, c.kind) == Some(c.dp)
    ensures f in Shows(c.kind, Aim(Only(c.kind))[c.kind])
  {
    var i :| 0 <= i < |caps| && caps[i].kind != k && !caps[i].kind.OtherKind? && !(Fields(caps[i].kind) !! Fields(k));
    var l := caps[i].kind;
    DpIsSome(caps, i);
    var j := DpFrom(caps, l);
    AimShows(Only(l), l);
    c := caps[j];
  }

  /**
   * Whatever was reported and whatever is executed, an EXECUTE shows the last value aimed at a kind, or the report,
   * exactly when no other kind of the list shows in the same field and no command of another kind writes a datapoint
   * of this one.
   */
  lemma ExecuteShowsExactly(caps: seq<Cap>, k: Kind, f: Field)
    requires f in Fields(k)
    ensures (forall reported, execs :: ShowsTheLast(caps, reported, execs, k, f)) <==> Alone(caps, k) && !Crossed(caps, k)
  {
    if !Alone(caps, k) {
      var c := TwoColours(caps, k, f);
      Appears(caps, k, c.kind, c, f);
    } else if Crossed(caps, k) {
      var l :| CrossedBy(caps, k, l);
      var c := Cap(k, DpOf(caps, l).value);
      ShowsItsFields(k, Aim(Only(l))[l]);
      if Shows(k, Aim(Only(l))[l]) == map[] { Disappears(caps, k, l, f); } else { Appears(caps, k, l, c, f); }
    } else {
      forall reported, execs ensures ShowsTheLast(caps, reported, execs, k, f) {
        UncrossedShowsTheLast(caps, reported, execs, k, f);
      }
    }
  }

  /** So it does for every list with distinct datapoints and one colour kind at most. */
  lemma ExecuteShowsTheLastOfEachKind(caps: seq<Cap>, reported: Dps, execs: seq<Exec>, k: Kind, f: Field)
    requires DistinctDps(caps) && f in Fields(k) && Alone(caps, k)
    ensures ShowsTheLast(caps, reported, execs, k, f)
  {
    DistinctIsUncrossed(caps, k);
    UncrossedShowsTheLast(caps, reported, execs, k, f);
  }

  /** Sensors take no commands, so they show what was reported, unless a command writes their datapoint. */
  lemma SensorsShowTheReport(caps: seq<Cap>, reported: Dps, execs: seq<Exec>, f: Field)
    requires f == AmbientHumidity || f == AmbientTemperature
    requires !Crossed(caps, if f == AmbientHumidity then Humidity else Temperature)
    ensures Lookup(Optimistic(caps, reported, execs), f) == Lookup(StateOf(caps, reported, true), f)
  {
    var k := if f == AmbientHumidity then Humidity else Temperature;
    OnlyColoursShare(caps, k);
    UncrossedShowsTheLast(caps, reported, execs, k, f);
    NeverAimed(execs, k);
  }

  lemma {:induction false} NeverAimed(execs: seq<Exec>, k: Kind)
    requires k.Humidity? || k.Temperature? || k.OtherKind?
    ensures LastAimed(execs, k).None?
  {
    if execs != [] { NeverAimed(execs[..|execs| - 1], k); }
  }

  // ---------- what a command means is what it says ----------

  lemma {:induction false} TruncInt(n: int)
    ensures Color.Trunc(n as real) == n
  {
  }

  /** Every fan speed name that the SYNC answer lists, and every other of 64 bits, is read back as itself. */
  lemma SpeedNames(n: int)
    requires MIN_INT64 <= n <= MAX_INT64
    ensures SpeedOf(SpeedName(n)) == n
  {
    ScanOfItoa(n, "");
    assert Itoa(n) + "" == Itoa(n);
    assert SpeedName(n)[..6] == "speed_" && SpeedName(n)[6..] == Itoa(n);
  }

  /** Each well-formed command means to show the parameter it carries. */
  lemma CommandsMeanTheirParameters(p: Params)
    ensures p.on.Bool? ==> Shows(Power, Aim(Exec(OnOff, p))[Power]) == map[On := Flag(p.on.b)]
    ensures p.brightness.Num? ==>
      Shows(Brightness, Aim(Exec(BrightnessAbsolute, p))[Brightness]) == map[Level := Count(Color.Trunc(p.brightness.x))]
    ensures p.setpoint.Num? ==>
      Shows(TargetTemp, Aim(Exec(TemperatureSetpoint, p))[TargetTemp]) == map[Setpoint := Degrees(p.setpoint.x)]
    ensures p.mode.Str? ==> Shows(ThermoMode, Aim(Exec(SetMode, p))[ThermoMode]) == map[Mode := Text(p.mode.s)]
    ensures p.lock.Bool? ==>
      Shows(Lock, Aim(Exec(LockUnlock, p))[Lock]) == map[IsLocked := Flag(p.lock.b), IsJammed := Flag(false)]
  {
    TruncInt(ToInt(p.brightness));
  }

  lemma FanCommandsMeanTheirSpeed(p: Params, n: int)
    requires MIN_INT64 <= n <= MAX_INT64 && p.fanSpeed == Str(SpeedName(n))
    ensures Shows(FanSpeed, Aim(Exec(SetFanSpeed, p))[FanSpeed]) == map[Speed := Text(p.fanSpeed.s)]
  {
    SpeedNames(n);
    FanAim(p);
    FanShows(n);
  }

  lemma FanAim(p: Params)
    requires p.fanSpeed.Str?
    ensures Aim(Exec(SetFanSpeed, p))[FanSpeed] == Num(SpeedOf(p.fanSpeed.s) as real)
  {
  }

  lemma FanShows(n: int)
    ensures Shows(FanSpeed, Num(n as real)) == map[Speed := Text(SpeedName(n))]
  {
    TruncInt(n);
  }

  lemma Bytes(n: int)
    ensures Pack(Unpack(n)) == n % 16777216
  {
    var q := n / 256;
    assert n == 256 * q + n % 256 && q == 256 * (q / 256) + q % 256 && q / 256 == 256 * (q / 256 / 256) + q / 256 % 256;
    assert n / 65536 == q / 256;
    assert n == 16777216 * (q / 256 / 256) + Pack(Unpack(n));
  }

  /** A colour command shows its integer modulo 2^24; a temperature command comes within half a step of its kelvins. */
  lemma ColourCommandsMeanTheirParameters(p: Params, n: int)
    requires p.spectrum == Some(Num(n as real)) && p.temperature == Some(Num(n as real))
    ensures var a := Aim(Exec(ColorAbsolute, p));
      && Shows(Colour, a[Colour]) == map[ColourField := Spectrum(Unpack(n))] && Pack(Unpack(n)) == n % 16777216
      && Color.Canonical(Unpack(n))
      && var k := Color.ColorTempToKelvin(Color.KelvinToColorTemp(n));
         Shows(ColourTemp, a[ColourTemp]) == map[ColourField := Kelvin(k)] && (2700 <= n <= 6500 ==> -19 <= k - n <= 19)
  {
    TruncInt(n);
    Bytes(n);
    TruncInt(Color.KelvinToColorTemp(n));
    if 2700 <= n <= 6500 { Color.KelvinWithinHalfAStep(n); }
  }

  /** A crossed list: on a datapoint of both kinds an on/off command shows as a lock. */
  lemma SharedDatapointMisleads(p: Params)
    requires p.on == Bool(true)
    ensures var caps, execs := [Cap(Power, "1"), Cap(Lock, "1")], [Exec(OnOff, p)];
      CrossedBy(caps, Lock, Power) && LastAimed(execs, Lock).None? && Lookup(StateOf(caps, map[], true), IsLocked).None?
      && Lookup(Optimistic(caps, map[], execs), IsLocked) == Some(Flag(true))
  {
    var caps, execs := [Cap(Power, "1"), Cap(Lock, "1")], [Exec(OnOff, p)];
    assert execs[..0] == [] && caps[..1] == [Cap(Power, "1")] && caps[..1][..0] == [];
    assert DpOf(caps[..1], Power) == Some("1");
    assert CommandToDps(execs[0], caps) == map["1" := Bool(true)];
    assert Merged(map[], execs, caps) == map["1" := Bool(true)];
  }
}
