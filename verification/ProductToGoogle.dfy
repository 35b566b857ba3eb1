// From a released product to what Google Home shows of its devices (internal/app/profiles.go hands the
// profile's capabilities to internal/google/handler.go).
module ProductToGoogle {
  import opened Common
  import Decimal
  import Google
  import Schema

  function KindOf(kind: string): Google.Kind {
    if kind == Schema.POWER then Google.Power
    else if kind == Schema.BRIGHTNESS then Google.Brightness
    else if kind == Schema.COLOR then Google.Colour
    else if kind == Schema.COLOR_TEMP then Google.ColourTemp
    else if kind == Schema.TARGET_TEMP then Google.TargetTemp
    else if kind == "thermo_mode" then Google.ThermoMode
    else if kind == "fan_speed" then Google.FanSpeed
    else if kind == Schema.LOCK then Google.Lock
    else if kind == Schema.HUMIDITY then Google.Humidity
    else if kind == Schema.TEMPERATURE then Google.Temperature
    else Google.OtherKind(kind)
  }

  function CapsOf(caps: seq<Schema.Capability>): seq<Google.Cap> {
    seq(|caps|, i requires 0 <= i < |caps| => Google.Cap(KindOf(caps[i].kind), Decimal.Itoa(caps[i].dp)))
  }

  function GoogleCaps(a: Schema.Artifact): seq<Google.Cap> {
    CapsOf(Schema.ProfileOf(Schema.CapabilityFor, a).capabilities)
  }

  /** A visible control, or a datapoint that no control mentions, gives the id this kind. */
  ghost predicate Gives(a: Schema.Artifact, id: int, k: Google.Kind) {
    exists cap :: Given(a, cap) && cap.dp == id && KindOf(cap.kind) == k
  }

  ghost predicate Given(a: Schema.Artifact, cap: Schema.Capability) {
    Schema.FromControl(Schema.CapabilityFor, a, cap) || Schema.FromDatapoint(Schema.CapabilityFor, a, cap)
  }

  lemma GivesExactly(a: Schema.Artifact, id: int, k: Google.Kind)
    ensures Google.Cap(k, Decimal.Itoa(id)) in GoogleCaps(a) <==> Gives(a, id, k)
  {
    var caps := Schema.ProfileOf(Schema.CapabilityFor, a).capabilities;
    if Google.Cap(k, Decimal.Itoa(id)) in GoogleCaps(a) {
      var i :| 0 <= i < |caps| && GoogleCaps(a)[i] == Google.Cap(k, Decimal.Itoa(id));
      Decimal.ItoaInjective(caps[i].dp, id);
      Schema.CapabilityFromExactly(Schema.CapabilityFor, a, caps[i]);
      assert Given(a, caps[i]);
    }
    if Gives(a, id, k) {
      var cap :| Given(a, cap) && cap.dp == id && KindOf(cap.kind) == k;
      Schema.CapabilityFromExactly(Schema.CapabilityFor, a, cap);
      var i :| 0 <= i < |caps| && caps[i] == cap;
      assert GoogleCaps(a)[i] == Google.Cap(k, Decimal.Itoa(id));
    }
  }

  /** The artifact gives the id that commands of kind l write a second kind, k. */
  ghost predicate GivesTwo(a: Schema.Artifact, k: Google.Kind, l: Google.Kind, id: int) {
    k != l && Google.Takes(l) && Gives(a, id, k) && Google.DpOf(GoogleCaps(a), l) == Some(Decimal.Itoa(id))
  }

  lemma CrossedExactly(a: Schema.Artifact, k: Google.Kind)
    ensures Google.Crossed(GoogleCaps(a), k) <==> exists l, id :: GivesTwo(a, k, l, id)
  {
    var caps := GoogleCaps(a);
    if l :| Google.CrossedBy(caps, k, l) {
      var j := Google.DpFrom(caps, l);
      var id := Schema.ProfileOf(Schema.CapabilityFor, a).capabilities[j].dp;
      assert caps[j].dp == Decimal.Itoa(id);
      GivesExactly(a, id, k);
      assert GivesTwo(a, k, l, id);
    }
    if l, id :| GivesTwo(a, k, l, id) {
      GivesExactly(a, id, k);
      assert Google.CrossedBy(caps, k, l);
    }
  }

  /** The other colour kind is given to no datapoint. */
  ghost predicate OneColour(a: Schema.Artifact, k: Google.Kind) {
    && (k.Colour? ==> forall id :: !Gives(a, id, Google.ColourTemp))
    && (k.ColourTemp? ==> forall id :: !Gives(a, id, Google.Colour))
  }

  lemma AloneExactly(a: Schema.Artifact, k: Google.Kind)
    ensures Google.Alone(GoogleCaps(a), k) <==> OneColour(a, k)
  {
    var caps := GoogleCaps(a);
    if k.Colour? || k.ColourTemp? {
      var other := if k.Colour? then Google.ColourTemp else Google.Colour;
      forall id ensures Gives(a, id, other) <==> Google.Cap(other, Decimal.Itoa(id)) in caps { GivesExactly(a, id, other); }
      if i :| 0 <= i < |caps| && caps[i].kind == other {
        var id := Schema.ProfileOf(Schema.CapabilityFor, a).capabilities[i].dp;
        assert caps[i] == Google.Cap(other, Decimal.Itoa(id));
        assert Gives(a, id, other);
      }
      HasOther(caps, k, other);
    } else {
      Google.OnlyColoursShare(caps, k);
    }
  }

  lemma HasOther(caps: seq<Google.Cap>, k: Google.Kind, other: Google.Kind)
    requires (k.Colour? && other.ColourTemp?) || (k.ColourTemp? && other.Colour?)
    ensures Google.Alone(caps, k) <==> forall i | 0 <= i < |caps| :: caps[i].kind != other
  {
    if i :| 0 <= i < |caps| && caps[i].kind == other {
      assert Google.ColourField in Google.Fields(other) && Google.ColourField in Google.Fields(k);
    }
  }

  /**
   * Every artifact, whatever its panel says: each field shows the last value aimed at its kind, or the report, for all
   * reports and executions, exactly when the artifact does not give both colour kinds (for the colour field) and does
   * not give the datapoint that commands of another kind write this kind too.
   */
  lemma ProductShowsExactly(a: Schema.Artifact, k: Google.Kind, f: Google.Field)
    requires f in Google.Fields(k)
    ensures (forall reported, execs :: Google.ShowsTheLast(GoogleCaps(a), reported, execs, k, f))
      <==> OneColour(a, k) && forall l, id :: !GivesTwo(a, k, l, id)
  {
    Google.ExecuteShowsExactly(GoogleCaps(a), k, f);
    CrossedExactly(a, k);
    AloneExactly(a, k);
  }

  /** Visible controls of one datapoint agree on its kind. */
  ghost predicate OneKindEach(a: Schema.Artifact) {
    forall c, d | c in Schema.Controls(a) && d in Schema.Controls(a) && c.dp == d.dp && Schema.Shown(a.dps, c) && Schema.Shown(a.dps, d) ::
      ControlKind(a, c) == ControlKind(a, d)
  }

  function ControlKind(a: Schema.Artifact, c: Schema.Control): string
    requires Schema.Shown(a.dps, c)
  {
    Schema.Filled(Schema.CapabilityFor, c, Schema.FindDp(a.dps, c.dp).value).kind
  }

  lemma DistinctControlsAgree(a: Schema.Artifact)
    requires Schema.DistinctControls(Schema.Controls(a))
    ensures OneKindEach(a)
  {
  }

  lemma GivenOnce(a: Schema.Artifact, x: Schema.Capability, y: Schema.Capability)
    requires Schema.DistinctIds(a.dps) && OneKindEach(a) && Given(a, x) && Given(a, y) && x.dp == y.dp
    ensures x.kind == y.kind
  {
  }

  /**
   * So every product with distinct ids whose visible controls agree on the kind of a datapoint shows, in each field
   * but colour, the last value aimed at its kind, when the product has that kind, and otherwise the report.
   */
  lemma ProductShowsTheLastOfEachKind(a: Schema.Artifact, reported: Google.Dps, execs: seq<Google.Exec>, k: Google.Kind, f: Google.Field)
    requires Schema.DistinctIds(a.dps) && OneKindEach(a) && OneColour(a, k) && f in Google.Fields(k)
    ensures Google.ShowsTheLast(GoogleCaps(a), reported, execs, k, f)
  {
    forall l, id ensures !GivesTwo(a, k, l, id) {
      if GivesTwo(a, k, l, id) {
        var j := Google.DpFrom(GoogleCaps(a), l);
        GivesExactly(a, id, l);
        var x :| Given(a, x) && x.dp == id && KindOf(x.kind) == k;
        var y :| Given(a, y) && y.dp == id && KindOf(y.kind) == l;
        GivenOnce(a, x, y);
      }
    }
    ProductShowsExactly(a, k, f);
  }

  /** One switch, shown both as a lock and as a power switch. */
  function TwoFaced(): Schema.Artifact {
    var dp := Schema.DP(1, "switch", "", Schema.Semantic("bool", "rw", None, None, None, ""),
                        Schema.Hardware("", None, None, None, None, None, None, None, None, None));
    var lock := Schema.Control(1, Schema.LOCK, "", "", "", None, None, false);
    Schema.Artifact([dp], Some(Schema.Panel(None, [lock, lock.(kind := Schema.POWER)], None, [], "", None)), None)
  }

  lemma ControlGives(a: Schema.Artifact, c: Schema.Control)
    requires c in Schema.Controls(a) && Schema.Shown(a.dps, c)
    ensures Gives(a, c.dp, KindOf(ControlKind(a, c)))
  {
    var cap := Schema.Filled(Schema.CapabilityFor, c, Schema.FindDp(a.dps, c.dp).value);
    assert Schema.FromControl(Schema.CapabilityFor, a, cap);
    assert Given(a, cap);
  }

  lemma OneIdOnly(a: Schema.Artifact, id: int)
    requires forall dp | dp in a.dps :: dp.id == id
    requires forall c | c in Schema.Controls(a) :: c.dp == id
    ensures forall cap | Given(a, cap) :: cap.dp == id
  {
  }

  lemma TwoFacedGives()
    ensures Gives(TwoFaced(), 1, Google.Lock) && Gives(TwoFaced(), 1, Google.Power)
    ensures forall cap | Given(TwoFaced(), cap) :: cap.dp == 1
  {
    hide Gives, Given, Schema.CapabilityFor;
    var a := TwoFaced();
    var cs := Schema.Controls(a);
    OneIdOnly(a, 1);
    assert cs[0] in cs && cs[1] in cs && Schema.Shown(a.dps, cs[0]) && Schema.Shown(a.dps, cs[1]);
    ControlGives(a, cs[0]);
    ControlGives(a, cs[1]);
  }

  lemma OneIdTwoKinds(a: Schema.Artifact, id: int, k: Google.Kind, l: Google.Kind)
    requires k != l && Google.Takes(l) && Gives(a, id, k) && Gives(a, id, l) && forall cap | Given(a, cap) :: cap.dp == id
    ensures GivesTwo(a, k, l, id)
  {
    GivesExactly(a, id, l);
    var i :| 0 <= i < |GoogleCaps(a)| && GoogleCaps(a)[i] == Google.Cap(l, Decimal.Itoa(id));
    Google.DpIsSome(GoogleCaps(a), i);
    var j := Google.DpFrom(GoogleCaps(a), l);
    Schema.CapabilityFromExactly(Schema.CapabilityFor, a, Schema.ProfileOf(Schema.CapabilityFor, a).capabilities[j]);
  }

  /** Such a panel is accepted, and there are a report and executions whose answer is not what it should be. */
  lemma TwoFacedMisleads()
    ensures exists reported, execs :: !Google.ShowsTheLast(GoogleCaps(TwoFaced()), reported, execs, Google.Lock, Google.IsLocked)
  {
    hide TwoFaced, Gives, Given, GivesTwo;
    TwoFacedGives();
    OneIdTwoKinds(TwoFaced(), 1, Google.Lock, Google.Power);
    ProductShowsExactly(TwoFaced(), Google.Lock, Google.IsLocked);
  }
}
