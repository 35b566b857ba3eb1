// The projections of a released product artifact: the app profile and the firmware configuration
// (internal/schema/schema.go).
//
// A datapoint id stands for its decimal text, which determines it. Floats are reals.
module Schema {
  import Color
  import opened Common
  import Text

  // ---------- the artifact ----------

  datatype Semantic = Semantic(typ: string, mode: string, min: Option<real>, max: Option<real>, scale: Option<int>, unit: string)

  datatype Hardware = Hardware(actuation: string, gpio: Option<int>, activeHigh: Option<bool>, freqHz: Option<int>,
    resolution: Option<int>, red: Option<int>, green: Option<int>, blue: Option<int>,
    button: Option<int>, buttonActiveHigh: Option<bool>)

  datatype DP = DP(id: int, code: string, name: string, semantic: Semantic, hardware: Hardware)

  datatype Assistant = Assistant(enabled: bool, alexa: bool, google: bool)

  datatype Display = Display(icon: string, defaultName: string)

  datatype Control = Control(dp: int, kind: string, caption: string, widget: string, unit: string,
    min: Option<int>, max: Option<int>, hidden: bool)

  datatype TileMetric = TileMetric(dp: int, format: string)

  datatype Group = Group(title: string, dps: seq<int>)

  datatype Panel = Panel(display: Option<Display>, controls: seq<Control>, tileMetric: Option<TileMetric>,
    groups: seq<Group>, theme: string, assistant: Option<Assistant>)

  /** No panel when the text is absent, empty, null or does not decode. */
  datatype Artifact = Artifact(dps: seq<DP>, panel: Option<Panel>, assistant: Option<Assistant>)

  datatype Capability = Capability(dp: int, kind: string, caption: string, min: Option<int>, max: Option<int>, unit: string, widget: string)

  datatype Profile = Profile(consumerType: string, icon: string, defaultName: string, capabilities: seq<Capability>,
    tileDp: Option<int>, tileFormat: string, theme: string, groups: seq<Group>, assistant: Option<Assistant>)

  // ---------- one datapoint's own capability ----------

  const POWER := "power"
  const BRIGHTNESS := "brightness"
  const COLOR_TEMP := "color_temp"
  const COLOR := "color"
  const TARGET_TEMP := "target_temp"
  const TEMPERATURE := "temperature"
  const HUMIDITY := "humidity"
  const CONTACT := "contact"
  const MOTION := "motion"
  const LOCK := "lock"

  predicate HasPrefix(s: string, p: string) { |p| <= |s| && s[..|p|] == p }

  predicate Contains(s: string, p: string) { HasPrefix(s, p) || (s != "" && Contains(s[1..], p)) }

  /** v divided by ten, scale times over. */
  function Scaled(v: real, scale: nat): real { if scale == 0 then v else Scaled(v, scale - 1) / 10.0 }

  function ScaleOf(s: Semantic): nat { if s.scale.Some? && s.scale.value > 0 then s.scale.value else 0 }

  function Bound(p: Option<real>, scale: nat): Option<int> { if p.None? then None else Some(Color.Trunc(Scaled(p.value, scale))) }

  function Ranged(dp: DP, kind: string, caption: string, unit: string): Option<Capability> {
    var s := dp.semantic;
    Some(Capability(dp.id, kind, caption, Bound(s.min, ScaleOf(s)), Bound(s.max, ScaleOf(s)), unit, ""))
  }

  function Plain(dp: DP, kind: string, caption: string, unit: string): Option<Capability> {
    Some(Capability(dp.id, kind, caption, None, None, unit, ""))
  }

  function ForBool(dp: DP, code: string, caption: string): Option<Capability> {
    if Contains(code, "door") || Contains(code, "contact") then Plain(dp, CONTACT, caption, "")
    else if Contains(code, "motion") || Contains(code, "pir") || Contains(code, "presence") then Plain(dp, MOTION, caption, "")
    else if Contains(code, "lock") then Plain(dp, LOCK, caption, "")
    else if HasPrefix(code, "switch") || code == "fan_switch" || Contains(code, "power") || Contains(code, "control")
      then Plain(dp, POWER, caption, "")
    else if dp.semantic.mode == "rw" || dp.semantic.mode == "wo" then Plain(dp, POWER, caption, "")
    else None
  }

  function ForValue(dp: DP, code: string, caption: string): Option<Capability> {
    if Contains(code, "bright") then Ranged(dp, BRIGHTNESS, caption, "%")
    else if Contains(code, "temp_value") || Contains(code, "colour_temp") || Contains(code, "color_temp") || Contains(code, "cct")
      then Ranged(dp, COLOR_TEMP, caption, "")
    else if Contains(code, "temp_set") || Contains(code, "target_temp") || (Contains(code, "temp") && dp.semantic.mode == "rw")
      then Ranged(dp, TARGET_TEMP, caption, dp.semantic.unit)
    else if Contains(code, "humidity") then Plain(dp, HUMIDITY, caption, "%")
    else if Contains(code, "temperature") || code == "temp_current" then Plain(dp, TEMPERATURE, caption, dp.semantic.unit)
    else None
  }

  /** The capability that a datapoint's type, mode and code suggest. */
  function CapabilityFor(dp: DP): (c: Option<Capability>)
    ensures c.Some? ==> c.value.dp == dp.id
  {
    var code := Text.Lower(dp.code);
    var caption := if dp.name == "" then dp.code else dp.name;
    if dp.semantic.typ == "bool" then ForBool(dp, code, caption)
    else if dp.semantic.typ == "value" then ForValue(dp, code, caption)
    else if dp.semantic.typ == "str" && (Contains(code, "colour") || Contains(code, "color")) then Plain(dp, COLOR, caption, "")
    else None
  }

  lemma {:induction false} ScaledBack(v: real, scale: nat)
    ensures Scaled(v, scale) * Pow10(scale) == v
  {
    if scale > 0 {
      ScaledBack(v, scale - 1);
      var x, p := Scaled(v, scale - 1), Pow10(scale - 1);
      assert x / 10.0 * (10.0 * p) == x * p;
    }
  }

  function Pow10(n: nat): real { if n == 0 then 1.0 else 10.0 * Pow10(n - 1) }

  method ScaledRange(dp: DP) returns (min: Option<int>, max: Option<int>)
    ensures min == Bound(dp.semantic.min, ScaleOf(dp.semantic)) && max == Bound(dp.semantic.max, ScaleOf(dp.semantic))
  {
    min := Convert(dp.semantic.min, dp.semantic.scale);
    max := Convert(dp.semantic.max, dp.semantic.scale);
  }

  method Convert(p: Option<real>, scale: Option<int>) returns (n: Option<int>)
    ensures n == Bound(p, if scale.Some? && scale.value > 0 then scale.value else 0)
  {
    if p.None? { return None; }
    var v := p.value;
    if scale.Some? && scale.value > 0 {
      for i := 0 to scale.value
        invariant v == Scaled(p.value, i)
      {
        v := v / 10.0;
      }
    }
    return Some(Color.Trunc(v));
  }

  // ---------- the app profile ----------

  /** How a datapoint becomes a capability by itself; CapabilityFor in the product. */
  type Rule = DP -> Option<Capability>

  /** The map from ids to datapoints keeps the last of each. */
  function FindDp(dps: seq<DP>, id: int): Option<DP> {
    if dps == [] then None
    else if dps[|dps| - 1].id == id then Some(dps[|dps| - 1])
    else FindDp(dps[..|dps| - 1], id)
  }

  /** What a control leaves open is filled from the datapoint's own capability, then from its name. */
  function Filled(rule: Rule, c: Control, dp: DP): Capability {
    var h := rule(dp);
    Capability(c.dp,
      if c.kind == "" && h.Some? then h.value.kind else c.kind,
      if c.caption != "" then c.caption else if h.Some? && h.value.caption != "" then h.value.caption
      else if dp.name != "" then dp.name else dp.code,
      if c.min.None? && h.Some? then h.value.min else c.min,
      if c.max.None? && h.Some? then h.value.max else c.max,
      if c.unit == "" && h.Some? then h.value.unit else c.unit,
      c.widget)
  }

  predicate Shown(dps: seq<DP>, c: Control) { !c.hidden && FindDp(dps, c.dp).Some? }

  function ControlCaps(rule: Rule, dps: seq<DP>, controls: seq<Control>): seq<Capability> {
    if controls == [] then []
    else
      var n := |controls| - 1;
      var c := controls[n];
      ControlCaps(rule, dps, controls[..n]) + (if Shown(dps, c) then [Filled(rule, c, FindDp(dps, c.dp).value)] else [])
  }

  /** The ids that the panel has dealt with. */
  function Listed(dps: seq<DP>, controls: seq<Control>): set<int> {
    set c | c in controls && (c.hidden || FindDp(dps, c.dp).Some?) :: c.dp
  }

  function AutoCaps(rule: Rule, dps: seq<DP>, listed: set<int>): seq<Capability> {
    if dps == [] then []
    else
      var n := |dps| - 1;
      AutoCaps(rule, dps[..n], listed) + (if dps[n].id !in listed && rule(dps[n]).Some? then [rule(dps[n]).value] else [])
  }

  function PanelCaps(rule: Rule, dps: seq<DP>, controls: seq<Control>): seq<Capability> {
    ControlCaps(rule, dps, controls) + AutoCaps(rule, dps, Listed(dps, controls))
  }

  predicate Has(caps: seq<Capability>, kind: string) { exists i | 0 <= i < |caps| :: caps[i].kind == kind }

  datatype Look = Look(consumerType: string, icon: string, name: string)

  function LookOf(caps: seq<Capability>): Look {
    if Has(caps, BRIGHTNESS) || Has(caps, COLOR) || Has(caps, COLOR_TEMP) then Look("lighting", "lightbulb", "Smart Light")
    else if Has(caps, TARGET_TEMP) then Look("climate", "thermometer", "Smart Thermostat")
    else if Has(caps, CONTACT) || Has(caps, MOTION) || Has(caps, TEMPERATURE) || Has(caps, HUMIDITY)
      then Look("sensors", "sensor", "Smart Sensor")
    else if Has(caps, POWER) then Look("plug", "power_plug", "Smart Plug")
    else Look("sensors", "sensor", "Smart Device")
  }

  /** The first capability of a kind. */
  function FirstOf(caps: seq<Capability>, kind: string): Option<int> {
    if caps == [] then None else if caps[0].kind == kind then Some(caps[0].dp) else FirstOf(caps[1..], kind)
  }

  function Normalize(a: Option<Assistant>): Option<Assistant> {
    if a.None? then None
    else
      var both := a.value.enabled && !a.value.alexa && !a.value.google;
      var alexa, google := a.value.alexa || both, a.value.google || both;
      Some(Assistant(a.value.enabled || alexa || google, alexa, google))
  }

  function AssistantOf(a: Artifact): Option<Assistant> {
    Normalize(if a.panel.Some? && a.panel.value.assistant.Some? then a.panel.value.assistant else a.assistant)
  }

  function WithPanel(rule: Rule, a: Artifact, p: Panel): Profile {
    var caps := PanelCaps(rule, a.dps, p.controls);
    var look := LookOf(caps);
    var tiled := p.tileMetric.Some? && p.tileMetric.value.dp != 0;
    Profile(look.consumerType,
      if p.display.Some? && p.display.value.icon != "" then p.display.value.icon else look.icon,
      if p.display.Some? && p.display.value.defaultName != "" then p.display.value.defaultName else look.name,
      caps,
      if tiled then Some(p.tileMetric.value.dp) else FirstOf(caps, BRIGHTNESS),
      if tiled then p.tileMetric.value.format else "",
      p.theme, p.groups, AssistantOf(a))
  }

  function WithoutPanel(rule: Rule, a: Artifact): Profile {
    var caps := AutoCaps(rule, a.dps, {});
    var look := LookOf(caps);
    Profile(look.consumerType, look.icon, look.name, caps, FirstOf(caps, BRIGHTNESS), "", "", [], AssistantOf(a))
  }

  function ProfileOf(rule: Rule, a: Artifact): Profile {
    if a.panel.Some? then WithPanel(rule, a, a.panel.value) else WithoutPanel(rule, a)
  }

  method FromControls(rule: Rule, dps: seq<DP>, controls: seq<Control>) returns (caps: seq<Capability>, listed: set<int>)
    ensures caps == ControlCaps(rule, dps, controls) && listed == Listed(dps, controls)
  {
    caps, listed := [], {};
    for i := 0 to |controls|
      invariant caps == ControlCaps(rule, dps, controls[..i])
      invariant listed == Listed(dps, controls[..i])
    {
      var ctrl := controls[i];
      assert controls[..i + 1] == controls[..i] + [ctrl];
      ListedOneMore(dps, controls[..i], ctrl);
      if ctrl.hidden {
        listed := listed + {ctrl.dp};
        assert caps + [] == caps;
        continue;
      }
      var dp := FindDp(dps, ctrl.dp);
      if dp.None? {
        assert caps + [] == caps;
        continue;
      }
      listed := listed + {ctrl.dp};
      caps := caps + [Filled(rule, ctrl, dp.value)];
    }
    assert controls[..|controls|] == controls;
  }

  method FromDps(rule: Rule, dps: seq<DP>, listed: set<int>) returns (caps: seq<Capability>)
    ensures caps == AutoCaps(rule, dps, listed)
  {
    caps := [];
    for i := 0 to |dps|
      invariant caps == AutoCaps(rule, dps[..i], listed)
    {
      assert dps[..i + 1][..i] == dps[..i] && dps[..i + 1][i] == dps[i];
      assert caps + [] == caps;
      if dps[i].id in listed { continue; }
      var c := rule(dps[i]);
      if c.Some? { caps := caps + [c.value]; }
    }
    assert dps[..|dps|] == dps;
  }

  method AppProfile(a: Artifact) returns (p: Profile)
    ensures p == ProfileOf(CapabilityFor, a)
  {
    if a.panel.None? {
      var caps := FromDps(CapabilityFor, a.dps, {});
      var look := LookOf(caps);
      return Profile(look.consumerType, look.icon, look.name, caps, FirstOf(caps, BRIGHTNESS), "", "", [], AssistantOf(a));
    }
    var panel := a.panel.value;
    var authored, listed := FromControls(CapabilityFor, a.dps, panel.controls);
    var rest := FromDps(CapabilityFor, a.dps, listed);
    var caps := authored + rest;
    var look := LookOf(caps);
    var icon, name := look.icon, look.name;
    if panel.display.Some? {
      if panel.display.value.icon != "" { icon := panel.display.value.icon; }
      if panel.display.value.defaultName != "" { name := panel.display.value.defaultName; }
    }
    var tileDp, tileFormat := FirstOf(caps, BRIGHTNESS), "";
    if panel.tileMetric.Some? && panel.tileMetric.value.dp != 0 {
      tileDp, tileFormat := Some(panel.tileMetric.value.dp), panel.tileMetric.value.format;
    }
    return Profile(look.consumerType, icon, name, caps, tileDp, tileFormat, panel.theme, panel.groups, AssistantOf(a));
  }

  lemma ListedOneMore(dps: seq<DP>, controls: seq<Control>, c: Control)
    ensures Listed(dps, controls + [c]) == Listed(dps, controls) + (if c.hidden || FindDp(dps, c.dp).Some? then {c.dp} else {})
  {
    var cs := controls + [c];
    assert forall d :: d in cs <==> d in controls || d == c;
  }

  // ---------- what a panel changes ----------

  /** A panel that asks for no control, name, icon or tile changes nothing but theme, groups and assistants. */
  lemma SilentPanelIsNoPanel(rule: Rule, a: Artifact)
    requires a.panel.Some? && a.panel.value.controls == []
    requires var d := a.panel.value.display; d.None? || d.value == Display("", "")
    requires var t := a.panel.value.tileMetric; t.None? || t.value.dp == 0
    ensures var p, q := ProfileOf(rule, a), ProfileOf(rule, a.(panel := None));
      p == q.(theme := a.panel.value.theme, groups := a.panel.value.groups, assistant := AssistantOf(a))
  {
    assert Listed(a.dps, []) == {};
    assert ControlCaps(rule, a.dps, []) + AutoCaps(rule, a.dps, {}) == AutoCaps(rule, a.dps, {});
  }

  // ---------- which capabilities, in which order ----------

  ghost predicate KeepsId(rule: Rule) {
    forall dp :: rule(dp).Some? ==> rule(dp).value.dp == dp.id
  }

  function Ids(caps: seq<Capability>): seq<int> { seq(|caps|, i requires 0 <= i < |caps| => caps[i].dp) }

  /** The controls that are shown, in panel order. */
  function ShownControls(dps: seq<DP>, controls: seq<Control>): seq<int> {
    if controls == [] then []
    else
      var n := |controls| - 1;
      ShownControls(dps, controls[..n]) + (if Shown(dps, controls[n]) then [controls[n].dp] else [])
  }

  /** The datapoints of their own right that no control mentions, in artifact order. */
  function UnlistedDps(rule: Rule, dps: seq<DP>, controls: seq<Control>): seq<int> {
    if dps == [] then []
    else
      var n := |dps| - 1;
      UnlistedDps(rule, dps[..n], controls) + (if rule(dps[n]).Some? && !Mentioned(controls, dps[n].id) then [dps[n].id] else [])
  }

  predicate Mentioned(controls: seq<Control>, id: int) { exists c | c in controls :: c.dp == id }

  lemma {:induction false} FindDpExactly(dps: seq<DP>, id: int)
    ensures FindDp(dps, id).Some? <==> exists dp :: dp in dps && dp.id == id
    ensures FindDp(dps, id).Some? ==> FindDp(dps, id).value in dps && FindDp(dps, id).value.id == id
  {
    if dps != [] {
      var n := |dps| - 1;
      FindDpExactly(dps[..n], id);
      assert forall dp :: dp in dps <==> dp in dps[..n] || dp == dps[n];
    }
  }

  /** On ids of the artifact, what the panel has dealt with is what it mentions. */
  lemma ListedIsMentioned(dps: seq<DP>, controls: seq<Control>, dp: DP)
    requires dp in dps
    ensures dp.id in Listed(dps, controls) <==> Mentioned(controls, dp.id)
  {
    FindDpExactly(dps, dp.id);
    if Mentioned(controls, dp.id) {
      var c :| c in controls && c.dp == dp.id;
      assert c.dp in Listed(dps, controls);
    }
  }

  lemma {:induction false} ControlIds(rule: Rule, dps: seq<DP>, controls: seq<Control>)
    ensures Ids(ControlCaps(rule, dps, controls)) == ShownControls(dps, controls)
  {
    if controls != [] { ControlIds(rule, dps, controls[..|controls| - 1]); }
  }

  lemma {:induction false} AutoIds(rule: Rule, dps: seq<DP>, all: seq<DP>, controls: seq<Control>)
    requires KeepsId(rule) && forall dp | dp in dps :: dp in all
    ensures Ids(AutoCaps(rule, dps, Listed(all, controls))) == UnlistedDps(rule, dps, controls)
  {
    if dps != [] {
      var n := |dps| - 1;
      AutoIds(rule, dps[..n], all, controls);
      ListedIsMentioned(all, controls, dps[n]);
    }
  }

  /** A panel's capabilities are its shown controls and then the datapoints it does not mention, each in their order. */
  lemma CapabilitiesExactly(rule: Rule, a: Artifact)
    requires KeepsId(rule) && a.panel.Some?
    ensures var cs := a.panel.value.controls;
      Ids(ProfileOf(rule, a).capabilities) == ShownControls(a.dps, cs) + UnlistedDps(rule, a.dps, cs)
  {
    var cs := a.panel.value.controls;
    ControlIds(rule, a.dps, cs);
    AutoIds(rule, a.dps, a.dps, cs);
    var x, y := ControlCaps(rule, a.dps, cs), AutoCaps(rule, a.dps, Listed(a.dps, cs));
    assert Ids(x + y) == Ids(x) + Ids(y);
  }

  lemma {:induction false} ShownControlsHas(dps: seq<DP>, controls: seq<Control>, id: int)
    ensures id in ShownControls(dps, controls) <==> exists c :: c in controls && c.dp == id && Shown(dps, c)
  {
    if controls != [] {
      var n := |controls| - 1;
      ShownControlsHas(dps, controls[..n], id);
      assert forall c :: c in controls <==> c in controls[..n] || c == controls[n];
    }
  }

  lemma {:induction false} UnlistedHas(rule: Rule, dps: seq<DP>, controls: seq<Control>, id: int)
    ensures id in UnlistedDps(rule, dps, controls)
      <==> !Mentioned(controls, id) && exists dp :: dp in dps && dp.id == id && rule(dp).Some?
  {
    if dps != [] {
      var n := |dps| - 1;
      UnlistedHas(rule, dps[..n], controls, id);
      assert forall dp :: dp in dps <==> dp in dps[..n] || dp == dps[n];
    }
  }

  /** Whether a profile with a panel has a capability for an id; a hidden id has none unless another control shows it. */
  lemma ShowsExactly(rule: Rule, a: Artifact, id: int)
    requires KeepsId(rule) && a.panel.Some?
    ensures var cs := a.panel.value.controls;
      id in Ids(ProfileOf(rule, a).capabilities) <==>
        (exists c :: c in cs && c.dp == id && Shown(a.dps, c))
        || (!Mentioned(cs, id) && exists dp :: dp in a.dps && dp.id == id && rule(dp).Some?)
  {
    var cs := a.panel.value.controls;
    CapabilitiesExactly(rule, a);
    ShownControlsHas(a.dps, cs, id);
    UnlistedHas(rule, a.dps, cs, id);
  }

  ghost predicate Distinct(ids: seq<int>) { forall i, j | 0 <= i < j < |ids| :: ids[i] != ids[j] }

  lemma DistinctParts(x: seq<int>, y: seq<int>)
    requires forall id | id in x :: id !in y
    ensures Distinct(x + y) <==> Distinct(x) && Distinct(y)
  {
    var z := x + y;
    assert forall i | 0 <= i < |x| :: z[i] == x[i] && z[i] in x;
    assert forall i | 0 <= i < |y| :: z[|x| + i] == y[i] && y[i] in y;
  }

  /** Each id appears once exactly when no two shown controls and no two unmentioned datapoints share one. */
  lemma OnceExactly(rule: Rule, a: Artifact)
    requires KeepsId(rule) && a.panel.Some?
    ensures var cs := a.panel.value.controls;
      Distinct(Ids(ProfileOf(rule, a).capabilities)) <==> Distinct(ShownControls(a.dps, cs)) && Distinct(UnlistedDps(rule, a.dps, cs))
  {
    var cs := a.panel.value.controls;
    CapabilitiesExactly(rule, a);
    forall id | id in ShownControls(a.dps, cs) ensures id !in UnlistedDps(rule, a.dps, cs) {
      ShownControlsHas(a.dps, cs, id);
      UnlistedHas(rule, a.dps, cs, id);
    }
    DistinctParts(ShownControls(a.dps, cs), UnlistedDps(rule, a.dps, cs));
  }

  ghost predicate DistinctControls(controls: seq<Control>) {
    forall i, j | 0 <= i < j < |controls| :: controls[i].dp != controls[j].dp
  }

  ghost predicate DistinctIds(dps: seq<DP>) { forall i, j | 0 <= i < j < |dps| :: dps[i].id != dps[j].id }

  lemma {:induction false} DistinctShown(dps: seq<DP>, controls: seq<Control>)
    requires DistinctControls(controls)
    ensures Distinct(ShownControls(dps, controls))
  {
    if controls != [] {
      var n := |controls| - 1;
      DistinctShown(dps, controls[..n]);
      ShownControlsHas(dps, controls[..n], controls[n].dp);
    }
  }

  lemma {:induction false} DistinctUnlisted(rule: Rule, dps: seq<DP>, controls: seq<Control>)
    requires DistinctIds(dps)
    ensures Distinct(UnlistedDps(rule, dps, controls))
  {
    if dps != [] {
      var n := |dps| - 1;
      DistinctUnlisted(rule, dps[..n], controls);
      UnlistedHas(rule, dps[..n], controls, dps[n].id);
    }
  }

  lemma {:induction false} NoPanelIds(rule: Rule, dps: seq<DP>)
    requires KeepsId(rule)
    ensures Ids(AutoCaps(rule, dps, {})) == UnlistedDps(rule, dps, [])
  {
    assert Listed(dps, []) == {};
    AutoIds(rule, dps, dps, []);
  }

  /** A released artifact with distinct ids has one capability per id, panel or none. */
  lemma DistinctArtifactsHaveDistinctCapabilities(a: Artifact)
    requires DistinctIds(a.dps) && (a.panel.Some? ==> DistinctControls(a.panel.value.controls))
    ensures Distinct(Ids(ProfileOf(CapabilityFor, a).capabilities))
  {
    if a.panel.Some? {
      OnceExactly(CapabilityFor, a);
      DistinctShown(a.dps, a.panel.value.controls);
      DistinctUnlisted(CapabilityFor, a.dps, a.panel.value.controls);
    } else {
      NoPanelIds(CapabilityFor, a.dps);
      DistinctUnlisted(CapabilityFor, a.dps, []);
    }
  }

  // ---------- where a capability comes from ----------

  function Controls(a: Artifact): seq<Control> { if a.panel.Some? then a.panel.value.controls else [] }

  /** Some visible control of an existing datapoint is shown as this capability. */
  ghost predicate FromControl(rule: Rule, a: Artifact, cap: Capability) {
    exists c :: c in Controls(a) && Shown(a.dps, c) && cap == Filled(rule, c, FindDp(a.dps, c.dp).value)
  }

  /** Some datapoint that no control mentions suggests it. */
  ghost predicate FromDatapoint(rule: Rule, a: Artifact, cap: Capability) {
    exists dp :: dp in a.dps && !Mentioned(Controls(a), dp.id) && rule(dp) == Some(cap)
  }

  lemma {:induction false} ControlCapsHas(rule: Rule, dps: seq<DP>, controls: seq<Control>, cap: Capability)
    ensures cap in ControlCaps(rule, dps, controls)
      <==> exists c :: c in controls && Shown(dps, c) && cap == Filled(rule, c, FindDp(dps, c.dp).value)
  {
    if controls != [] {
      var n := |controls| - 1;
      ControlCapsHas(rule, dps, controls[..n], cap);
      assert forall c :: c in controls <==> c in controls[..n] || c == controls[n];
    }
  }

  lemma {:induction false} AutoCapsHas(rule: Rule, dps: seq<DP>, listed: set<int>, cap: Capability)
    ensures cap in AutoCaps(rule, dps, listed) <==> exists dp :: dp in dps && dp.id !in listed && rule(dp) == Some(cap)
  {
    if dps != [] {
      var n := |dps| - 1;
      AutoCapsHas(rule, dps[..n], listed, cap);
      assert forall dp :: dp in dps <==> dp in dps[..n] || dp == dps[n];
    }
  }

  /** A profile has a capability exactly when a visible control or an unmentioned datapoint gives it. */
  lemma CapabilityFromExactly(rule: Rule, a: Artifact, cap: Capability)
    ensures cap in ProfileOf(rule, a).capabilities <==> FromControl(rule, a, cap) || FromDatapoint(rule, a, cap)
  {
    var cs := Controls(a);
    var listed := Listed(a.dps, cs);
    ControlCapsHas(rule, a.dps, cs, cap);
    AutoCapsHas(rule, a.dps, listed, cap);
    forall dp | dp in a.dps ensures dp.id in listed <==> Mentioned(cs, dp.id) { ListedIsMentioned(a.dps, cs, dp); }
    if a.panel.None? { assert listed == {} && ControlCaps(rule, a.dps, cs) == []; }
  }

  ghost predicate IsFirst(caps: seq<Capability>, kind: string, i: int) {
    0 <= i < |caps| && caps[i].kind == kind && forall j | 0 <= j < i :: caps[j].kind != kind
  }

  /** The tile of a profile without a chosen metric is its first brightness, if it has any. */
  lemma {:induction false} FirstOfExactly(caps: seq<Capability>, kind: string, dp: int)
    ensures FirstOf(caps, kind) == Some(dp) <==> exists i :: IsFirst(caps, kind, i) && caps[i].dp == dp
  {
    if caps != [] {
      FirstOfExactly(caps[1..], kind, dp);
      if caps[0].kind == kind {
        assert forall i | IsFirst(caps, kind, i) :: i == 0;
        assert IsFirst(caps, kind, 0);
      } else {
        forall i ensures IsFirst(caps, kind, i) <==> IsFirst(caps[1..], kind, i - 1) {
          assert forall j | 1 <= j < |caps| :: caps[j] == caps[1..][j - 1];
          assert forall j | 0 <= j < |caps[1..]| :: caps[1..][j] == caps[j + 1];
        }
        if i :| IsFirst(caps[1..], kind, i) && caps[1..][i].dp == dp {
          assert IsFirst(caps, kind, i + 1) && caps[i + 1].dp == dp;
        }
      }
    }
  }

  /** A configured assistant is enabled exactly when some platform is, and normalising again changes nothing. */
  lemma NormalizeSettles(a: Assistant)
    ensures var n := Normalize(Some(a)).value;
      n.enabled == (n.alexa || n.google) && Normalize(Some(n)) == Some(n)
      && ((a.alexa || a.google || !a.enabled) ==> n.alexa == a.alexa && n.google == a.google)
  {
  }

  // ---------- the firmware configuration ----------

  datatype Entry = Entry(typ: string, gpio: Option<int>, red: Option<int>, green: Option<int>, blue: Option<int>,
    activeHigh: Option<bool>, freqHz: Option<int>, resolution: Option<int>, button: Option<int>, buttonActiveHigh: Option<bool>)

  predicate Actuated(dp: DP) { dp.hardware.actuation != "" && dp.hardware.actuation != "none" }

  function EntryOf(h: Hardware): Entry {
    var rgb := h.actuation == "rgb";
    Entry(h.actuation, if rgb then None else h.gpio, if rgb then h.red else None, if rgb then h.green else None,
      if rgb then h.blue else None, h.activeHigh, h.freqHz, h.resolution, h.button,
      if h.button.Some? then h.buttonActiveHigh else None)
  }

  method FirmwareConfig(a: Artifact) returns (config: map<int, Entry>)
    ensures forall id :: id in config <==> LastActuated(a.dps, id).Some?
    ensures forall id | id in config :: config[id] == EntryOf(LastActuated(a.dps, id).value.hardware)
  {
    config := map[];
    for i := 0 to |a.dps|
      invariant forall id :: id in config <==> LastActuated(a.dps[..i], id).Some?
      invariant forall id | id in config :: config[id] == EntryOf(LastActuated(a.dps[..i], id).value.hardware)
    {
      assert a.dps[..i + 1][..i] == a.dps[..i] && a.dps[..i + 1][i] == a.dps[i];
      var dp := a.dps[i];
      if dp.hardware.actuation == "" || dp.hardware.actuation == "none" { continue; }
      var entry := Entry(dp.hardware.actuation, None, None, None, None, None, None, None, None, None);
      if dp.hardware.actuation == "rgb" {
        entry := entry.(red := dp.hardware.red, green := dp.hardware.green, blue := dp.hardware.blue);
      } else {
        entry := entry.(gpio := dp.hardware.gpio);
      }
      entry := entry.(activeHigh := dp.hardware.activeHigh, freqHz := dp.hardware.freqHz, resolution := dp.hardware.resolution);
      if dp.hardware.button.Some? {
        entry := entry.(button := dp.hardware.button, buttonActiveHigh := dp.hardware.buttonActiveHigh);
      }
      config := config[dp.id := entry];
    }
    assert a.dps[..|a.dps|] == a.dps;
  }

  function LastActuated(dps: seq<DP>, id: int): Option<DP> {
    if dps == [] then None
    else if dps[|dps| - 1].id == id && Actuated(dps[|dps| - 1]) then Some(dps[|dps| - 1])
    else LastActuated(dps[..|dps| - 1], id)
  }

  /** The firmware is told of an id exactly when some datapoint with it drives hardware. */
  lemma {:induction false} ActuatedExactly(dps: seq<DP>, id: int)
    ensures LastActuated(dps, id).Some? <==> exists dp :: dp in dps && dp.id == id && Actuated(dp)
  {
    if dps != [] {
      ActuatedExactly(dps[..|dps| - 1], id);
      assert forall dp :: dp in dps <==> dp in dps[..|dps| - 1] || dp == dps[|dps| - 1];
    }
  }
}
