// Colour and colour-temperature conversions over the reals (internal/capability/mapper.go).
module Color {

  // ---------- math ----------

  function Abs(x: real): real { if x < 0.0 then -x else x }
  function Max(x: real, y: real): real { if x > y then x else y }
  function Min(x: real, y: real): real { if x < y then x else y }

  /** Conversion to int truncates toward zero. */
  function Trunc(x: real): int { if x < 0.0 then -((-x).Floor) else x.Floor }

  /** math.Mod: the result has the sign of x. */
  function Mod(x: real, y: real): real
    requires y > 0.0
  {
    x - y * Trunc(x / y) as real
  }

  /** math.Round: half away from zero. */
  function Round(x: real): int { if x < 0.0 then -((-x + 0.5).Floor) else (x + 0.5).Floor }

  // ---------- the two conversions ----------

  datatype RGB = RGB(r: int, g: int, b: int)

  datatype HSB = HSB(hue: real, saturation: real, brightness: real)

  /** Channels on the scale 0 to 1, before rounding. */
  datatype Light = Light(r: real, g: real, b: real)

  function MaxOf(l: Light): real { Max(l.r, Max(l.g, l.b)) }
  function MinOf(l: Light): real { Min(l.r, Min(l.g, l.b)) }

  function Hue(l: Light): real {
    var max := MaxOf(l);
    var delta := max - MinOf(l);
    if delta == 0.0 then 0.0
    else if max == l.r then 60.0 * Mod((l.g - l.b) / delta, 6.0)
    else if max == l.g then 60.0 * ((l.b - l.r) / delta + 2.0)
    else 60.0 * ((l.r - l.g) / delta + 4.0)
  }

  function HueOf(l: Light): real { if Hue(l) < 0.0 then Hue(l) + 360.0 else Hue(l) }

  function SaturationOf(l: Light): real { if MaxOf(l) != 0.0 then (MaxOf(l) - MinOf(l)) / MaxOf(l) else 0.0 }

  function LightToHSB(l: Light): HSB { HSB(HueOf(l), SaturationOf(l), MaxOf(l)) }

  function Scaled(rgb: RGB): Light {
    Light(rgb.r as real / 255.0, rgb.g as real / 255.0, rgb.b as real / 255.0)
  }

  function RGBToHSB(rgb: RGB): HSB { LightToHSB(Scaled(rgb)) }

  /** The second-largest component above the minimum. */
  function Second(c: real, h: real): real { c * (1.0 - Abs(Mod(h / 60.0, 2.0) - 1.0)) }

  /** Which channel is largest and which second, by hue. */
  function Sector(h: real, c: real, x: real, m: real): Light {
    if h < 60.0 then Light(c + m, x + m, m)
    else if h < 120.0 then Light(x + m, c + m, m)
    else if h < 180.0 then Light(m, c + m, x + m)
    else if h < 240.0 then Light(m, x + m, c + m)
    else if h < 300.0 then Light(x + m, m, c + m)
    else Light(c + m, m, x + m)
  }

  function HSBToLight(hsb: HSB): Light {
    var c := hsb.brightness * hsb.saturation;
    Sector(hsb.hue, c, Second(c, hsb.hue), hsb.brightness - c)
  }

  function HSBToRGB(hsb: HSB): RGB {
    var l := HSBToLight(hsb);
    RGB(Round(l.r * 255.0), Round(l.g * 255.0), Round(l.b * 255.0))
  }

  // ---------- temperature ----------

  function ColorTempToKelvin(v: int): int { 2700 + Trunc(v as real / 100.0 * 3800.0) }

  function KelvinToColorTemp(k: int): int {
    var v := (k - 2700) as real / 3800.0 * 100.0;
    if v < 0.0 then 0 else if v > 100.0 then 100 else Round(v)
  }

  lemma KelvinIsLinear(v: int)
    ensures ColorTempToKelvin(v) == 2700 + 38 * v
  {
    assert v as real / 100.0 * 3800.0 == (38 * v) as real;
  }

  /** Every setting on the scale survives Kelvin; settings off the scale are clamped to its ends. */
  lemma ColorTempSurvivesExactly(v: int)
    ensures KelvinToColorTemp(ColorTempToKelvin(v)) == (if v < 0 then 0 else if v > 100 then 100 else v)
  {
    KelvinIsLinear(v);
    assert (38 * v) as real / 3800.0 * 100.0 == v as real;
    RoundInt(v);
  }

  /** A lamp's temperature comes back within half a step of 38 K, and exactly on the steps only. */
  lemma KelvinWithinHalfAStep(k: int)
    requires 2700 <= k <= 6500
    ensures -19 <= ColorTempToKelvin(KelvinToColorTemp(k)) - k <= 19
    ensures ColorTempToKelvin(KelvinToColorTemp(k)) == k <==> (k - 2700) % 38 == 0
  {
    var n := k - 2700;
    var v := KelvinToColorTemp(k);
    KelvinIsLinear(v);
    assert n as real / 3800.0 * 100.0 == n as real / 38.0;
    assert v as real - 0.5 <= n as real / 38.0 < v as real + 0.5;
    assert 38 * v - 19 <= n <= 38 * v + 19;
    if n % 38 == 0 { assert n == 38 * (n / 38); }
    if 38 * v == n { assert n % 38 == 0; }
  }

  // ---------- sectors ----------

  /** The tent of slope one over the six sectors. */
  function Tent(q: real): real {
    if q < 1.0 then q else if q < 2.0 then 2.0 - q else if q < 3.0 then q - 2.0
    else if q < 4.0 then 4.0 - q else if q < 5.0 then q - 4.0 else 6.0 - q
  }

  function Times(a: real, b: real): real { a * b }

  lemma SmallMod(x: real)
    requires -6.0 < x < 6.0
    ensures Mod(x, 6.0) == x
  {
    assert -1.0 < x / 6.0 < 1.0;
    assert Trunc(x / 6.0) == 0;
  }

  lemma SecondIsTent(c: real, h: real)
    requires 0.0 <= h <= 360.0
    ensures Second(c, h) == Times(c, Tent(h / 60.0))
  {
    var q := h / 60.0;
    var k := (q / 2.0).Floor;
    assert 0 <= k <= 3 && 2.0 * k as real <= q < 2.0 * k as real + 2.0;
    assert Mod(q, 2.0) == q - 2.0 * k as real;
    assert 1.0 - Abs(Mod(q, 2.0) - 1.0) == Tent(q);
  }

  /** The light at hue 60q with chroma c over a floor m. */
  function At(q: real, c: real, x: real, m: real): Light { Sector(60.0 * q, c, x, m) }

  lemma LightByTimes(hsb: HSB)
    ensures var c := Times(hsb.brightness, hsb.saturation);
      HSBToLight(hsb) == Sector(hsb.hue, c, Second(c, hsb.hue), hsb.brightness - c)
  {
  }

  lemma LightIs(hsb: HSB, q: real, c: real, x: real)
    requires 0.0 <= q <= 6.0 && hsb.hue == 60.0 * q && c == Times(hsb.brightness, hsb.saturation) && x == Times(c, Tent(q))
    ensures HSBToLight(hsb) == At(q, c, x, hsb.brightness - c)
  {
    SecondIsTent(c, hsb.hue);
    assert hsb.hue / 60.0 == q;
    assert Second(c, hsb.hue) == x;
    LightByTimes(hsb);
  }

  lemma Share(c: real, t: real)
    requires c > 0.0 && 0.0 <= t <= 1.0
    ensures 0.0 <= Times(c, t) <= c && (Times(c, t) == c <==> t == 1.0) && (Times(c, t) == 0.0 <==> t == 0.0)
  {
    if t < 1.0 { assert c * (1.0 - t) > 0.0; }
    if t > 0.0 { assert Times(c, t) > 0.0; }
  }

  lemma Ratio(c: real, t: real, a: real)
    requires c > 0.0 && a == Times(c, t)
    ensures a / c == t
  {
    assert (a / c - t) * c == 0.0;
  }

  /** Read in the sectors whose largest channel is red, green or blue. */
  lemma HueNearRed(l: Light, c: real, p: real)
    requires c > 0.0 && -1.0 <= p <= 1.0 && MaxOf(l) == l.r && MaxOf(l) - MinOf(l) == c && l.g - l.b == Times(c, p)
    ensures Hue(l) == 60.0 * p
  {
    Ratio(c, p, l.g - l.b);
    SmallMod(p);
  }

  lemma HueNearGreen(l: Light, c: real, p: real)
    requires c > 0.0 && MaxOf(l) == l.g != l.r && MaxOf(l) - MinOf(l) == c && l.b - l.r == Times(c, p)
    ensures Hue(l) == 60.0 * (p + 2.0)
  {
    Ratio(c, p, l.b - l.r);
  }

  lemma HueNearBlue(l: Light, c: real, p: real)
    requires c > 0.0 && MaxOf(l) == l.b && l.b != l.r && l.b != l.g && MaxOf(l) - MinOf(l) == c && l.r - l.g == Times(c, p)
    ensures Hue(l) == 60.0 * (p + 4.0)
  {
    Ratio(c, p, l.r - l.g);
  }

  /** The largest and the least channel of a sector. */
  lemma SectorRange(q: real, c: real, x: real, m: real)
    requires 0.0 <= x <= c
    ensures var l := At(q, c, x, m); MaxOf(l) == m + c && MinOf(l) == m
  {
  }

  lemma RedSectors(q: real, c: real, x: real, m: real)
    requires c > 0.0 && (0.0 <= q <= 1.0 || 5.0 <= q <= 6.0) && x == Times(c, Tent(q)) && 0.0 <= x <= c
    ensures Hue(At(q, c, x, m)) == (if q <= 1.0 then 60.0 * q else 60.0 * (q - 6.0))
  {
    SectorRange(q, c, x, m);
    if q <= 1.0 { HueNearRed(At(q, c, x, m), c, q); } else { Opposite(c, Tent(q)); HueNearRed(At(q, c, x, m), c, q - 6.0); }
  }

  lemma GreenSectors(q: real, c: real, x: real, m: real)
    requires c > 0.0 && 1.0 < q <= 3.0 && x == Times(c, Tent(q)) && 0.0 <= x <= c && (x == c ==> q == 3.0)
    ensures Hue(At(q, c, x, m)) == 60.0 * q
  {
    SectorRange(q, c, x, m);
    if q < 2.0 { Opposite(c, Tent(q)); }
    HueNearGreen(At(q, c, x, m), c, q - 2.0);
  }

  lemma BlueSectors(q: real, c: real, x: real, m: real)
    requires c > 0.0 && 3.0 < q < 5.0 && x == Times(c, Tent(q)) && 0.0 <= x < c
    ensures Hue(At(q, c, x, m)) == 60.0 * q
  {
    SectorRange(q, c, x, m);
    if q < 4.0 { Opposite(c, Tent(q)); }
    HueNearBlue(At(q, c, x, m), c, q - 4.0);
  }

  lemma Within(q: real, c: real, x: real)
    requires c > 0.0 && 0.0 <= q <= 6.0 && x == Times(c, Tent(q))
    ensures 0.0 <= x <= c && (x == c <==> q == 1.0 || q == 3.0 || q == 5.0)
  {
    var t := Tent(q);
    Share(c, t);
  }

  /** The hue read off a sector is the hue that chose it; only 360 comes back as 0. */
  lemma SectorHue(q: real, c: real, x: real, m: real)
    requires c > 0.0 && 0.0 <= q <= 6.0 && x == Times(c, Tent(q))
    ensures HueOf(At(q, c, x, m)) == (if q == 6.0 then 0.0 else 60.0 * q)
    ensures MaxOf(At(q, c, x, m)) == m + c && MinOf(At(q, c, x, m)) == m
  {
    Within(q, c, x);
    SectorRange(q, c, x, m);
    if q <= 1.0 || q >= 5.0 { RedSectors(q, c, x, m); }
    else if q <= 3.0 { GreenSectors(q, c, x, m); }
    else { BlueSectors(q, c, x, m); }
  }

  lemma Opposite(c: real, t: real)
    ensures Times(c, -t) == -Times(c, t)
  {
  }

  // ---------- HSB to RGB and back ----------

  lemma Parts(hsb: HSB) returns (q: real, c: real, x: real)
    requires 0.0 <= hsb.hue <= 360.0 && 0.0 <= hsb.saturation <= 1.0 && 0.0 <= hsb.brightness
    ensures 0.0 <= q <= 6.0 && 0.0 <= x <= c <= hsb.brightness && HSBToLight(hsb) == At(q, c, x, hsb.brightness - c)
  {
    q, c := hsb.hue / 60.0, Times(hsb.brightness, hsb.saturation);
    x := Times(c, Tent(q));
    LightIs(hsb, q, c, x);
    Chroma(hsb);
    if c > 0.0 { Share(c, Tent(q)); }
  }

  /** The channels before rounding lie on the scale; so the rounded ones lie in 0 to 255. */
  lemma ChannelsInRange(hsb: HSB)
    requires 0.0 <= hsb.hue <= 360.0 && 0.0 <= hsb.saturation <= 1.0 && 0.0 <= hsb.brightness <= 1.0
    ensures Canonical(HSBToRGB(hsb))
  {
    var q, c, x := Parts(hsb);
    SectorRange(q, c, x, hsb.brightness - c);
    RoundedInRange(hsb);
  }

  lemma RoundedInRange(hsb: HSB)
    requires 0.0 <= MinOf(HSBToLight(hsb)) && MaxOf(HSBToLight(hsb)) <= 1.0
    ensures Canonical(HSBToRGB(hsb))
  {
    var l := HSBToLight(hsb);
    RoundInRange(l.r);
    RoundInRange(l.g);
    RoundInRange(l.b);
  }

  lemma Chroma(hsb: HSB)
    requires 0.0 <= hsb.saturation <= 1.0 && 0.0 <= hsb.brightness
    ensures 0.0 <= Times(hsb.brightness, hsb.saturation) <= hsb.brightness
  {
    if hsb.brightness > 0.0 { Share(hsb.brightness, hsb.saturation); }
  }

  lemma RoundInRange(x: real)
    requires 0.0 <= x <= 1.0
    ensures 0 <= Round(x * 255.0) <= 255
  {
  }

  /** Saturation and brightness come back, and the hue modulo 360. */
  lemma HSBSurvives(hsb: HSB)
    requires 0.0 <= hsb.hue <= 360.0 && 0.0 < hsb.saturation && 0.0 < hsb.brightness
    ensures LightToHSB(HSBToLight(hsb)) == hsb.(hue := if hsb.hue == 360.0 then 0.0 else hsb.hue)
  {
    var q, l := SaturatedParts(hsb);
    assert HSBToLight(hsb) == l;
  }

  lemma SaturatedParts(hsb: HSB) returns (q: real, l: Light)
    requires 0.0 <= hsb.hue <= 360.0 && 0.0 < hsb.saturation && 0.0 < hsb.brightness
    ensures q == hsb.hue / 60.0 && HSBToLight(hsb) == l && HueOf(l) == (if q == 6.0 then 0.0 else 60.0 * q)
    ensures MaxOf(l) == hsb.brightness && SaturationOf(l) == hsb.saturation
  {
    q := hsb.hue / 60.0;
    var c, v := Times(hsb.brightness, hsb.saturation), hsb.brightness;
    var x := Times(c, Tent(q));
    l := At(q, c, x, v - c);
    LightIs(hsb, q, c, x);
    Positive(v, hsb.saturation);
    SectorHue(q, c, x, v - c);
    SaturationIs(l, v, hsb.saturation);
  }

  lemma SaturationIs(l: Light, v: real, s: real)
    requires MaxOf(l) == v > 0.0 && MaxOf(l) - MinOf(l) == Times(v, s)
    ensures SaturationOf(l) == s
  {
    Ratio(v, s, MaxOf(l) - MinOf(l));
  }

  lemma Positive(a: real, b: real)
    requires a > 0.0 && b > 0.0
    ensures Times(a, b) > 0.0
  {
  }

  /** Grey has no hue to read back, and black no saturation either. */
  lemma GreyForgetsHue(hsb: HSB)
    requires 0.0 <= hsb.hue <= 360.0 && (hsb.brightness == 0.0 || hsb.saturation == 0.0)
    ensures LightToHSB(HSBToLight(hsb)) == HSB(0.0, 0.0, hsb.brightness)
  {
    var q := hsb.hue / 60.0;
    assert Times(0.0, Tent(q)) == 0.0;
    LightIs(hsb, q, 0.0, 0.0);
    SectorRange(q, 0.0, 0.0, hsb.brightness);
    if hsb.brightness != 0.0 { Ratio2(hsb.brightness); }
  }

  /** Which Alexa colours come back from RGB (before rounding) with their hue taken modulo 360. */
  lemma HSBSurvivesExactly(hsb: HSB)
    requires 0.0 <= hsb.hue <= 360.0 && 0.0 <= hsb.saturation && 0.0 <= hsb.brightness
    ensures var hue := if hsb.hue == 360.0 then 0.0 else hsb.hue;
      LightToHSB(HSBToLight(hsb)) == hsb.(hue := hue) <==>
        (hsb.saturation > 0.0 && hsb.brightness > 0.0) || (hsb.saturation == 0.0 && hue == 0.0)
  {
    if hsb.saturation > 0.0 && hsb.brightness > 0.0 { HSBSurvives(hsb); } else { GreyForgetsHue(hsb); }
  }

  lemma Ratio2(v: real)
    requires v != 0.0
    ensures 0.0 / v == 0.0
  {
  }

  // ---------- RGB to HSB and back ----------

  /** Every light with a chroma lies in a sector. */
  lemma FindSector(l: Light, d: real) returns (q: real, x: real)
    requires d == MaxOf(l) - MinOf(l) > 0.0
    ensures 0.0 <= q < 6.0 && x == Times(d, Tent(q)) && l == At(q, d, x, MinOf(l))
  {
    if l.r == MaxOf(l) && l.g < l.r { q, x := RedSector(l, d); }
    else if l.g == MaxOf(l) { q, x := GreenSector(l, d); }
    else { q, x := BlueSector(l, d); }
  }

  lemma RedSector(l: Light, d: real) returns (q: real, x: real)
    requires d == MaxOf(l) - MinOf(l) > 0.0 && l.r == MaxOf(l) && l.g < l.r
    ensures 0.0 <= q < 6.0 && x == Times(d, Tent(q)) && l == At(q, d, x, MinOf(l))
  {
    if l.g >= l.b { q, x := InSector(d, l.g - l.b, 0.0); } else { q, x := InSectorDown(d, l.b - l.g, 6.0); }
  }

  lemma GreenSector(l: Light, d: real) returns (q: real, x: real)
    requires d == MaxOf(l) - MinOf(l) > 0.0 && l.g == MaxOf(l)
    ensures 0.0 <= q < 6.0 && x == Times(d, Tent(q)) && l == At(q, d, x, MinOf(l))
  {
    if l.b == l.g { assert Tent(3.0) == 1.0; q, x := 3.0, d; }
    else if l.b <= l.r { q, x := InSectorDown(d, l.r - l.b, 2.0); }
    else { q, x := InSector(d, l.b - l.r, 2.0); }
  }

  lemma BlueSector(l: Light, d: real) returns (q: real, x: real)
    requires d == MaxOf(l) - MinOf(l) > 0.0 && l.b == MaxOf(l) && l.g < l.b
    ensures 0.0 <= q < 6.0 && x == Times(d, Tent(q)) && l == At(q, d, x, MinOf(l))
  {
    if l.r <= l.g { q, x := InSectorDown(d, l.g - l.r, 4.0); }
    else if l.r == l.b { assert Tent(5.0) == 1.0; q, x := 5.0, d; }
    else { q, x := InSector(d, l.r - l.g, 4.0); }
  }

  lemma InSector(d: real, a: real, base: real) returns (q: real, x: real)
    requires d > 0.0 && 0.0 <= a < d && (base == 0.0 || base == 2.0 || base == 4.0)
    ensures base <= q < base + 1.0 && x == a == Times(d, Tent(q))
  {
    var t := Portion(d, a);
    q, x := base + t, a;
    assert Tent(q) == t;
  }

  lemma InSectorDown(d: real, a: real, base: real) returns (q: real, x: real)
    requires d > 0.0 && 0.0 <= a <= d && (base == 2.0 || base == 4.0 || base == 6.0) && (base != 6.0 || a > 0.0)
    ensures base - 1.0 <= q <= base && (a > 0.0 ==> q < base) && x == a == Times(d, Tent(q))
  {
    var t := Portion(d, a);
    q, x := base - t, a;
    assert Tent(q) == t;
  }

  lemma Nonnegative(d: real, t: real)
    requires d > 0.0 && Times(d, t) >= 0.0
    ensures t >= 0.0
  {
  }

  lemma Portion(d: real, a: real) returns (t: real)
    requires d > 0.0 && 0.0 <= a <= d
    ensures 0.0 <= t <= 1.0 && Times(d, t) == a && (t == 0.0 <==> a == 0.0) && (t == 1.0 <==> a == d)
  {
    t := a / d;
    assert Times(d, t) == a;
    Nonnegative(d, t);
    Nonnegative(d, 1.0 - t);
  }

  lemma RoundInt(n: int)
    ensures Round(n as real) == n && Round(n as real / 255.0 * 255.0) == n
  {
    assert n as real / 255.0 * 255.0 == n as real;
  }

  lemma GraySurvives(l: Light)
    requires MaxOf(l) == MinOf(l)
    ensures HSBToLight(LightToHSB(l)) == l
  {
    if MaxOf(l) != 0.0 { Ratio2(MaxOf(l)); }
    assert LightToHSB(l) == HSB(0.0, 0.0, MaxOf(l));
    LightIs(LightToHSB(l), 0.0, 0.0, 0.0);
  }

  lemma ColourSurvives(l: Light)
    requires MaxOf(l) > MinOf(l) && MaxOf(l) != 0.0
    ensures HSBToLight(LightToHSB(l)) == l
  {
    var d, v := MaxOf(l) - MinOf(l), MaxOf(l);
    var q, x := FindSector(l, d);
    SectorHue(q, d, x, MinOf(l));
    assert v * (d / v) == d;
    LightIs(LightToHSB(l), q, d, x);
  }

  /** With a zero maximum the saturation is taken as zero, and what was below zero is lost. */
  lemma NegativeTurnsBlack(l: Light)
    requires MaxOf(l) == 0.0 > MinOf(l)
    ensures HSBToLight(LightToHSB(l)) == Light(0.0, 0.0, 0.0) != l
  {
    var d := MaxOf(l) - MinOf(l);
    var q, x := FindSector(l, d);
    SectorHue(q, d, x, MinOf(l));
    assert Times(0.0, Tent(q)) == 0.0;
    LightIs(LightToHSB(l), q, 0.0, 0.0);
  }

  /** Through HSB and back before rounding: nothing is lost unless the largest channel is zero and another is not. */
  lemma LightRoundTrip(l: Light)
    ensures HSBToLight(LightToHSB(l)) == l <==> MaxOf(l) != 0.0 || MinOf(l) == 0.0
  {
    if MaxOf(l) == MinOf(l) { GraySurvives(l); }
    else if MaxOf(l) != 0.0 { ColourSurvives(l); }
    else { NegativeTurnsBlack(l); }
  }

  /** The largest channel is zero and another is negative. */
  predicate Dark(rgb: RGB) {
    rgb.r <= 0 && rgb.g <= 0 && rgb.b <= 0 && (rgb.r == 0 || rgb.g == 0 || rgb.b == 0) && rgb != RGB(0, 0, 0)
  }

  lemma DarkScaled(rgb: RGB)
    ensures Dark(rgb) <==> MaxOf(Scaled(rgb)) == 0.0 > MinOf(Scaled(rgb))
  {
  }

  /** RGB to HSB to RGB is the identity on all integers, except exactly on a zero maximum with a negative channel. */
  lemma RGBSurvivesExactly(rgb: RGB)
    ensures HSBToRGB(RGBToHSB(rgb)) == rgb <==> !Dark(rgb)
  {
    DarkScaled(rgb);
    LightRoundTrip(Scaled(rgb));
    RoundInt(rgb.r);
    RoundInt(rgb.g);
    RoundInt(rgb.b);
    if Dark(rgb) {
      NegativeTurnsBlack(Scaled(rgb));
      assert HSBToRGB(RGBToHSB(rgb)) == RGB(0, 0, 0);
    }
  }

  /** The colours a device reports. */
  predicate Canonical(rgb: RGB) {
    0 <= rgb.r <= 255 && 0 <= rgb.g <= 255 && 0 <= rgb.b <= 255
  }

  /** A reported colour reaches HSB within its ranges and comes back whole. */
  lemma CanonicalSurvives(rgb: RGB)
    requires Canonical(rgb)
    ensures var hsb := RGBToHSB(rgb);
      0.0 <= hsb.hue < 360.0 && 0.0 <= hsb.saturation <= 1.0 && 0.0 <= hsb.brightness <= 1.0 && HSBToRGB(hsb) == rgb
  {
    RGBSurvivesExactly(rgb);
    var l := Scaled(rgb);
    var d, v := MaxOf(l) - MinOf(l), MaxOf(l);
    if d > 0.0 {
      var q, x := FindSector(l, d);
      SectorHue(q, d, x, MinOf(l));
      var t := Portion(v, d);
      Ratio(v, t, d);
    } else if v != 0.0 {
      Ratio2(v);
    }
  }
}
