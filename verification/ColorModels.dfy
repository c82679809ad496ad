// The HSV and HSL conversions of src/colors.cpp, in exact arithmetic.
module ColorModels {
  import opened Reals

  datatype Color = Color(x: real, y: real, z: real)

  function MaxOf(c: Color): (m: real)
    ensures c.x <= m && c.y <= m && c.z <= m && (m == c.x || m == c.y || m == c.z)
  {
    Max(Max(c.x, c.y), c.z)
  }

  function MinOf(c: Color): (m: real)
    ensures m <= c.x && m <= c.y && m <= c.z && (m == c.x || m == c.y || m == c.z)
  {
    Min(Min(c.x, c.y), c.z)
  }

  function Clamp(x: real, lo: real, hi: real): real {
    if x < lo then lo else if hi < x then hi else x
  }

  predicate InCube(c: Color) {
    0.0 <= c.x <= 1.0 && 0.0 <= c.y <= 1.0 && 0.0 <= c.z <= 1.0
  }

  /** std::fmod: the remainder has the sign of the dividend. */
  function Fmod(x: real, m: real): real
    requires m > 0.0
  {
    if x >= 0.0 then x - m * (x / m).Floor as real else -(-x - m * (-x / m).Floor as real)
  }

  function NormalizeHue(hue: real): real {
    var n := Fmod(hue, 360.0);
    if n < 0.0 then n + 360.0 else n
  }

  function RgbToHue(c: Color, lo: real, hi: real): real {
    if hi == lo then 0.0
    else if hi == c.x then Fmod(60.0 * ((c.y - c.z) / (hi - lo)) + 360.0, 360.0)
    else if hi == c.y then 60.0 * ((c.z - c.x) / (hi - lo)) + 120.0
    else 60.0 * ((c.x - c.y) / (hi - lo)) + 240.0
  }

  // ---------------------------------------------------------------------------------------------
  // Hues as sectors

  /** The colour whose hue is 60 (k + f), with the given largest and smallest channels. */
  function OfSector(k: nat, f: real, lo: real, hi: real): Color
    requires k < 6
  {
    var up, down := lo + f * (hi - lo), hi - f * (hi - lo);
    match k
    case 0 => Color(hi, up, lo)
    case 1 => Color(down, hi, lo)
    case 2 => Color(lo, hi, up)
    case 3 => Color(lo, down, hi)
    case 4 => Color(up, lo, hi)
    case _ => Color(hi, lo, down)
  }

  lemma DivideOut(a: real, d: real) returns (w: real)
    requires d > 0.0 && -d <= a <= d
    ensures w == a / d && w * d == a && -1.0 <= w <= 1.0
    ensures (a >= 0.0 <==> w >= 0.0) && (a == d <==> w == 1.0)
  {
    w := a / d;
    Sign(w, d);
    Sign(1.0 - w, d);
    Sign(w + 1.0, d);
    assert (1.0 - w) * d == d - a && (w + 1.0) * d == a + d;
  }

  lemma FloorIs(x: real, n: int)
    requires n as real <= x < n as real + 1.0
    ensures x.Floor == n
  {
  }

  lemma FmodTurn(w: real)
    requires -1.0 <= w <= 1.0
    ensures Fmod(60.0 * w + 360.0, 360.0) == if w >= 0.0 then 60.0 * w else 60.0 * w + 360.0
  {
    var x := 60.0 * w + 360.0;
    var q := x / 360.0;
    assert q * 360.0 == x;
    FloorIs(q, if w >= 0.0 then 1 else 0);
  }

  /** The sector and the position in it, for a signed offset w from the hue of the largest channel. */
  lemma SplitOffset(w: real, d: real, base: nat) returns (k: nat, f: real)
    requires -1.0 <= w <= 1.0 && base >= 1
    ensures 0.0 <= f < 1.0 && k as real + f == base as real + w
    ensures w == 1.0 ==> k == base + 1 && f == 0.0
    ensures 0.0 <= w < 1.0 ==> k == base && f == w
    ensures w < 0.0 ==> k == base - 1 && f == 1.0 + w && f * d == d + w * d
  {
    if w == 1.0 {
      k, f := base + 1, 0.0;
    } else if w >= 0.0 {
      k, f := base, w;
    } else {
      k, f := base - 1, 1.0 + w;
    }
  }

  lemma RedSector(c: Color, lo: real, hi: real) returns (k: nat, f: real)
    requires lo == MinOf(c) < MaxOf(c) == hi && hi == c.x
    ensures k < 6 && 0.0 <= f < 1.0 && RgbToHue(c, lo, hi) == 60.0 * (k as real + f) && c == OfSector(k, f, lo, hi)
  {
    var w := DivideOut(c.y - c.z, hi - lo);
    FmodTurn(w);
    k, f := SplitOffset(w, hi - lo, 6);
    if w >= 0.0 { k := k - 6; }
  }

  lemma GreenSector(c: Color, lo: real, hi: real) returns (k: nat, f: real)
    requires lo == MinOf(c) < MaxOf(c) == hi && hi == c.y && hi != c.x
    ensures k < 6 && 0.0 <= f < 1.0 && RgbToHue(c, lo, hi) == 60.0 * (k as real + f) && c == OfSector(k, f, lo, hi)
  {
    var w := DivideOut(c.z - c.x, hi - lo);
    k, f := SplitOffset(w, hi - lo, 2);
  }

  lemma BlueSector(c: Color, lo: real, hi: real) returns (k: nat, f: real)
    requires lo == MinOf(c) < MaxOf(c) == hi && hi != c.y && hi != c.x
    ensures k < 6 && 0.0 <= f < 1.0 && RgbToHue(c, lo, hi) == 60.0 * (k as real + f) && c == OfSector(k, f, lo, hi)
  {
    var w := DivideOut(c.x - c.y, hi - lo);
    k, f := SplitOffset(w, hi - lo, 4);
  }

  /** The hue names the sector of the colour, and the position in it. */
  lemma HueNamesSector(c: Color) returns (k: nat, f: real)
    requires MinOf(c) < MaxOf(c)
    ensures k < 6 && 0.0 <= f < 1.0
    ensures RgbToHue(c, MinOf(c), MaxOf(c)) == 60.0 * (k as real + f)
    ensures c == OfSector(k, f, MinOf(c), MaxOf(c))
  {
    var lo, hi := MinOf(c), MaxOf(c);
    if hi == c.x {
      k, f := RedSector(c, lo, hi);
    } else if hi == c.y {
      k, f := GreenSector(c, lo, hi);
    } else {
      k, f := BlueSector(c, lo, hi);
    }
  }

  lemma NormalSector(k: nat, f: real)
    requires k < 6 && 0.0 <= f < 1.0
    ensures NormalizeHue(60.0 * (k as real + f)) == 60.0 * (k as real + f)
  {
    var x := 60.0 * (k as real + f);
    var q := x / 360.0;
    assert q * 360.0 == x;
    FloorIs(q, 0);
  }

  // ---------------------------------------------------------------------------------------------
  // HSV

  function RgbToHsv(c: Color): Color {
    var hi, lo := MaxOf(c), MinOf(c);
    Color(RgbToHue(c, lo, hi), if hi == 0.0 then 0.0 else 1.0 - lo / hi, hi)
  }

  function HsvToRgb(c: Color): Color {
    var h, s, v := NormalizeHue(c.x), Clamp(c.y, 0.0, 1.0), Clamp(c.z, 0.0, 1.0);
    var sector := (h / 60.0).Floor % 6;
    var f := h / 60.0 - (h / 60.0).Floor as real;
    var p, q, t := v * (1.0 - s), v * (1.0 - f * s), v * (1.0 - (1.0 - f) * s);
    match sector
    case 0 => Color(v, t, p)
    case 1 => Color(q, v, p)
    case 2 => Color(p, v, t)
    case 3 => Color(p, q, v)
    case 4 => Color(t, p, v)
    case 5 => Color(v, p, q)
    case _ => Color(v, t, p)
  }

  /** An HSV colour in terms of its sector. */
  lemma HsvOfSector(k: nat, f: real, s: real, v: real, lo: real)
    requires k < 6 && 0.0 <= f < 1.0 && 0.0 <= s <= 1.0 && 0.0 <= v <= 1.0 && v * s == v - lo
    ensures HsvToRgb(Color(60.0 * (k as real + f), s, v)) == OfSector(k, f, lo, v)
  {
    NormalSector(k, f);
    FloorIs(60.0 * (k as real + f) / 60.0, k);
    var d := v - lo;
    assert v * (1.0 - s) == lo;
    assert v * (1.0 - f * s) == v - f * d by {
      assert v * (f * s) == f * (v * s);
    }
    assert v * (1.0 - (1.0 - f) * s) == lo + f * d by {
      assert v * ((1.0 - f) * s) == (1.0 - f) * (v * s);
    }
  }

  /** Going to HSV and back changes no colour. */
  lemma HsvRoundTrip(c: Color)
    requires InCube(c)
    ensures HsvToRgb(RgbToHsv(c)) == c
  {
    var hi, lo := MaxOf(c), MinOf(c);
    var s := RgbToHsv(c).y;
    assert hi * s == hi - lo && 0.0 <= s <= 1.0 by {
      if hi != 0.0 { SaturationRange(hi, lo, s); }
    }
    if hi == lo {
      HsvOfSector(0, 0.0, s, hi, lo);
    } else {
      var k, f := HueNamesSector(c);
      HsvOfSector(k, f, s, hi, lo);
    }
  }

  lemma SaturationRange(hi: real, lo: real, s: real)
    requires 0.0 <= lo <= hi && hi > 0.0 && s == 1.0 - lo / hi
    ensures hi * s == hi - lo && 0.0 <= s <= 1.0
  {
    var r := lo / hi;
    assert r * hi == lo;
    Sign(r, hi);
    Sign(1.0 - r, hi);
    assert (1.0 - r) * hi == hi - lo;
  }

  /** What the numbers of an HSV colour mean: the value is the largest channel, and the saturation the share of the
      value that the range of the channels makes up. */
  lemma HsvMeans(c: Color)
    requires InCube(c)
    ensures var hsv := RgbToHsv(c);
      && hsv.z == MaxOf(c) && hsv.y * MaxOf(c) == MaxOf(c) - MinOf(c) && (MaxOf(c) == 0.0 ==> hsv.y == 0.0)
      && hsv.x == RgbToHue(c, MinOf(c), MaxOf(c))
  {
    if MaxOf(c) != 0.0 { SaturationRange(MaxOf(c), MinOf(c), RgbToHsv(c).y); }
  }

  /** Where the pure colours are on the wheel. */
  lemma PureHues()
    ensures RgbToHsv(Color(1.0, 0.0, 0.0)) == Color(0.0, 1.0, 1.0)
    ensures RgbToHsv(Color(1.0, 1.0, 0.0)) == Color(60.0, 1.0, 1.0)
    ensures RgbToHsv(Color(0.0, 1.0, 0.0)) == Color(120.0, 1.0, 1.0)
    ensures RgbToHsv(Color(0.0, 1.0, 1.0)) == Color(180.0, 1.0, 1.0)
    ensures RgbToHsv(Color(0.0, 0.0, 1.0)) == Color(240.0, 1.0, 1.0)
    ensures RgbToHsv(Color(1.0, 0.0, 1.0)) == Color(300.0, 1.0, 1.0)
  {
    FmodTurn(0.0);
    FmodTurn(1.0);
    FmodTurn(-1.0);
  }

  // ---------------------------------------------------------------------------------------------
  // HSL

  /** Where the saturation is not a division by zero. */
  predicate HslDefined(c: Color) {
    MaxOf(c) == MinOf(c) || (MaxOf(c) + MinOf(c) != 0.0 && MaxOf(c) + MinOf(c) != 2.0)
  }

  function RgbToHsl(c: Color): Color
    requires HslDefined(c)
  {
    var hi, lo := MaxOf(c), MinOf(c);
    var l := 0.5 * (hi + lo);
    Color(RgbToHue(c, lo, hi), HslSaturation(lo, hi, l), l)
  }

  function HslSaturation(lo: real, hi: real, l: real): real
    requires hi == lo || (l != 0.0 && l != 1.0)
  {
    if hi == lo then 0.0 else if l <= 0.5 then (hi - lo) / (2.0 * l) else (hi - lo) / (2.0 - 2.0 * l)
  }

  function HslComponent(q: real, p: real, c: real): real {
    var c1 := if c < 0.0 then c + 1.0 else c;
    var c2 := if c1 > 1.0 then c1 - 1.0 else c1;
    if c2 < 1.0 / 6.0 then p + (q - p) * 6.0 * c2
    else if c2 < 0.5 then q
    else if c2 < 2.0 / 3.0 then p + (q - p) * 6.0 * (2.0 / 3.0 - c2)
    else p
  }

  function HslToRgb(c: Color): Color {
    var h, s, l := NormalizeHue(c.x) / 360.0, Clamp(c.y, 0.0, 1.0), Clamp(c.z, 0.0, 1.0);
    if s == 0.0 then Color(l, l, l)
    else
      var q := HslTop(s, l);
      var p := 2.0 * l - q;
      Color(HslComponent(q, p, h + 1.0 / 3.0), HslComponent(q, p, h), HslComponent(q, p, h - 1.0 / 3.0))
  }

  /** The largest channel of an HSL colour. */
  function HslTop(s: real, l: real): real {
    if l < 0.5 then l * (1.0 + s) else l + s - l * s
  }

  /** One component, with its place on the wheel given in sectors. */
  lemma ComponentOfSector(q: real, p: real, k: int, f: real, c: real)
    requires -2 <= k < 8 && 0.0 <= f < 1.0 && c == (k as real + f) / 6.0
    ensures HslComponent(q, p, c) == match k
      case 0 => p + f * (q - p)
      case 1 => q
      case 2 => q
      case 3 => q - f * (q - p)
      case 6 => if f == 0.0 then p else p + f * (q - p)
      case 7 => q
      case _ => p
  {
    assert 6.0 * c == k as real + f;
    var d := q - p;
    if k == 0 {
      assert d * 6.0 * c == d * (6.0 * c);
    } else if k == 6 {
      assert d * 6.0 * (c - 1.0) == d * (6.0 * (c - 1.0));
      assert 6.0 * (c - 1.0) == f;
    } else if k == 3 {
      assert 6.0 * (2.0 / 3.0 - c) == 1.0 - f;
      assert d * 6.0 * (2.0 / 3.0 - c) == d * (6.0 * (2.0 / 3.0 - c));
      assert d * (1.0 - f) == d - f * d;
    }
  }

  lemma HslOfSector(k: nat, f: real, p: real, q: real, h: real)
    requires k < 6 && 0.0 <= f < 1.0 && h == 60.0 * (k as real + f) / 360.0
    ensures Color(HslComponent(q, p, h + 1.0 / 3.0), HslComponent(q, p, h), HslComponent(q, p, h - 1.0 / 3.0))
         == OfSector(k, f, p, q)
  {
    assert h == (k as real + f) / 6.0;
    ComponentOfSector(q, p, k + 2, f, h + 1.0 / 3.0);
    ComponentOfSector(q, p, k, f, h);
    ComponentOfSector(q, p, k - 2, f, h - 1.0 / 3.0);
  }

  /** The saturation gives the largest and the smallest channel back. */
  lemma HslExtremes(hi: real, lo: real, l: real, s: real)
    requires 0.0 <= lo < hi <= 1.0 && l == 0.5 * (hi + lo) && s == HslSaturation(lo, hi, l)
    ensures 0.0 < s <= 1.0 && 0.0 <= l <= 1.0 && HslTop(s, l) == hi
  {
    var d, m := hi - lo, if l <= 0.5 then 2.0 * l else 2.0 - 2.0 * l;
    assert m > 0.0 && d <= m;
    assert s * m == d;
    Sign(s, m);
    Sign(1.0 - s, m);
    assert (1.0 - s) * m == m - d;
    if l < 0.5 {
      assert l * (1.0 + s) == l + l * s;
    } else if l > 0.5 {
      assert s * (2.0 - 2.0 * l) == 2.0 * (s - l * s);
    }
  }

  /** An HSL colour in terms of its sector. */
  lemma HslBack(hsl: Color, k: nat, f: real, lo: real, hi: real)
    requires k < 6 && 0.0 <= f < 1.0 && hsl.x == 60.0 * (k as real + f)
    requires 0.0 < hsl.y <= 1.0 && 0.0 <= hsl.z <= 1.0 && 2.0 * hsl.z == hi + lo && HslTop(hsl.y, hsl.z) == hi
    ensures HslToRgb(hsl) == OfSector(k, f, lo, hi)
  {
    NormalSector(k, f);
    HslOfSector(k, f, lo, hi, hsl.x / 360.0);
  }

  /** Going to HSL and back changes no colour. */
  lemma HslRoundTrip(c: Color, hsl: Color)
    requires InCube(c)
    ensures HslDefined(c) && (hsl == RgbToHsl(c) ==> HslToRgb(hsl) == c)
  {
    var lo, hi := MinOf(c), MaxOf(c);
    if hsl == RgbToHsl(c) {
      if hi == lo {
        assert hsl == Color(0.0, 0.0, lo);
        GreyBack(lo);
      } else {
        var k, f := HueNamesSector(c);
        HslExtremes(hi, lo, hsl.z, hsl.y);
        HslBack(hsl, k, f, lo, hi);
      }
    }
  }

  lemma GreyBack(l: real)
    requires 0.0 <= l <= 1.0
    ensures HslToRgb(Color(0.0, 0.0, l)) == Color(l, l, l)
  {
  }

  /** The range of the channels is the share s of the widest one of lightness l. */
  ghost predicate IsShare(s: real, l: real, range: real) {
    s * (1.0 - Abs(2.0 * l - 1.0)) == range
  }

  lemma HslRange(lo: real, hi: real, l: real, s: real)
    requires 0.0 <= lo < hi <= 1.0 && l == 0.5 * (hi + lo) && s == HslSaturation(lo, hi, l)
    ensures IsShare(s, l, hi - lo)
  {
    var m := if l <= 0.5 then 2.0 * l else 2.0 - 2.0 * l;
    assert m == 1.0 - Abs(2.0 * l - 1.0);
    DivideBack(hi - lo, m, s);
  }

  lemma DivideBack(d: real, m: real, s: real)
    requires m != 0.0 && s == d / m
    ensures s * m == d
  {
  }

  /** What the numbers of an HSL colour mean: the lightness is the middle between the largest and the smallest channel,
      and the saturation the share that their range has of the widest range of that lightness. */
  lemma HslMeans(c: Color, hsl: Color)
    requires InCube(c) && HslDefined(c) && hsl == RgbToHsl(c)
    ensures MaxOf(c) - hsl.z == hsl.z - MinOf(c)
    ensures MaxOf(c) != MinOf(c) ==> IsShare(hsl.y, hsl.z, MaxOf(c) - MinOf(c))
    ensures MaxOf(c) == MinOf(c) ==> hsl.y == 0.0
    ensures hsl.x == RgbToHue(c, MinOf(c), MaxOf(c))
  {
    var lo, hi := MinOf(c), MaxOf(c);
    if hi != lo { HslRange(lo, hi, hsl.z, hsl.y); }
  }
}
