// The CIECAM02 hue quadrature of src/colorspacious.cpp, after CIE 159:2004, in exact arithmetic.
module HueQuadrature {
  import opened Reals

  const QUADRATURES: seq<real> := [0.0, 100.0, 200.0, 300.0, 400.0]
  const HUES: seq<real> := [20.14, 90.0, 164.25, 237.53, 380.14]
  const ECCENTRICITIES: seq<real> := [0.8, 0.7, 1.0, 1.2, 0.8]

  // ---------------------------------------------------------------------------------------------
  // One segment between two unique hues

  /** A segment: the hues and the eccentricities of its ends. */
  datatype Segment = Segment(h0: real, h1: real, e0: real, e1: real)

  predicate Proper(s: Segment) {
    s.h0 < s.h1 && s.e0 > 0.0 && s.e1 > 0.0
  }

  /** The weight of the hue's two distances; the quadrature is undefined where it vanishes. */
  function Weight(s: Segment, h: real): real {
    s.e1 * (h - s.h0) + s.e0 * (s.h1 - h)
  }

  /** How far into the segment the hue is, from 0 to 100, as the source computes it. */
  function Part(s: Segment, h: real): real
    requires s.e0 != 0.0 && s.e1 != 0.0 && Weight(s, h) != 0.0
  {
    var tmp := (h - s.h0) / s.e0;
    WeightScales(s, h);
    100.0 * tmp / (tmp + (s.h1 - h) / s.e1)
  }

  lemma WeightScales(s: Segment, h: real)
    requires s.e0 != 0.0 && s.e1 != 0.0
    ensures ((h - s.h0) / s.e0 + (s.h1 - h) / s.e1) * (s.e0 * s.e1) == Weight(s, h)
    ensures Weight(s, h) != 0.0 ==> (h - s.h0) / s.e0 + (s.h1 - h) / s.e1 != 0.0
  {
    var a, b := (h - s.h0) / s.e0, (s.h1 - h) / s.e1;
    assert a * s.e0 == h - s.h0 && b * s.e1 == s.h1 - h;
    assert (a + b) * (s.e0 * s.e1) == (a * s.e0) * s.e1 + (b * s.e1) * s.e0;
  }

  lemma PartTimesWeight(s: Segment, h: real)
    requires s.e0 != 0.0 && s.e1 != 0.0 && Weight(s, h) != 0.0
    ensures Part(s, h) * Weight(s, h) == 100.0 * (s.e1 * (h - s.h0))
  {
    WeightScales(s, h);
    var tmp, sum := (h - s.h0) / s.e0, (h - s.h0) / s.e0 + (s.h1 - h) / s.e1;
    var p := Part(s, h);
    assert p == 100.0 * tmp / sum;
    assert p * sum == 100.0 * tmp;
    assert tmp * s.e0 == h - s.h0;
    Regroup(p, sum, s.e0, s.e1, tmp, Weight(s, h));
  }

  lemma Regroup(p: real, sum: real, e0: real, e1: real, tmp: real, w: real)
    requires p * sum == 100.0 * tmp && sum * (e0 * e1) == w
    ensures p * w == 100.0 * (e1 * (tmp * e0))
  {
    assert p * w == (p * sum) * (e0 * e1);
  }

  lemma WeightPositive(s: Segment, h: real)
    requires Proper(s) && s.h0 <= h <= s.h1
    ensures Weight(s, h) > 0.0
  {
    var a, b := h - s.h0, s.h1 - h;
    Products(s.e1, a, s.e0, b);
  }

  lemma Products(x: real, a: real, y: real, b: real)
    requires x > 0.0 && y > 0.0 && a >= 0.0 && b >= 0.0 && a + b > 0.0
    ensures x * a >= 0.0 && y * b >= 0.0 && x * a + y * b > 0.0
  {
    if a > 0.0 { assert x * a > 0.0; } else { assert y * b > 0.0; }
  }

  lemma PartRange(s: Segment, h: real)
    requires Proper(s) && s.h0 <= h <= s.h1
    ensures Weight(s, h) > 0.0 && 0.0 <= Part(s, h) <= 100.0
    ensures h < s.h1 ==> Part(s, h) < 100.0
    ensures h == s.h1 ==> Part(s, h) == 100.0
    ensures h == s.h0 ==> Part(s, h) == 0.0
  {
    WeightPositive(s, h);
    PartTimesWeight(s, h);
    var w, p, a := Weight(s, h), Part(s, h), s.e1 * (h - s.h0);
    Products(s.e1, h - s.h0, s.e0, s.h1 - h);
    RatioRange(p, w, a);
    if h < s.h1 { assert s.e0 * (s.h1 - h) > 0.0; }
  }

  lemma RatioRange(p: real, w: real, a: real)
    requires w > 0.0 && p * w == 100.0 * a && 0.0 <= a <= w
    ensures 0.0 <= p <= 100.0 && (a < w ==> p < 100.0) && (a == w ==> p == 100.0) && (a == 0.0 ==> p == 0.0)
  {
    Sign(p, w);
    Sign(100.0 - p, w);
    assert (100.0 - p) * w == 100.0 * (w - a);
  }

  /** Strictly increasing inside a segment. */
  lemma PartIncreases(s: Segment, h: real, k: real)
    requires Proper(s) && s.h0 <= h < k <= s.h1
    ensures Weight(s, h) > 0.0 && Weight(s, k) > 0.0 && Part(s, h) < Part(s, k)
  {
    WeightPositive(s, h);
    WeightPositive(s, k);
    PartTimesWeight(s, h);
    PartTimesWeight(s, k);
    CrossIncreases(s, h, k);
    CrossCompare(Part(s, h), Weight(s, h), s.e1 * (h - s.h0), Part(s, k), Weight(s, k), s.e1 * (k - s.h0));
  }

  lemma CrossCompare(p: real, w: real, a: real, q: real, v: real, b: real)
    requires w > 0.0 && v > 0.0 && p * w == 100.0 * a && q * v == 100.0 * b && a * v < b * w
    ensures p < q
  {
    assert (p * w) * v == 100.0 * (a * v);
    assert (q * v) * w == 100.0 * (b * w);
    var wv := w * v;
    assert wv > 0.0;
    assert p * wv == (p * w) * v && q * wv == (q * v) * w;
    Sign(q - p, wv);
    assert (q - p) * wv == q * wv - p * wv;
  }

  lemma CrossIncreases(s: Segment, h: real, k: real)
    requires Proper(s) && s.h0 <= h < k <= s.h1
    ensures s.e1 * (h - s.h0) * Weight(s, k) < s.e1 * (k - s.h0) * Weight(s, h)
  {
    var a, b, c, d := h - s.h0, s.h1 - h, k - s.h0, s.h1 - k;
    var x, y := s.e1, s.e0;
    assert x * c * (x * a + y * b) - x * a * (x * c + y * d) == (x * y) * (c * b - a * d);
    CrossPositive(a, b, c, d);
    assert x * y > 0.0;
    assert (x * y) * (c * b - a * d) > 0.0;
  }

  lemma CrossPositive(a: real, b: real, c: real, d: real)
    requires 0.0 <= a < c && 0.0 <= d < b && a + b == c + d
    ensures c * b - a * d > 0.0
  {
    assert c * b - a * d == (c - a) * b + a * (b - d);
    assert (c - a) * b > 0.0 && a * (b - d) >= 0.0;
  }

  /** The denominator of the inverse; it is undefined where this vanishes. */
  function BackDenominator(s: Segment, x: real): real {
    x * (s.e1 - s.e0) + -100.0 * s.e1
  }

  /** The hue that is x of 100 into the segment, as the source computes it. */
  function Back(s: Segment, x: real): real
    requires BackDenominator(s, x) != 0.0
  {
    (x * (s.e1 * s.h0 - s.e0 * s.h1) + -100.0 * s.h0 * s.e1) / BackDenominator(s, x)
  }

  lemma BackDenominatorNegative(s: Segment, x: real)
    requires Proper(s) && 0.0 <= x <= 100.0
    ensures BackDenominator(s, x) < 0.0
  {
    var y := 100.0 - x;
    Products(s.e0, x, s.e1, y);
    assert BackDenominator(s, x) == -(s.e0 * x + s.e1 * y);
  }

  /** Inside a segment the inverse undoes the quadrature. */
  lemma BackUndoesPart(s: Segment, h: real)
    requires Proper(s) && s.h0 <= h <= s.h1
    ensures Weight(s, h) > 0.0 && BackDenominator(s, Part(s, h)) < 0.0 && Back(s, Part(s, h)) == h
  {
    PartRange(s, h);
    var x := Part(s, h);
    BackDenominatorNegative(s, x);
    PartTimesWeight(s, h);
    var d := BackDenominator(s, x);
    BackNumerator(s, x, h);
    QuotientIs(x * (s.e1 * s.h0 - s.e0 * s.h1) + -100.0 * s.h0 * s.e1, d, h);
  }

  lemma QuotientIs(n: real, d: real, h: real)
    requires d != 0.0 && n == h * d
    ensures n / d == h
  {
    assert (n / d) * d == h * d;
    assert (n / d - h) * d == 0.0;
  }

  lemma BackNumerator(s: Segment, x: real, h: real)
    requires x * Weight(s, h) == 100.0 * (s.e1 * (h - s.h0))
    ensures x * (s.e1 * s.h0 - s.e0 * s.h1) + -100.0 * s.h0 * s.e1 == h * BackDenominator(s, x)
  {
    assert x * Weight(s, h) == x * (s.e1 * h) - x * (s.e1 * s.h0) + x * (s.e0 * s.h1) - x * (s.e0 * h);
    assert h * BackDenominator(s, x) == x * (s.e1 * h) - x * (s.e0 * h) - 100.0 * (s.e1 * h);
    assert x * (s.e1 * s.h0 - s.e0 * s.h1) == x * (s.e1 * s.h0) - x * (s.e0 * s.h1);
    assert 100.0 * (s.e1 * (h - s.h0)) == 100.0 * (s.e1 * h) - 100.0 * (s.e1 * s.h0);
    assert -100.0 * s.h0 * s.e1 == -100.0 * (s.e1 * s.h0);
  }

  /** And the quadrature undoes the inverse. */
  lemma PartUndoesBack(s: Segment, x: real)
    requires Proper(s) && 0.0 <= x <= 100.0
    ensures BackDenominator(s, x) < 0.0 && s.h0 <= Back(s, x) <= s.h1
    ensures Weight(s, Back(s, x)) > 0.0 && Part(s, Back(s, x)) == x
  {
    BackDenominatorNegative(s, x);
    var h, d := Back(s, x), BackDenominator(s, x);
    assert h * d == x * (s.e1 * s.h0 - s.e0 * s.h1) + -100.0 * s.h0 * s.e1;
    BackInside(s, x, h);
    WeightPositive(s, h);
    PartTimesWeight(s, h);
    FromNumerator(s, x, h);
    SameRatio(Part(s, h), x, Weight(s, h));
  }

  lemma SameRatio(p: real, x: real, w: real)
    requires w > 0.0 && p * w == x * w
    ensures p == x
  {
    assert (p - x) * w == 0.0;
    Sign(p - x, w);
  }

  lemma FromNumerator(s: Segment, x: real, h: real)
    requires h * BackDenominator(s, x) == x * (s.e1 * s.h0 - s.e0 * s.h1) + -100.0 * s.h0 * s.e1
    ensures x * Weight(s, h) == 100.0 * (s.e1 * (h - s.h0))
  {
    assert x * Weight(s, h) == x * (s.e1 * h) - x * (s.e1 * s.h0) + x * (s.e0 * s.h1) - x * (s.e0 * h);
    assert h * BackDenominator(s, x) == x * (s.e1 * h) - x * (s.e0 * h) - 100.0 * (s.e1 * h);
    assert x * (s.e1 * s.h0 - s.e0 * s.h1) == x * (s.e1 * s.h0) - x * (s.e0 * s.h1);
    assert 100.0 * (s.e1 * (h - s.h0)) == 100.0 * (s.e1 * h) - 100.0 * (s.e1 * s.h0);
    assert -100.0 * s.h0 * s.e1 == -100.0 * (s.e1 * s.h0);
  }

  lemma BackInside(s: Segment, x: real, h: real)
    requires Proper(s) && 0.0 <= x <= 100.0
    requires h * BackDenominator(s, x) == x * (s.e1 * s.h0 - s.e0 * s.h1) + -100.0 * s.h0 * s.e1
    ensures s.h0 <= h <= s.h1
  {
    var y, u, v := 100.0 - x, s.e0 * x, s.e1 * (100.0 - x);
    Products(s.e0, x, s.e1, y);
    assert BackDenominator(s, x) == -(u + v);
    assert x * (s.e1 * s.h0 - s.e0 * s.h1) + -100.0 * s.h0 * s.e1 == -(v * s.h0 + u * s.h1) by {
      assert v * s.h0 == 100.0 * (s.e1 * s.h0) - x * (s.e1 * s.h0);
      assert u * s.h1 == x * (s.e0 * s.h1);
      assert x * (s.e1 * s.h0 - s.e0 * s.h1) == x * (s.e1 * s.h0) - x * (s.e0 * s.h1);
      assert -100.0 * s.h0 * s.e1 == -100.0 * (s.e1 * s.h0);
    }
    assert h * (u + v) == v * s.h0 + u * s.h1;
    Average(h, u, s.h1, v, s.h0);
  }

  lemma Average(h: real, u: real, p: real, v: real, q: real)
    requires u >= 0.0 && v >= 0.0 && u + v > 0.0 && q < p && h * (u + v) == v * q + u * p
    ensures q <= h <= p
  {
    var w := u + v;
    assert (h - q) * w == h * w - q * w && q * w == q * u + q * v;
    assert (p - h) * w == p * w - h * w && p * w == p * u + p * v;
    assert (h - q) * w == u * (p - q);
    assert (p - h) * w == v * (p - q);
    ProductNonNegative(u, p - q);
    ProductNonNegative(v, p - q);
    Sign(q - h, w);
    Sign(h - p, w);
  }

  // ---------------------------------------------------------------------------------------------
  // The table

  function SegmentAt(i: nat): (s: Segment)
    requires i < 4
    ensures Proper(s)
  {
    Segment(HUES[i], HUES[i + 1], ECCENTRICITIES[i], ECCENTRICITIES[i + 1])
  }

  /** The segment of a five-entry table that x falls into; the outer ones reach out to both sides. */
  function SegmentOf(table: seq<real>, x: real): (i: nat)
    requires |table| == 5
    ensures i < 4 && (i < 3 ==> x < table[i + 1]) && (i > 0 ==> table[i] <= x)
  {
    if x < table[1] then 0 else if x < table[2] then 1 else if x < table[3] then 2 else 3
  }

  method FindSegment(table: seq<real>, x: real) returns (i: nat)
    requires |table| == 5
    ensures i == SegmentOf(table, x)
  {
    i := 0;
    while i + 1 < |table| && x >= table[i + 1]
      invariant i < |table| && forall k :: 0 < k <= i ==> table[k] <= x
    {
      i := i + 1;
    }
    if i + 1 >= |table| {
      i := |table| - 2;
    }
  }

  // ---------------------------------------------------------------------------------------------
  // The conversions

  /** The hue, shifted into [20.14, 380.14) where it runs along the table. */
  function Shifted(h: real): real {
    if h < HUES[0] then h + 360.0 else h
  }

  function Unshifted(h: real): real {
    if h > 360.0 then h - 360.0 else h
  }

  /** The quadrature of a hue. Only at 665.36, outside a turn, is it a division by zero. */
  function QuadratureOf(h: real): real
    requires Shifted(h) != 665.36
  {
    var i := SegmentOf(HUES, Shifted(h));
    WeightZero(i, Shifted(h));
    QUADRATURES[i] + Part(SegmentAt(i), Shifted(h))
  }

  /** The hue of a quadrature. Only at -700 is it a division by zero. */
  function HueOf(H: real): real
    requires H != -700.0
  {
    var i := SegmentOf(QUADRATURES, H);
    BackDenominatorZero(i, H);
    Unshifted(Back(SegmentAt(i), H - QUADRATURES[i]))
  }

  lemma WeightZero(i: nat, h: real)
    requires i == SegmentOf(HUES, h)
    ensures Weight(SegmentAt(i), h) == 0.0 <==> h == 665.36
  {
    if i == 0 {
      assert Weight(SegmentAt(0), h) == 57.902 - 0.1 * h;
    } else if i == 1 {
      assert Weight(SegmentAt(1), h) == 24.975 + 0.3 * h;
    } else if i == 2 {
      assert Weight(SegmentAt(2), h) == 40.43 + 0.2 * h;
    } else {
      assert Weight(SegmentAt(3), h) == 266.144 - 0.4 * h;
    }
  }

  lemma BackDenominatorZero(i: nat, H: real)
    requires i == SegmentOf(QUADRATURES, H)
    ensures BackDenominator(SegmentAt(i), H - QUADRATURES[i]) == 0.0 <==> H == -700.0
  {
    var x := H - QUADRATURES[i];
    if i == 0 {
      assert BackDenominator(SegmentAt(0), x) == -0.1 * x - 70.0;
    } else if i == 1 {
      assert BackDenominator(SegmentAt(1), x) == 0.3 * x - 100.0;
    } else if i == 2 {
      assert BackDenominator(SegmentAt(2), x) == 0.2 * x - 120.0;
    } else {
      assert BackDenominator(SegmentAt(3), x) == -0.4 * x - 80.0;
    }
  }

  method HueToQuadrature(h: real) returns (H: real)
    requires Shifted(h) != 665.36
    ensures H == QuadratureOf(h)
  {
    var hprime := if h < HUES[0] then h + 360.0 else h;
    var i := FindSegment(HUES, hprime);
    WeightZero(i, hprime);
    var tmp := (hprime - HUES[i]) / ECCENTRICITIES[i];
    WeightScales(SegmentAt(i), hprime);
    H := QUADRATURES[i] + 100.0 * tmp / (tmp + (HUES[i + 1] - hprime) / ECCENTRICITIES[i + 1]);
  }

  method QuadratureToHue(H: real) returns (h: real)
    requires H != -700.0
    ensures h == HueOf(H)
  {
    var i := FindSegment(QUADRATURES, H);
    var num1 := (H - QUADRATURES[i]) * (ECCENTRICITIES[i + 1] * HUES[i] - ECCENTRICITIES[i] * HUES[i + 1]);
    var num2 := -100.0 * HUES[i] * ECCENTRICITIES[i + 1];
    var denom1 := (H - QUADRATURES[i]) * (ECCENTRICITIES[i + 1] - ECCENTRICITIES[i]);
    var denom2 := -100.0 * ECCENTRICITIES[i + 1];
    BackDenominatorZero(i, H);
    h := (num1 + num2) / (denom1 + denom2);
    if h > 360.0 {
      h := h - 360.0;
    }
  }

  // ---------------------------------------------------------------------------------------------
  // What they are to each other

  /** The hue lies on the table, as that of every turn does. */
  predicate OnTable(h: real) {
    -339.86 <= h < 380.14
  }

  /** Where the quadrature lies, in terms of the segment. */
  lemma QuadratureIn(h: real, i: nat)
    requires OnTable(h) && i == SegmentOf(HUES, Shifted(h))
    ensures HUES[i] <= Shifted(h) < HUES[i + 1] && Weight(SegmentAt(i), Shifted(h)) > 0.0
    ensures QuadratureOf(h) == QUADRATURES[i] + Part(SegmentAt(i), Shifted(h))
    ensures QUADRATURES[i] <= QuadratureOf(h) < QUADRATURES[i + 1]
  {
    PartRange(SegmentAt(i), Shifted(h));
    assert QUADRATURES[i + 1] == QUADRATURES[i] + 100.0;
  }

  /** A smaller shifted hue has a smaller quadrature. */
  lemma QuadratureLess(h: real, k: real)
    requires OnTable(h) && OnTable(k) && Shifted(h) < Shifted(k)
    ensures QuadratureOf(h) < QuadratureOf(k)
  {
    var i, j := SegmentOf(HUES, Shifted(h)), SegmentOf(HUES, Shifted(k));
    QuadratureIn(h, i);
    QuadratureIn(k, j);
    if i == j {
      PartIncreases(SegmentAt(i), Shifted(h), Shifted(k));
    } else {
      assert i < j && QUADRATURES[i + 1] <= QUADRATURES[j];
    }
  }

  /** Strictly increasing along the shifted hue, from 0 to below 400. */
  lemma QuadratureIncreases(h: real, k: real)
    requires OnTable(h) && OnTable(k)
    ensures Shifted(h) < Shifted(k) <==> QuadratureOf(h) < QuadratureOf(k)
    ensures 0.0 <= QuadratureOf(h) < 400.0
  {
    QuadratureIn(h, SegmentOf(HUES, Shifted(h)));
    if Shifted(h) < Shifted(k) {
      QuadratureLess(h, k);
    } else if Shifted(k) < Shifted(h) {
      QuadratureLess(k, h);
    }
  }

  /** The inverse undoes the quadrature for every hue of a turn, except that 0 comes back as 360. */
  lemma HueRoundTrip(h: real)
    requires 0.0 <= h < 360.0
    ensures QuadratureOf(h) >= 0.0 && HueOf(QuadratureOf(h)) == if h == 0.0 then 360.0 else h
  {
    var i := SegmentOf(HUES, Shifted(h));
    QuadratureIn(h, i);
    assert SegmentOf(QUADRATURES, QuadratureOf(h)) == i;
    BackUndoesPart(SegmentAt(i), Shifted(h));
  }

  /** Short of the end of a segment, the inverse is short of its end too. */
  lemma BackBeforeEnd(s: Segment, x: real)
    requires Proper(s) && 0.0 <= x < 100.0
    ensures BackDenominator(s, x) < 0.0 && s.h0 <= Back(s, x) < s.h1
  {
    PartUndoesBack(s, x);
    PartRange(s, Back(s, x));
  }

  /** And the quadrature undoes the inverse. */
  lemma QuadratureRoundTrip(H: real)
    requires 0.0 <= H < 400.0
    ensures OnTable(HueOf(H)) && QuadratureOf(HueOf(H)) == H
  {
    var i := SegmentOf(QUADRATURES, H);
    var x := H - QUADRATURES[i];
    PartUndoesBack(SegmentAt(i), x);
    BackBeforeEnd(SegmentAt(i), x);
    var k := Back(SegmentAt(i), x);
    assert Shifted(HueOf(H)) == k && SegmentOf(HUES, k) == i;
    QuadratureIn(HueOf(H), i);
  }

  // ---------------------------------------------------------------------------------------------
  // The numbers of CIE 159:2004

  /** The quadrature H of hue x between two unique hues, the lower one with quadrature H0: the hue's weighted distances
      from them are to each other as the quadrature's. */
  ghost predicate Between(H: real, H0: real, x: real, lower: real, upper: real, e0: real, e1: real)
    requires e0 != 0.0 && e1 != 0.0
  {
    && lower <= x < upper && H0 <= H < H0 + 100.0
    && (H - H0) * ((upper - x) / e1) == (H0 + 100.0 - H) * ((x - lower) / e0)
  }

  lemma PartRatio(s: Segment, h: real)
    requires Proper(s) && s.h0 <= h <= s.h1
    ensures Weight(s, h) > 0.0
    ensures Part(s, h) * ((s.h1 - h) / s.e1) == (100.0 - Part(s, h)) * ((h - s.h0) / s.e0)
  {
    WeightPositive(s, h);
    WeightScales(s, h);
    var a, b, q := (h - s.h0) / s.e0, (s.h1 - h) / s.e1, Part(s, h);
    assert q == 100.0 * a / (a + b);
    assert q * (a + b) == 100.0 * a;
    assert q * (a + b) == q * a + q * b;
  }

  lemma BetweenAt(h: real, i: nat)
    requires OnTable(h) && i == SegmentOf(HUES, Shifted(h))
    ensures Between(QuadratureOf(h), QUADRATURES[i], Shifted(h), HUES[i], HUES[i + 1], ECCENTRICITIES[i],
                    ECCENTRICITIES[i + 1])
  {
    QuadratureIn(h, i);
    PartRatio(SegmentAt(i), Shifted(h));
  }

  /** The quadrature of every hue of a turn, which one turn is added to below 20.14. */
  lemma QuadratureByTheNumbers(h: real, x: real)
    requires OnTable(h) && x == if h < 20.14 then h + 360.0 else h
    ensures 20.14 <= x < 380.14
    ensures x < 90.0 ==> Between(QuadratureOf(h), 0.0, x, 20.14, 90.0, 0.8, 0.7)
    ensures 90.0 <= x < 164.25 ==> Between(QuadratureOf(h), 100.0, x, 90.0, 164.25, 0.7, 1.0)
    ensures 164.25 <= x < 237.53 ==> Between(QuadratureOf(h), 200.0, x, 164.25, 237.53, 1.0, 1.2)
    ensures 237.53 <= x ==> Between(QuadratureOf(h), 300.0, x, 237.53, 380.14, 1.2, 0.8)
  {
    BetweenAt(h, SegmentOf(HUES, Shifted(h)));
  }

  /** The unique hues: red, yellow, green and blue. */
  lemma UniqueHues()
    ensures QuadratureOf(20.14) == 0.0 && QuadratureOf(90.0) == 100.0
    ensures QuadratureOf(164.25) == 200.0 && QuadratureOf(237.53) == 300.0
  {
    PartRange(SegmentAt(0), 20.14);
    PartRange(SegmentAt(1), 90.0);
    PartRange(SegmentAt(2), 164.25);
    PartRange(SegmentAt(3), 237.53);
  }

  lemma HueInTurn(H: real)
    requires 0.0 <= H < 400.0
    ensures 0.0 < HueOf(H) <= 360.0
  {
    var i := SegmentOf(QUADRATURES, H);
    var s, x := SegmentAt(i), H - QUADRATURES[i];
    BackDenominatorNegative(s, x);
    BackBeforeEnd(s, x);
  }

  /** The hue of every quadrature from 0 to below 400. */
  lemma HueByTheNumbers(H: real, x: real)
    requires 0.0 <= H < 400.0 && x == if HueOf(H) < 20.14 then HueOf(H) + 360.0 else HueOf(H)
    ensures 0.0 < HueOf(H) <= 360.0
    ensures H < 100.0 ==> Between(H, 0.0, x, 20.14, 90.0, 0.8, 0.7)
    ensures 100.0 <= H < 200.0 ==> Between(H, 100.0, x, 90.0, 164.25, 0.7, 1.0)
    ensures 200.0 <= H < 300.0 ==> Between(H, 200.0, x, 164.25, 237.53, 1.0, 1.2)
    ensures 300.0 <= H ==> Between(H, 300.0, x, 237.53, 380.14, 1.2, 0.8)
  {
    HueInTurn(H);
    QuadratureRoundTrip(H);
    QuadratureByTheNumbers(HueOf(H), x);
  }
}
