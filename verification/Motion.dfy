// How ForceLayout::step moves one node: the bounds, the displacement cap, and what the reported
// displacements say about the movement.
module Motion {
  import opened Reals
  import opened Vectors
  import opened Springs

  datatype Vec3 = Vec3(x: real, y: real, z: real)

  function Plane(p: Vec3): Vec2 {
    Vec2(p.x, p.y)
  }

  const MAGNITUDE_THRESHOLD: real := 1000000.0

  /** The magnitude of p exceeds the threshold. */
  predicate TooFar(p: Vec3) {
    p.x * p.x + p.y * p.y + p.z * p.z > MAGNITUDE_THRESHOLD * MAGNITUDE_THRESHOLD
  }

  /** A position is too far exactly when its magnitude m exceeds a million. */
  lemma TooFarExactly(p: Vec3, m: real)
    requires m >= 0.0 && m * m == p.x * p.x + p.y * p.y + p.z * p.z
    ensures TooFar(p) <==> m > 1000000.0
  {
    var a := 1000000.0;
    Sign(m - a, m + a);
    assert (m - a) * (m + a) == m * m - a * a;
  }

  // ---------------------------------------------------------------------------------------------
  // Bounds

  datatype Extended = NegInf | Finite(value: real) | PosInf

  predicate Less(a: Extended, b: Extended) {
    match (a, b)
    case (NegInf, _) => b != NegInf
    case (PosInf, _) => false
    case (Finite(_), NegInf) => false
    case (Finite(v), Finite(w)) => v < w
    case (Finite(_), PosInf) => true
  }

  datatype Range = Range(lower: Extended, upper: Extended)

  datatype Bounds = Bounds(x: Range, y: Range, z: Range)

  function SortRange(a: Extended, b: Extended): Range {
    Range(if Less(b, a) then b else a, if Less(a, b) then b else a)
  }

  predicate OrderedRange(r: Range) {
    r.lower.Finite? && r.upper.Finite? ==> r.lower.value <= r.upper.value
  }

  predicate Ordered(b: Bounds) {
    OrderedRange(b.x) && OrderedRange(b.y) && OrderedRange(b.z)
  }

  predicate InsideRange(r: Range, v: real) {
    (r.lower.Finite? ==> r.lower.value <= v) && (r.upper.Finite? ==> v <= r.upper.value)
  }

  predicate Inside(b: Bounds, p: Vec3) {
    InsideRange(b.x, p.x) && InsideRange(b.y, p.y) && InsideRange(b.z, p.z)
  }

  function ClampRange(r: Range, v: real): real {
    var raised := if r.lower.Finite? then Max(v, r.lower.value) else v;
    if r.upper.Finite? then Min(raised, r.upper.value) else raised
  }

  function Clamp(b: Bounds, p: Vec3): Vec3 {
    Vec3(ClampRange(b.x, p.x), ClampRange(b.y, p.y), ClampRange(b.z, p.z))
  }

  /** Clamping lands inside the bounds exactly when the bounds are in order. */
  lemma ClampInsideIffOrdered(b: Bounds, p: Vec3)
    ensures Inside(b, Clamp(b, p)) <==> Ordered(b)
  {
  }

  /** Clamping twice is clamping once, and a point inside stays where it is. */
  lemma ClampIdempotent(b: Bounds, p: Vec3)
    ensures Clamp(b, Clamp(b, p)) == Clamp(b, p)
    ensures Inside(b, p) ==> Clamp(b, p) == p
  {
  }

  /** Within ordered bounds clamping goes to the nearest coordinate inside; across crossed ones, to the upper one. */
  lemma ClampNearest(r: Range, v: real, w: real)
    ensures OrderedRange(r) && InsideRange(r, w) ==>
      InsideRange(r, ClampRange(r, v)) && Abs(ClampRange(r, v) - v) <= Abs(w - v)
    ensures !OrderedRange(r) ==> ClampRange(r, v) == r.upper.value
  {
  }

  lemma SortRangeOrders(a: Extended, b: Extended)
    ensures OrderedRange(SortRange(a, b))
    ensures SortRange(a, b) == SortRange(b, a)
    ensures multiset{SortRange(a, b).lower, SortRange(a, b).upper} == multiset{a, b}
  {
  }

  lemma ClampRangeNonExpansive(r: Range, v: real, w: real)
    ensures Abs(ClampRange(r, v) - ClampRange(r, w)) <= Abs(v - w)
  {
  }

  lemma SquareMonotone(a: real, b: real)
    requires Abs(a) <= Abs(b)
    ensures a * a <= b * b
  {
    var p, q := Abs(a), Abs(b);
    assert p * p <= p * q <= q * q;
  }

  lemma SquaresBelow(d: Vec2, e: Vec2)
    requires Abs(d.x) <= Abs(e.x) && Abs(d.y) <= Abs(e.y)
    ensures Dot(d, d) <= Dot(e, e)
  {
    SquareMonotone(d.x, e.x);
    SquareMonotone(d.y, e.y);
  }

  /** Clamping brings no two points further apart in the plane. */
  lemma ClampNonExpansive(b: Bounds, p: Vec3, r: Vec3)
    ensures var d, e := Sub(Plane(Clamp(b, p)), Plane(Clamp(b, r))), Sub(Plane(p), Plane(r)); Dot(d, d) <= Dot(e, e)
  {
    ClampRangeNonExpansive(b.x, p.x, r.x);
    ClampRangeNonExpansive(b.y, p.y, r.y);
    SquaresBelow(Sub(Plane(Clamp(b, p)), Plane(Clamp(b, r))), Sub(Plane(p), Plane(r)));
  }

  // ---------------------------------------------------------------------------------------------
  // The displacement cap

  /** The displacement after the cap on its square. */
  function Capped(disp: Vec2, cap: real, sqrt: real -> real): Vec2
    requires cap >= 0.0
  {
    var dispSq := Dot(disp, disp);
    var scale := if dispSq > cap then sqrt(cap / dispSq) else 1.0;
    Scale(scale, disp)
  }

  /** The cap holds, and a displacement over it is cut to exactly the cap. */
  lemma CappedWithin(disp: Vec2, cap: real, sqrt: real -> real)
    requires IsSqrt(sqrt) && cap >= 0.0
    ensures var d := Capped(disp, cap, sqrt); var sq := Dot(disp, disp);
      if sq > cap then Dot(d, d) == cap else d == disp
  {
    var sq := Dot(disp, disp);
    if sq > cap {
      QuotientSign(cap, sq);
      var s := sqrt(cap / sq);
      assert s * s == cap / sq;
      DotScale(s, disp);
      assert cap / sq * sq == cap;
    }
  }

  /** A displacement over the cap keeps its direction. */
  lemma CappedDirection(disp: Vec2, cap: real, sqrt: real -> real) returns (k: real)
    requires IsSqrt(sqrt) && cap >= 0.0
    ensures k >= 0.0 && Capped(disp, cap, sqrt) == Scale(k, disp)
  {
    if Dot(disp, disp) > cap {
      QuotientSign(cap, Dot(disp, disp));
      k := sqrt(cap / Dot(disp, disp));
    } else {
      k := 1.0;
    }
  }

  /** b points along a, if anywhere. */
  ghost predicate Along(a: Vec2, b: Vec2) {
    a.x * b.y == a.y * b.x && a.x * b.x + a.y * b.y >= 0.0
  }

  lemma ScaledAlong(k: real, d: Vec2)
    requires k >= 0.0
    ensures Along(Scale(k, d), d)
  {
    var xx, yy := d.x * d.x, d.y * d.y;
    SquareSign(d.x, xx);
    SquareSign(d.y, yy);
    ProductNonNegative(k, xx + yy);
    assert k * d.x * d.x + k * d.y * d.y == k * (xx + yy);
    assert k * d.x * d.y == k * d.y * d.x;
  }

  lemma QuotientSign(a: real, b: real)
    requires a >= 0.0 && b > 0.0
    ensures a / b >= 0.0
  {
    assert a / b * b == a;
    Sign(a / b, b);
  }

  lemma DotScale(s: real, d: Vec2)
    ensures Dot(Scale(s, d), Scale(s, d)) == s * s * Dot(d, d)
  {
    assert (s * d.x) * (s * d.x) == s * s * (d.x * d.x);
    assert (s * d.y) * (s * d.y) == s * s * (d.y * d.y);
  }

  /** k moves of at most sqrt(cap) each make one of at most k sqrt(cap). */
  lemma MovesAddUp(a: Vec2, b: Vec2, k: real, cap: real)
    requires k >= 0.0 && cap >= 0.0
    requires Dot(a, a) <= k * k * cap && Dot(b, b) <= cap
    ensures Dot(Add(a, b), Add(a, b)) <= (k + 1.0) * (k + 1.0) * cap
  {
    CrossBound(a, b, k, cap);
    assert Dot(Add(a, b), Add(a, b)) == Dot(a, a) + 2.0 * Dot(a, b) + Dot(b, b);
    assert (k + 1.0) * (k + 1.0) * cap == k * k * cap + 2.0 * (k * cap) + cap;
  }

  lemma CrossBound(a: Vec2, b: Vec2, k: real, cap: real)
    requires k >= 0.0 && cap >= 0.0
    requires Dot(a, a) <= k * k * cap && Dot(b, b) <= cap
    ensures Dot(a, b) <= k * cap
  {
    if k == 0.0 {
      if a != ZERO { DotPositive(a); }
    } else {
      var c := Sub(a, Scale(k, b));
      SquareSign(c.x, c.x * c.x);
      SquareSign(c.y, c.y * c.y);
      CrossExpand(a, b, k);
      ScaledBound(k, Dot(b, b), cap);
      CancelFactor(k, Dot(a, b), k * cap);
    }
  }

  lemma CrossExpand(a: Vec2, b: Vec2, k: real)
    ensures var c := Sub(a, Scale(k, b));
      c.x * c.x + c.y * c.y == Dot(a, a) - 2.0 * (k * Dot(a, b)) + k * k * Dot(b, b)
  {
    CrossExpandOne(a.x, b.x, k);
    CrossExpandOne(a.y, b.y, k);
    Distribute(k, a.x * b.x, a.y * b.y);
    Distribute(k * k, b.x * b.x, b.y * b.y);
  }

  lemma Distribute(k: real, p: real, q: real)
    ensures k * (p + q) == k * p + k * q
  {
  }

  lemma CrossExpandOne(a: real, b: real, k: real)
    ensures (a - k * b) * (a - k * b) == a * a - 2.0 * (k * (a * b)) + k * k * (b * b)
  {
  }

  lemma ScaledBound(k: real, b: real, cap: real)
    requires b <= cap
    ensures k * k * b <= k * k * cap && k * k * cap == k * (k * cap)
  {
    SquareSign(k, k * k);
    assert k * k * (cap - b) >= 0.0;
  }

  lemma CancelFactor(k: real, x: real, y: real)
    requires k > 0.0 && k * x <= k * y
    ensures x <= y
  {
    Sign(x - y, k);
    assert (x - y) * k == k * x - k * y;
  }

  // ---------------------------------------------------------------------------------------------
  // One node, one iteration

  datatype Tuning = Tuning(spring: Spring, repulsion: real, deltaT: real, centerForce: real,
                           maxDisplacementSquared: real, stabilizedMax: real, stabilizedAverage: real)

  /** How far the force moves a node in one iteration, before the bounds. */
  function Shift(force: Vec2, t: Tuning, sqrt: real -> real): Vec2
    requires t.maxDisplacementSquared >= 0.0
  {
    Capped(Scale(t.deltaT, force), t.maxDisplacementSquared, sqrt)
  }

  function Moved(p: Vec3, delta: Vec2, b: Bounds): Vec3 {
    Clamp(b, Vec3(p.x + delta.x, p.y + delta.y, p.z))
  }

  /** From p the plane move g, and the bounds, lead to r. */
  ghost predicate Lands(p: Vec3, g: Vec2, b: Bounds, r: Vec3) {
    var target := Vec3(p.x + g.x, p.y + g.y, p.z);
    r == Clamp(b, target) && (Inside(b, target) ==> r == target)
  }

  lemma MovedLands(p: Vec3, g: Vec2, b: Bounds)
    ensures Lands(p, g, b, Moved(p, g, b))
  {
    ClampIdempotent(b, Vec3(p.x + g.x, p.y + g.y, p.z));
  }

  lemma MoveLengthExact(force: Vec2, t: Tuning, sqrt: real -> real)
    requires IsSqrt(sqrt) && t.maxDisplacementSquared >= 0.0
    ensures var l, g := MoveLength(false, force, t, sqrt), Shift(force, t, sqrt); l >= 0.0 && l * l == Dot(g, g)
  {
    var g := Shift(force, t, sqrt);
    SquareSign(g.x, g.x * g.x);
    SquareSign(g.y, g.y * g.y);
    assert Dot(g, g) >= 0.0;
  }

  /** From a clamped position, a move ends no further away than it was meant to, and keeps the height. */
  lemma MovedNoFurther(p: Vec3, delta: Vec2, b: Bounds)
    requires Clamp(b, p) == p
    ensures var d := Sub(Plane(Moved(p, delta, b)), Plane(p)); Dot(d, d) <= Dot(delta, delta)
    ensures Moved(p, delta, b).z == p.z
  {
    var r := Vec3(p.x + delta.x, p.y + delta.y, p.z);
    ClampNonExpansive(b, r, p);
    assert Sub(Plane(r), Plane(p)) == delta;
  }

  /** g is deltaT times the force, or, where the square of that is over the cap, lies along it and has the cap for
      its square. */
  ghost predicate Follows(g: Vec2, force: Vec2, t: Tuning) {
    var disp := Vec2(t.deltaT * force.x, t.deltaT * force.y);
    && Along(g, disp)
    && if Dot(disp, disp) <= t.maxDisplacementSquared then g == disp else Dot(g, g) == t.maxDisplacementSquared
  }

  lemma ShiftFollows(force: Vec2, t: Tuning, sqrt: real -> real)
    requires IsSqrt(sqrt) && t.maxDisplacementSquared >= 0.0
    ensures Follows(Shift(force, t, sqrt), force, t)
  {
    var disp := Scale(t.deltaT, force);
    var k := CappedDirection(disp, t.maxDisplacementSquared, sqrt);
    ScaledAlong(k, disp);
    CappedWithin(disp, t.maxDisplacementSquared, sqrt);
  }

  lemma ShiftWithinCap(force: Vec2, t: Tuning, sqrt: real -> real)
    requires IsSqrt(sqrt) && t.maxDisplacementSquared >= 0.0
    ensures Dot(Shift(force, t, sqrt), Shift(force, t, sqrt)) <= t.maxDisplacementSquared
  {
    CappedWithin(Scale(t.deltaT, force), t.maxDisplacementSquared, sqrt);
  }

  // ---------------------------------------------------------------------------------------------
  // The reported displacements

  datatype Results = Results(total: real, average: real, maximum: real)

  /** The length of one node's move before the bounds; pinned nodes have none. */
  function MoveLength(pinned: bool, force: Vec2, t: Tuning, sqrt: real -> real): real
    requires t.maxDisplacementSquared >= 0.0
  {
    if pinned then 0.0 else LengthBy(sqrt)(Shift(force, t, sqrt))
  }

  function Sum(s: seq<real>): real {
    if s == [] then 0.0 else Sum(s[..|s| - 1]) + s[|s| - 1]
  }

  function Largest(s: seq<real>): real {
    if s == [] then 0.0 else Max(Largest(s[..|s| - 1]), s[|s| - 1])
  }

  lemma {:induction false} LargestBounds(s: seq<real>)
    ensures Largest(s) >= 0.0 && forall i :: 0 <= i < |s| ==> s[i] <= Largest(s)
    ensures Sum(s) <= |s| as real * Largest(s)
  {
    if s != [] {
      var init, last := s[..|s| - 1], s[|s| - 1];
      LargestBounds(init);
      SumStepBound(|init|, Sum(init), Largest(init), last, Largest(s));
    }
  }

  lemma SumStepBound(n: nat, sum: real, low: real, last: real, high: real)
    requires sum <= n as real * low && low <= high && last <= high
    ensures sum + last <= (n + 1) as real * high
  {
    var m := n as real;
    assert m * (high - low) >= 0.0;
    assert (m + 1.0) * high == m * high + high;
  }

  /** The largest length is that of some node. */
  lemma {:induction false} LargestIsOne(s: seq<real>)
    requires s != [] && forall i :: 0 <= i < |s| ==> s[i] >= 0.0
    ensures Largest(s) in s
  {
    var init := s[..|s| - 1];
    if init != [] { LargestIsOne(init); }
    assert s == init + [s[|s| - 1]];
  }

  lemma {:induction false} LargestAttained(s: seq<real>, limit: real)
    requires limit >= 0.0 && forall i :: 0 <= i < |s| ==> s[i] <= limit
    ensures Largest(s) <= limit
  {
    if s != [] { LargestAttained(s[..|s| - 1], limit); }
  }

  /** The average is at most the maximum, and no node moved by more than the maximum. */
  lemma AverageAtMostMaximum(s: seq<real>)
    requires s != []
    ensures Sum(s) / |s| as real <= Largest(s)
  {
    LargestBounds(s);
    var n, q := |s| as real, Sum(s) / |s| as real;
    assert q * n == Sum(s);
    Sign(q - Largest(s), n);
    assert (q - Largest(s)) * n == Sum(s) - n * Largest(s);
  }
}
