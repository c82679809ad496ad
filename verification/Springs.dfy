// The springs of ForceLayout (src/force_layout.cpp): which listed edges act, what each one does, and
// what all of them do together.
module Springs {
  import opened Reals
  import opened Vectors

  datatype Spring = Spring(constant: real, restLength: real)

  /** An acting edge: a pair of nodes, the lower one first. */
  type Pair = (nat, nat)

  function Neg(a: Vec2): Vec2 {
    Vec2(-a.x, -a.y)
  }

  /** `length` behaves as the length of a vector: what the proofs use of glm::length. */
  ghost predicate IsLength(length: Vec2 -> real) {
    forall d: Vec2 :: (length(d) == 0.0 <==> d == ZERO) && length(Neg(d)) == length(d)
  }

  /** The length that a square root gives is one. */
  lemma RootIsLength(sqrt: real -> real)
    requires IsSqrt(sqrt)
    ensures IsLength(LengthBy(sqrt))
  {
    forall d: Vec2 ensures LengthBy(sqrt)(d) == 0.0 <==> d == ZERO
      ensures LengthBy(sqrt)(Neg(d)) == LengthBy(sqrt)(d)
    {
      LengthSign(d, sqrt);
      SameDot(d);
    }
  }

  lemma SameDot(d: Vec2)
    ensures Dot(Neg(d), Neg(d)) == Dot(d, d)
  {
    assert (-d.x) * (-d.x) == d.x * d.x;
  }

  function LengthBy(sqrt: real -> real): Vec2 -> real {
    (d: Vec2) => sqrt(Dot(d, d))
  }

  lemma LengthSign(d: Vec2, sqrt: real -> real)
    requires IsSqrt(sqrt)
    ensures sqrt(Dot(d, d)) == 0.0 <==> d == ZERO
  {
    if d != ZERO {
      DotPositive(d);
      SqrtPositive(sqrt, Dot(d, d));
    } else {
      RootOfZero(sqrt);
      assert Dot(d, d) == 0.0;
    }
  }

  lemma RootOfZero(sqrt: real -> real)
    requires IsSqrt(sqrt)
    ensures sqrt(0.0) == 0.0
  {
    SquareSign(sqrt(0.0), 0.0);
  }

  function Unit(d: Vec2, dist: real): Vec2
    requires dist != 0.0
  {
    Vec2(d.x / dist, d.y / dist)
  }

  /** Hooke's law: the force that a spring to `other` exerts on a body at `at`. */
  function Pull(at: Vec2, other: Vec2, s: Spring, length: Vec2 -> real): Vec2 {
    var d := Sub(other, at);
    var dist := length(d);
    if dist == 0.0 then ZERO else Scale(s.constant * (dist - s.restLength), Unit(d, dist))
  }

  /** Hooke's law without the division: dist * pull = constant * (dist - rest length) * d. */
  lemma PullLaw(at: Vec2, other: Vec2, s: Spring, length: Vec2 -> real)
    requires length(Sub(other, at)) != 0.0
    ensures var d, dist := Sub(other, at), length(Sub(other, at));
      Scale(dist, Pull(at, other, s, length)) == Scale(s.constant * (dist - s.restLength), d)
  {
    var d, dist := Sub(other, at), length(Sub(other, at));
    var k := s.constant * (dist - s.restLength);
    LawAlong(dist, k, d.x);
    LawAlong(dist, k, d.y);
  }

  lemma LawAlong(dist: real, k: real, x: real)
    requires dist != 0.0
    ensures dist * (k * (x / dist)) == k * x
  {
    var u := x / dist;
    assert u * dist == x;
    assert dist * (k * u) == k * (u * dist);
  }

  /** A spring with a positive constant draws its ends together when it is longer than at rest, and apart when it is
      shorter. */
  lemma StretchedDrawsTogether(at: Vec2, other: Vec2, s: Spring, length: Vec2 -> real)
    requires at != other && length(Sub(other, at)) > 0.0 && s.constant > 0.0
    ensures var toward := Dot(Pull(at, other, s, length), Sub(other, at));
      && (toward > 0.0 <==> length(Sub(other, at)) > s.restLength)
      && (toward < 0.0 <==> length(Sub(other, at)) < s.restLength)
  {
    var d, dist := Sub(other, at), length(Sub(other, at));
    var f, stretch := Pull(at, other, s, length), dist - s.restLength;
    PullLaw(at, other, s, length);
    DotPositive(d);
    DotAlong(dist, f, s.constant * stretch, d);
    SignOfProduct(Dot(f, d), dist, stretch, s.constant * Dot(d, d), s.constant, Dot(d, d));
  }

  lemma DotAlong(m: real, f: Vec2, k: real, d: Vec2)
    requires Scale(m, f) == Scale(k, d)
    ensures Dot(f, d) * m == k * Dot(d, d)
  {
    assert m * f.x == k * d.x && m * f.y == k * d.y;
    assert Dot(f, d) * m == (m * f.x) * d.x + (m * f.y) * d.y;
    assert k * Dot(d, d) == (k * d.x) * d.x + (k * d.y) * d.y;
  }

  lemma SignOfProduct(a: real, m: real, b: real, n: real, c: real, sq: real)
    requires m > 0.0 && c > 0.0 && sq > 0.0 && n == c * sq && a * m == c * b * sq
    ensures (a > 0.0 <==> b > 0.0) && (a < 0.0 <==> b < 0.0)
  {
    ProductPositive(c, sq, n);
    assert c * b * sq == b * n;
    Sign(a, m);
    Sign(b, n);
  }

  lemma UnitNeg(d: Vec2, dist: real)
    requires dist != 0.0
    ensures Unit(Neg(d), dist) == Neg(Unit(d, dist))
  {
    QuotientNeg(d.x, dist);
    QuotientNeg(d.y, dist);
  }

  lemma QuotientNeg(x: real, d: real)
    requires d != 0.0
    ensures -x / d == -(x / d)
  {
    assert ((-x / d) + x / d) * d == -x / d * d + x / d * d == 0.0;
  }

  lemma ScaleNeg(k: real, a: Vec2)
    ensures Scale(k, Neg(a)) == Neg(Scale(k, a))
  {
    assert k * -a.x == -(k * a.x);
  }

  /** Newton's third law. */
  lemma PullOpposite(p: Vec2, r: Vec2, s: Spring, length: Vec2 -> real)
    requires IsLength(length)
    ensures Pull(r, p, s, length) == Neg(Pull(p, r, s, length))
  {
    var d := Sub(r, p);
    assert Sub(p, r) == Neg(d);
    var dist := length(d);
    if dist != 0.0 {
      UnitNeg(d, dist);
      ScaleNeg(s.constant * (dist - s.restLength), Unit(d, dist));
    }
  }
  /** The pull of node j on node i, for nodes at the positions ps. */
  function Pulls(ps: seq<Vec2>, s: Spring, length: Vec2 -> real): (nat, nat) -> Vec2 {
    (i: nat, j: nat) => if i < |ps| && j < |ps| then Pull(ps[i], ps[j], s, length) else ZERO
  }

  /** Each pair of nodes pulls with equal and opposite forces. */
  ghost predicate Mutual(pull: (nat, nat) -> Vec2) {
    forall i: nat, j: nat :: pull(j, i) == Neg(pull(i, j))
  }

  lemma PullsMutual(ps: seq<Vec2>, s: Spring, length: Vec2 -> real)
    requires IsLength(length)
    ensures Mutual(Pulls(ps, s, length))
  {
    var pull := Pulls(ps, s, length);
    forall i: nat, j: nat ensures pull(j, i) == Neg(pull(i, j)) {
      if i < |ps| && j < |ps| { PullOpposite(ps[i], ps[j], s, length); }
    }
  }

  // ---------------------------------------------------------------------------------------------
  // Which edges act

  ghost predicate InRange(edges: seq<seq<nat>>, n: nat) {
    forall i, k :: 0 <= i < |edges| && 0 <= k < |edges[i]| ==> edges[i][k] < n
  }

  /** The pairs that row i of the adjacency lists contributes: a target that is not above i is passed over. */
  function RowActs(i: nat, row: seq<nat>): seq<Pair> {
    if row == [] then []
    else
      var j := row[|row| - 1];
      RowActs(i, row[..|row| - 1]) + if j <= i then [] else [(i, j)]
  }

  function Acting(edges: seq<seq<nat>>): seq<Pair> {
    if edges == [] then [] else Acting(edges[..|edges| - 1]) + RowActs(|edges| - 1, edges[|edges| - 1])
  }

  ghost predicate PairsBelow(acts: seq<Pair>, n: nat) {
    forall e :: e in acts ==> e.0 < e.1 < n
  }

  lemma {:induction false} RowInRange(i: nat, row: seq<nat>, n: nat)
    requires forall k :: 0 <= k < |row| ==> row[k] < n
    ensures PairsBelow(RowActs(i, row), n)
  {
    if row != [] { RowInRange(i, row[..|row| - 1], n); }
  }

  lemma {:induction false} ActingInRange(edges: seq<seq<nat>>, n: nat)
    requires InRange(edges, n)
    ensures PairsBelow(Acting(edges), n)
  {
    if edges != [] {
      ActingInRange(edges[..|edges| - 1], n);
      RowInRange(|edges| - 1, edges[|edges| - 1], n);
    }
  }

  // ---------------------------------------------------------------------------------------------
  // The spring loop

  /** What one acting edge does to node v. */
  function EffectOn(v: nat, pull: (nat, nat) -> Vec2): Pair -> Vec2 {
    (e: Pair) => if v == e.0 then pull(e.0, e.1) else if v == e.1 then pull(e.1, e.0) else ZERO
  }

  /** `after` is `before` with the pull of every listed edge added. */
  ghost predicate Pulled(before: seq<Vec2>, after: seq<Vec2>, acts: seq<Pair>, pull: (nat, nat) -> Vec2) {
    && |after| == |before|
    && forall v :: 0 <= v < |before| ==> after[v] == Add(before[v], SumOf(EffectOn(v, pull), acts))
  }

  lemma PulledByNone(before: seq<Vec2>, pull: (nat, nat) -> Vec2)
    ensures Pulled(before, before, [], pull)
  {
    forall v: nat | v < |before| ensures before[v] == Add(before[v], SumOf(EffectOn(v, pull), [])) {
      AddZero(before[v]);
    }
  }

  lemma PulledOnce(before: seq<Vec2>, mid: seq<Vec2>, after: seq<Vec2>, acts: seq<Pair>, e: Pair,
                   pull: (nat, nat) -> Vec2)
    requires Pulled(before, mid, acts, pull) && |after| == |before|
    requires forall v :: 0 <= v < |before| ==> after[v] == Add(mid[v], EffectOn(v, pull)(e))
    ensures Pulled(before, after, acts + [e], pull)
  {
    forall v: nat | v < |before| ensures after[v] == Add(before[v], SumOf(EffectOn(v, pull), acts + [e])) {
      SumStep(EffectOn(v, pull), before[v], acts, e);
    }
  }

  /** The force of one spring as the loop computes it, from the displacement of i from j; none at distance 0. */
  method PairForce(i: nat, j: nat, ps: seq<Vec2>, s: Spring, length: Vec2 -> real) returns (f: Vec2, acts: bool)
    requires i < |ps| && j < |ps|
    ensures acts ==> f == Pulls(ps, s, length)(j, i)
    ensures !acts ==> Pulls(ps, s, length)(j, i) == ZERO
  {
    var delta := Sub(ps[i], ps[j]);
    var dist := length(delta);
    if dist == 0.0 {
      return ZERO, false;
    }
    f, acts := Scale(s.constant * (dist - s.restLength), Unit(delta, dist)), true;
  }

  /** One round of the inner loop, for a target above i. */
  method PullPair(forces: seq<Vec2>, i: nat, j: nat, ps: seq<Vec2>, s: Spring, length: Vec2 -> real)
    returns (after: seq<Vec2>)
    requires IsLength(length) && |forces| == |ps| && i < j < |ps|
    ensures |after| == |ps|
    ensures forall v :: 0 <= v < |ps| ==> after[v] == Add(forces[v], EffectOn(v, Pulls(ps, s, length))((i, j)))
  {
    PullsMutual(ps, s, length);
    var f, acts := PairForce(i, j, ps, s, length);
    after := forces;
    if acts {
      after := after[i := Sub(after[i], f)];
      after := after[j := Add(after[j], f)];
    }
    PairPulled(forces, after, i, j, if acts then f else ZERO, Pulls(ps, s, length));
  }

  /** Taking the pull on j from i and adding it to j is the effect of the pair. */
  lemma PairPulled(before: seq<Vec2>, after: seq<Vec2>, i: nat, j: nat, f: Vec2, pull: (nat, nat) -> Vec2)
    requires Mutual(pull) && i < j < |before| && f == pull(j, i)
    requires after == before[i := Sub(before[i], f)][j := Add(before[j], f)]
    ensures forall v :: 0 <= v < |before| ==> after[v] == Add(before[v], EffectOn(v, pull)((i, j)))
  {
    assert pull(i, j) == Neg(f);
    forall v: nat | v < |before| ensures after[v] == Add(before[v], EffectOn(v, pull)((i, j))) {
      AddZero(before[v]);
    }
  }

  method PullRow(forces: seq<Vec2>, i: nat, row: seq<nat>, ps: seq<Vec2>, s: Spring, length: Vec2 -> real,
                 ghost before: seq<Vec2>, ghost acts: seq<Pair>) returns (after: seq<Vec2>)
    requires IsLength(length) && Pulled(before, forces, acts, Pulls(ps, s, length))
    requires |before| == |ps| && i < |ps| && forall k :: 0 <= k < |row| ==> row[k] < |ps|
    ensures Pulled(before, after, acts + RowActs(i, row), Pulls(ps, s, length))
  {
    ghost var pull := Pulls(ps, s, length);
    after := forces;
    assert acts + RowActs(i, []) == acts;
    for k := 0 to |row|
      invariant Pulled(before, after, acts + RowActs(i, row[..k]), pull)
    {
      var j := row[k];
      assert row[..k + 1][..k] == row[..k];
      ghost var done := acts + RowActs(i, row[..k]);
      if j <= i {
        assert acts + RowActs(i, row[..k + 1]) == done;
        continue;
      }
      ghost var mid := after;
      after := PullPair(after, i, j, ps, s, length);
      PulledOnce(before, mid, after, done, (i, j), pull);
      assert acts + RowActs(i, row[..k + 1]) == done + [(i, j)];
    }
    assert row[..|row|] == row;
  }

  /** Adds the spring forces. */
  method PullAll(forces: seq<Vec2>, edges: seq<seq<nat>>, ps: seq<Vec2>, s: Spring, length: Vec2 -> real)
    returns (after: seq<Vec2>)
    requires IsLength(length) && |forces| == |ps| == |edges| && InRange(edges, |ps|)
    ensures Pulled(forces, after, Acting(edges), Pulls(ps, s, length))
  {
    after := forces;
    PulledByNone(forces, Pulls(ps, s, length));
    for i := 0 to |edges|
      invariant Pulled(forces, after, Acting(edges[..i]), Pulls(ps, s, length))
    {
      assert edges[..i + 1][..i] == edges[..i];
      after := PullRow(after, i, edges[i], ps, s, length, forces, Acting(edges[..i]));
    }
    assert edges[..|edges|] == edges;
  }

  // ---------------------------------------------------------------------------------------------
  // The springs push no one in total

  /** The forces of the first n nodes together. */
  ghost function Total(fs: seq<Vec2>, n: nat): Vec2
    requires n <= |fs|
  {
    if n == 0 then ZERO else Add(Total(fs, n - 1), fs[n - 1])
  }

  /** What the listed edges do to the first n nodes together. */
  ghost function Net(n: nat, acts: seq<Pair>, pull: (nat, nat) -> Vec2): Vec2 {
    if n == 0 then ZERO else Add(Net(n - 1, acts, pull), SumOf(EffectOn(n - 1, pull), acts))
  }

  lemma {:induction false} NetOfNone(n: nat, pull: (nat, nat) -> Vec2)
    ensures Net(n, [], pull) == ZERO
  {
    if n > 0 { NetOfNone(n - 1, pull); }
  }

  /** What one edge does to the first n nodes together. */
  ghost function Share(n: nat, e: Pair, pull: (nat, nat) -> Vec2): Vec2 {
    if n == 0 then ZERO else Add(Share(n - 1, e, pull), EffectOn(n - 1, pull)(e))
  }

  /** One edge pulls its two ends. */
  lemma {:induction false} ShareIsBothEnds(n: nat, e: Pair, pull: (nat, nat) -> Vec2)
    requires e.0 < e.1
    ensures Share(n, e, pull)
         == Add(if e.0 < n then pull(e.0, e.1) else ZERO, if e.1 < n then pull(e.1, e.0) else ZERO)
  {
    if n > 0 { ShareIsBothEnds(n - 1, e, pull); }
  }

  lemma SumsSwap(ab: Vec2, a: Vec2, b: Vec2, cd: Vec2, c: Vec2, d: Vec2)
    requires ab == Add(a, b) && cd == Add(c, d)
    ensures Add(ab, cd) == Add(Add(a, c), Add(b, d))
  {
  }

  lemma {:induction false} NetAppend(n: nat, acts: seq<Pair>, e: Pair, pull: (nat, nat) -> Vec2)
    ensures Net(n, acts + [e], pull) == Add(Net(n, acts, pull), Share(n, e, pull))
  {
    if n > 0 {
      NetAppend(n - 1, acts, e, pull);
      SumAppend(EffectOn(n - 1, pull), acts, e);
      SumsSwap(Net(n - 1, acts + [e], pull), Net(n - 1, acts, pull), Share(n - 1, e, pull),
               SumOf(EffectOn(n - 1, pull), acts + [e]), SumOf(EffectOn(n - 1, pull), acts), EffectOn(n - 1, pull)(e));
    }
  }

  lemma {:induction false} NetZero(n: nat, acts: seq<Pair>, pull: (nat, nat) -> Vec2)
    requires Mutual(pull) && PairsBelow(acts, n)
    ensures Net(n, acts, pull) == ZERO
    decreases |acts|
  {
    if acts == [] {
      NetOfNone(n, pull);
    } else {
      var init, e := acts[..|acts| - 1], acts[|acts| - 1];
      assert acts == init + [e] && e in acts;
      NetZero(n, init, pull);
      NetAppend(n, init, e, pull);
      ShareIsBothEnds(n, e, pull);
      assert pull(e.1, e.0) == Neg(pull(e.0, e.1));
    }
  }

  lemma {:induction false} TotalAfter(before: seq<Vec2>, after: seq<Vec2>, acts: seq<Pair>,
                                      pull: (nat, nat) -> Vec2, n: nat)
    requires Pulled(before, after, acts, pull) && n <= |before|
    ensures Total(after, n) == Add(Total(before, n), Net(n, acts, pull))
    decreases n
  {
    if n > 0 {
      TotalAfter(before, after, acts, pull, n - 1);
      assert after[n - 1] == Add(before[n - 1], SumOf(EffectOn(n - 1, pull), acts));
    }
  }

  /** For any adjacency lists, the spring forces over all the nodes add up to zero. */
  lemma SpringsBalance(before: seq<Vec2>, after: seq<Vec2>, edges: seq<seq<nat>>, ps: seq<Vec2>, s: Spring,
                       length: Vec2 -> real)
    requires IsLength(length) && |before| == |ps| && InRange(edges, |ps|)
    requires Pulled(before, after, Acting(edges), Pulls(ps, s, length))
    ensures Total(after, |ps|) == Total(before, |ps|)
  {
    ActingInRange(edges, |ps|);
    PullsMutual(ps, s, length);
    NetZero(|ps|, Acting(edges), Pulls(ps, s, length));
    TotalAfter(before, after, Acting(edges), Pulls(ps, s, length), |ps|);
    AddZero(Total(before, |ps|));
  }

  // ---------------------------------------------------------------------------------------------
  // Which edges act, by how they were added

  /** A call of add_edge. */
  datatype Link = Link(source: int, target: int, mirror: bool)

  /** The adjacency lists after one call: nothing for an unknown node, otherwise one entry, or two. */
  function Linked(edges: seq<seq<nat>>, l: Link): seq<seq<nat>> {
    if !(0 <= l.source < |edges| && 0 <= l.target < |edges|) then edges
    else
      var once := edges[l.source := edges[l.source] + [l.target]];
      if l.mirror then once[l.target := once[l.target] + [l.source]] else once
  }

  /** Which calls make a spring act: known and different nodes, and mirrored or added upwards. */
  predicate Acts(n: nat, l: Link) {
    0 <= l.source < n && 0 <= l.target < n && l.source != l.target && (l.mirror || l.source < l.target)
  }

  function PairOf(l: Link): Pair
    requires l.source >= 0 && l.target >= 0
  {
    if l.source < l.target then (l.source, l.target) else (l.target, l.source)
  }

  /** What one entry j of row i contributes. */
  function Entry(i: nat, j: nat): seq<Pair> {
    if j <= i then [] else [(i, j)]
  }

  lemma RowAppend(i: nat, row: seq<nat>, j: nat)
    ensures multiset(RowActs(i, row + [j])) == multiset(RowActs(i, row)) + multiset(Entry(i, j))
  {
    assert (row + [j])[..|row|] == row;
    assert RowActs(i, row + [j]) == RowActs(i, row) + Entry(i, j);
  }

  lemma RowLast(init: seq<seq<nat>>, last: seq<nat>)
    ensures multiset(Acting(init + [last])) == multiset(Acting(init)) + multiset(RowActs(|init|, last))
  {
    assert (init + [last])[..|init|] == init;
    assert Acting(init + [last]) == Acting(init) + RowActs(|init|, last);
  }

  lemma BagSum(a: multiset<Pair>, b: multiset<Pair>, c: multiset<Pair>)
    ensures a + (b + c) == a + b + c == a + c + b
  {
  }

  /** One more entry in row i makes one more acting pair, or none. */
  lemma {:induction false} ActingAppend(edges: seq<seq<nat>>, i: nat, j: nat)
    requires i < |edges|
    ensures multiset(Acting(edges[i := edges[i] + [j]])) == multiset(Acting(edges)) + multiset(Entry(i, j))
  {
    var m := |edges| - 1;
    var init, last := edges[..m], edges[m];
    var more := edges[i := edges[i] + [j]];
    assert edges == init + [last];
    RowLast(init, last);
    if i == m {
      assert more == init + [last + [j]];
      RowLast(init, last + [j]);
      RowAppend(i, last, j);
      BagSum(multiset(Acting(init)), multiset(RowActs(i, last)), multiset(Entry(i, j)));
    } else {
      var init' := init[i := init[i] + [j]];
      assert more == init' + [last];
      RowLast(init', last);
      ActingAppend(init, i, j);
      BagSum(multiset(Acting(init)), multiset(Entry(i, j)), multiset(RowActs(m, last)));
    }
  }

  lemma BothEntries(i: nat, j: nat)
    ensures multiset(Entry(i, j)) + multiset(Entry(j, i))
         == multiset(if i == j then [] else if i < j then [(i, j)] else [(j, i)])
  {
  }

  /** An entry each way makes one acting pair, unless the two nodes are one. */
  lemma MirroredActs(edges: seq<seq<nat>>, i: nat, j: nat)
    requires i < |edges| && j < |edges|
    ensures var once := edges[i := edges[i] + [j]];
      multiset(Acting(once[j := once[j] + [i]]))
        == multiset(Acting(edges)) + multiset(if i == j then [] else if i < j then [(i, j)] else [(j, i)])
  {
    ActingAppend(edges, i, j);
    ActingAppend(edges[i := edges[i] + [j]], j, i);
    BagSum(multiset(Acting(edges)), multiset(Entry(i, j)), multiset(Entry(j, i)));
    BothEntries(i, j);
  }

  lemma LinkedActs(edges: seq<seq<nat>>, l: Link)
    ensures multiset(Acting(Linked(edges, l)))
         == multiset(Acting(edges)) + multiset(if Acts(|edges|, l) then [PairOf(l)] else [])
  {
    if 0 <= l.source < |edges| && 0 <= l.target < |edges| {
      if l.mirror {
        MirroredActs(edges, l.source, l.target);
      } else {
        ActingAppend(edges, l.source, l.target);
      }
    }
  }

  /** The calls that shape the graph. */
  datatype Build = NewNode | NewEdge(link: Link)

  function EdgesAfter(calls: seq<Build>): seq<seq<nat>> {
    if calls == [] then []
    else
      var edges := EdgesAfter(calls[..|calls| - 1]);
      match calls[|calls| - 1]
      case NewNode => edges + [[]]
      case NewEdge(l) => Linked(edges, l)
  }

  function NodesAfter(calls: seq<Build>): nat {
    if calls == [] then 0 else NodesAfter(calls[..|calls| - 1]) + if calls[|calls| - 1].NewNode? then 1 else 0
  }

  /** The undirected edges that the calls ask for, each as often as it was asked for. */
  function Asked(calls: seq<Build>): seq<Pair> {
    if calls == [] then []
    else
      var init, call := calls[..|calls| - 1], calls[|calls| - 1];
      Asked(init) + if call.NewEdge? && Acts(NodesAfter(init), call.link) then [PairOf(call.link)] else []
  }

  /** Over any sequence of calls: every call of add_edge between known, different nodes makes its edge act
      exactly once, unless it is not mirrored and goes downwards; nothing else acts. */
  lemma {:induction false} EdgesActAsAsked(calls: seq<Build>)
    ensures |EdgesAfter(calls)| == NodesAfter(calls)
    ensures multiset(Acting(EdgesAfter(calls))) == multiset(Asked(calls))
  {
    if calls != [] {
      var init, call := calls[..|calls| - 1], calls[|calls| - 1];
      EdgesActAsAsked(init);
      var edges := EdgesAfter(init);
      if call.NewNode? {
        assert (edges + [[]])[..|edges|] == edges;
      } else {
        LinkedActs(edges, call.link);
      }
    }
  }

  /** The force on a node is the sum of Hooke's law over the edges asked for, in whatever order they were. */
  lemma SpringForceOn(v: nat, calls: seq<Build>, pull: (nat, nat) -> Vec2)
    ensures SumOf(EffectOn(v, pull), Acting(EdgesAfter(calls))) == SumOf(EffectOn(v, pull), Asked(calls))
  {
    EdgesActAsAsked(calls);
    SumPermutes(EffectOn(v, pull), Acting(EdgesAfter(calls)), Asked(calls));
  }
}
