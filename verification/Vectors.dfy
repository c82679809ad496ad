// Plane vectors over exact reals, and sums over lists of indices.
module Vectors {
  import opened Reals

  datatype Vec2 = Vec2(x: real, y: real)

  const ZERO: Vec2 := Vec2(0.0, 0.0)

  function Add(a: Vec2, b: Vec2): Vec2 {
    Vec2(a.x + b.x, a.y + b.y)
  }

  function Sub(a: Vec2, b: Vec2): Vec2 {
    Vec2(a.x - b.x, a.y - b.y)
  }

  function Scale(k: real, a: Vec2): Vec2 {
    Vec2(k * a.x, k * a.y)
  }

  function Dot(a: Vec2, b: Vec2): real {
    a.x * b.x + a.y * b.y
  }

  lemma AddZero(a: Vec2)
    ensures Add(a, ZERO) == a
  {
  }

  /** `sqrt` is the square root: the one property of std::sqrt that the proofs use. */
  ghost predicate IsSqrt(sqrt: real -> real) {
    forall r: real :: r >= 0.0 ==> sqrt(r) >= 0.0 && sqrt(r) * sqrt(r) == r
  }

  lemma SqrtPositive(sqrt: real -> real, r: real)
    requires IsSqrt(sqrt) && r > 0.0
    ensures sqrt(r) > 0.0 && sqrt(r) * sqrt(r) == r
  {
    assert sqrt(r) * sqrt(r) == r;
    if sqrt(r) == 0.0 {
      assert 0.0 * sqrt(r) == 0.0;
    }
  }

  lemma DotPositive(d: Vec2)
    requires d != ZERO
    ensures Dot(d, d) > 0.0
  {
    var xx, yy := d.x * d.x, d.y * d.y;
    SquareSign(d.x, xx);
    SquareSign(d.y, yy);
    assert Dot(d, d) == xx + yy;
  }

  /** The values of f at the elements of s, accumulated from the left as `+=` does. */
  function SumOf<T>(f: T -> Vec2, s: seq<T>): Vec2 {
    if s == [] then ZERO else Add(SumOf(f, s[..|s| - 1]), f(s[|s| - 1]))
  }

  lemma SumAppend<T>(f: T -> Vec2, s: seq<T>, i: T)
    ensures SumOf(f, s + [i]) == Add(SumOf(f, s), f(i))
  {
    assert (s + [i])[..|s|] == s;
  }

  /** One more term of a running sum. */
  lemma SumStep<T>(f: T -> Vec2, start: Vec2, s: seq<T>, i: T)
    ensures Add(Add(start, SumOf(f, s)), f(i)) == Add(start, SumOf(f, s + [i]))
  {
    SumAppend(f, s, i);
  }

  lemma {:induction false} SumConcat<T>(f: T -> Vec2, s: seq<T>, t: seq<T>)
    ensures SumOf(f, s + t) == Add(SumOf(f, s), SumOf(f, t))
    decreases |t|
  {
    if t == [] {
      assert s + t == s;
    } else {
      var init, last := t[..|t| - 1], t[|t| - 1];
      assert s + t == (s + init) + [last];
      SumAppend(f, s + init, last);
      SumConcat(f, s, init);
    }
  }

  lemma CancelOne<T>(s: seq<T>, before: seq<T>, after: seq<T>, x: T)
    requires multiset(s + [x]) == multiset(before + [x] + after)
    ensures multiset(s) == multiset(before + after)
  {
    calc {
      multiset(s);
      multiset(s + [x]) - multiset{x};
      multiset(before + [x] + after) - multiset{x};
      multiset(before) + multiset(after);
      multiset(before + after);
    }
  }

  /** A sum depends on which elements are listed, not on their order. */
  lemma {:induction false} SumPermutes<T>(f: T -> Vec2, s: seq<T>, t: seq<T>)
    requires multiset(s) == multiset(t)
    ensures SumOf(f, s) == SumOf(f, t)
    decreases |s|
  {
    assert |s| == |multiset(s)| == |multiset(t)| == |t|;
    if s != [] {
      var init, last := s[..|s| - 1], s[|s| - 1];
      assert s == init + [last];
      assert last in multiset(t);
      var k :| 0 <= k < |t| && t[k] == last;
      var before, after := t[..k], t[k + 1..];
      assert t == before + [last] + after;
      CancelOne(init, before, after, last);
      SumPermutes(f, init, before + after);
      SumAppend(f, init, last);
      SumConcat(f, before, after);
      SumAppend(f, before, last);
      SumConcat(f, before + [last], after);
    }
  }

  /** A list without repetitions. */
  ghost predicate NoDup(s: seq<nat>) {
    forall i, j :: 0 <= i < j < |s| ==> s[i] != s[j]
  }

  /** 0, 1, ..., n - 1. */
  function UpTo(n: nat): (s: seq<nat>)
    ensures |s| == n && forall i :: 0 <= i < n ==> s[i] == i
  {
    if n == 0 then [] else UpTo(n - 1) + [n - 1]
  }
}
