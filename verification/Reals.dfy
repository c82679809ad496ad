// Real arithmetic that the solver needs help with.
module Reals {

  function Abs(r: real): real {
    if r < 0.0 then -r else r
  }

  function Max(a: real, b: real): real {
    if a < b then b else a
  }

  function Min(a: real, b: real): real {
    if b < a then b else a
  }

  lemma Sign(x: real, w: real)
    requires w > 0.0
    ensures (x > 0.0 <==> x * w > 0.0) && (x == 0.0 <==> x * w == 0.0)
  {
    if x > 0.0 {
      assert x * w > 0.0;
    } else if x < 0.0 {
      assert -x * w > 0.0;
    }
  }

  lemma ProductPositive(a: real, b: real, p: real)
    requires a > 0.0 && b > 0.0 && p == a * b
    ensures p > 0.0
  {
  }

  lemma ProductNonNegative(a: real, b: real)
    requires a >= 0.0 && b >= 0.0
    ensures a * b >= 0.0
  {
  }

  lemma SquareSign(r: real, s: real)
    requires s == r * r
    ensures s >= 0.0 && (r != 0.0 ==> s > 0.0)
  {
    if r > 0.0 {
      ProductPositive(r, r, s);
    } else if r < 0.0 {
      ProductPositive(-r, -r, s);
    }
  }
}
