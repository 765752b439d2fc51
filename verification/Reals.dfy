/** Sums and products of real numbers. */
module Reals {

  function Front(s: seq<real>): seq<real>
    requires s != []
  {
    s[..|s| - 1]
  }

  function Back(s: seq<real>): real
    requires s != []
  {
    s[|s| - 1]
  }

  function Sum(s: seq<real>): real {
    if s == [] then 0.0 else Sum(Front(s)) + Back(s)
  }

  function Square(x: real): real {
    x * x
  }

  /** The sign of a product whose first factor is positive. */
  lemma ProductSign(f: real, x: real)
    requires f > 0.0 && x >= 0.0
    ensures f * x >= 0.0 && (f * x == 0.0 <==> x == 0.0)
  {
  }

  lemma PositiveSquare(x: real, square: real)
    requires x > 0.0 && square == x * x
    ensures square > 0.0
  {
    ProductSign(x, x);
  }

  lemma SquareSign(x: real)
    ensures Square(x) >= 0.0 && (Square(x) == 0.0 <==> x == 0.0)
  {
    if x > 0.0 {
      PositiveSquare(x, Square(x));
    } else if x < 0.0 {
      PositiveSquare(-x, Square(x));
    }
  }

  lemma ScaleOrder(a: real, b: real, w: real)
    requires w > 0.0
    ensures a <= b <==> a * w <= b * w
  {
    assert (b - a) * w == b * w - a * w;
    if a <= b { ProductSign(w, b - a); } else { ProductSign(w, a - b); }
  }

  lemma QuotientOrder(a: real, x: real, w: real)
    requires w > 0.0
    ensures a <= x / w <==> a * w <= x
  {
    assert x / w * w == x;
    ScaleOrder(a, x / w, w);
  }
}
