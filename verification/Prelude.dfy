/** Small shared vocabulary: optional values and the real-number helpers the physics needs. */
module Prelude {
  datatype Option<+T> = None | Some(value: T)

  function Min(a: real, b: real): real {
    if a <= b then a else b
  }

  function Max(a: real, b: real): real {
    if a >= b then a else b
  }

  function Abs(a: real): real {
    if a >= 0.0 then a else -a
  }

  // ---- Products of reals ----------------------------------------------------------------------

  lemma Scale(k: real, x: real, y: real)
    requires k >= 0.0 && x <= y
    ensures k * x <= k * y && x * k <= y * k
  {
  }

  lemma ScaleStrictly(k: real, x: real, y: real)
    requires k > 0.0 && x < y
    ensures k * x < k * y
  {
  }

  lemma ProductsOrdered(a: real, b: real, x: real, y: real)
    requires 0.0 <= a <= b && 0.0 <= x <= y
    ensures 0.0 <= a * x <= b * y
  {
    Scale(a, x, y);
    Scale(y, a, b);
  }

  function Part(d: real, k: real): real {
    d * k
  }

  /** `k` of the way from x to y. */
  function Mix(x: real, y: real, k: real): real {
    x + Part(y - x, k)
  }

  lemma PartBounds(d: real, k: real)
    requires 0.0 <= k <= 1.0 && d >= 0.0
    ensures 0.0 <= Part(d, k) <= d
  {
    assert d * k >= 0.0;
    assert d * k <= d * 1.0;
  }

  lemma PartBelow(d: real, k: real)
    requires d > 0.0 && 0.0 <= k < 1.0
    ensures 0.0 <= Part(d, k) < d
  {
    assert d * k >= 0.0;
    assert d * (1.0 - k) > 0.0;
    assert d * (1.0 - k) == d - d * k;
  }

  lemma PartNonNegative(d: real, k: real)
    requires d >= 0.0 && k >= 0.0
    ensures Part(d, k) >= 0.0
  {
  }

  lemma PartCommutes(a: real, b: real)
    ensures Part(a, b) == Part(b, a)
  {
  }

  lemma PartAssociates(a: real, b: real, c: real)
    ensures Part(Part(a, b), c) == Part(a, Part(b, c))
  {
  }

  lemma PartSums(d: real, x: real, y: real)
    ensures Part(d, x + y) == Part(d, x) + Part(d, y)
  {
  }

  lemma NoPart(k: real)
    ensures Part(0.0, k) == 0.0 && Part(k, 0.0) == 0.0
  {
  }

  lemma PartMonotone(a: real, b: real, k: real)
    requires a <= b && k >= 0.0
    ensures Part(a, k) <= Part(b, k) && Part(k, a) <= Part(k, b)
  {
    assert a * k <= b * k;
    assert k * a == a * k && k * b == b * k;
  }

  lemma PartNegates(d: real, k: real)
    ensures Part(-d, k) == -Part(d, k)
  {
  }

  lemma MixBetween(x: real, y: real, k: real)
    requires 0.0 <= k <= 1.0
    ensures x <= y ==> x <= Mix(x, y, k) <= y
    ensures y <= x ==> y <= Mix(x, y, k) <= x
  {
    hide Part;
    if x <= y {
      PartBounds(y - x, k);
    }
    if y <= x {
      PartBounds(x - y, k);
      PartNegates(x - y, k);
      assert y - x == -(x - y);
    }
  }

  lemma MixBelow(x: real, y: real, k: real)
    requires x < y && 0.0 <= k < 1.0
    ensures x <= Mix(x, y, k) < y
  {
    hide Part;
    PartBelow(y - x, k);
  }

  lemma MixRises(x: real, y: real, k: real, m: real)
    requires x < y && k < m
    ensures Mix(x, y, k) < Mix(x, y, m)
  {
    hide Part;
    PartRises(y - x, k, m);
  }

  lemma PartRises(d: real, k: real, m: real)
    requires d > 0.0 && k < m
    ensures Part(d, k) < Part(d, m)
  {
    assert d * (m - k) > 0.0;
    assert d * (m - k) == d * m - d * k;
  }

  lemma SquaresStrict(a: real, b: real)
    requires 0.0 <= b < a
    ensures b * b < a * a
  {
    calc {
      b * b;
    <=
      b * a;
    ==
      a * b;
    <
      a * a;
    }
  }

  lemma SquaresOrder(a: real, b: real)
    requires a >= 0.0 && b >= 0.0 && a * a <= b * b
    ensures a <= b
  {
    if b < a {
      SquaresStrict(a, b);
    }
  }

  lemma DivideMonotone(x: real, y: real, d: real)
    requires x <= y && d > 0.0
    ensures x / d <= y / d
  {
  }
}
