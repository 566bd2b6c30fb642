/** The thermal chamber: forward Euler on a first-order lag, and how fast it settles. */
module Chamber {
  import opened Prelude

  class ThermalModel {
    var measured: real
    var setpoint: real
    var tau: real

    constructor ()
      ensures measured == setpoint == 25.0 && tau == 600.0
    {
      measured, setpoint, tau := 25.0, 25.0, 600.0;
    }

    method Step(dt: real) returns (r: real)
      modifies this`measured
      ensures r == measured == Next(old(measured), setpoint, tau, dt)
    {
      if tau <= 0.0 {
        measured := setpoint;
        return measured;
      }
      var d := (setpoint - measured) / tau;
      measured := measured + d * dt;
      r := measured;
    }

    /** A fixed setpoint for n equal ticks. */
    method Settle(dt: real, n: nat)
      modifies this`measured
      ensures measured == After(old(measured), setpoint, tau, dt, n)
    {
      for i := 0 to n
        invariant measured == After(old(measured), setpoint, tau, dt, i)
      {
        var _ := Step(dt);
      }
    }
  }

  function Next(x: real, setpoint: real, tau: real, dt: real): real {
    if tau <= 0.0 then setpoint else x + (setpoint - x) / tau * dt
  }

  function After(x: real, setpoint: real, tau: real, dt: real, n: nat): real {
    if n == 0 then x else Next(After(x, setpoint, tau, dt, n - 1), setpoint, tau, dt)
  }

  function Pow(b: real, n: nat): real {
    if n == 0 then 1.0 else Part(b, Pow(b, n - 1))
  }

  /** One tick of at most tau goes towards the setpoint and not past it. */
  lemma NoOvershoot(x: real, setpoint: real, tau: real, dt: real)
    requires 0.0 < dt <= tau
    ensures x <= setpoint ==> x <= Next(x, setpoint, tau, dt) <= setpoint
    ensures setpoint <= x ==> setpoint <= Next(x, setpoint, tau, dt) <= x
  {
    var k := dt / tau;
    assert 0.0 < k <= 1.0;
    NextMixes(x, setpoint, tau, dt, k);
    MixBetween(x, setpoint, k);
  }

  lemma NextMixes(x: real, setpoint: real, tau: real, dt: real, k: real)
    requires tau > 0.0 && k == dt / tau
    ensures Next(x, setpoint, tau, dt) == Mix(x, setpoint, k)
  {
    assert (setpoint - x) / tau * dt == (setpoint - x) * (dt / tau);
  }

  /** The error after n ticks is exactly (1 - dt/tau)^n times the first. */
  lemma {:induction false} ErrorShrinksGeometrically(x: real, setpoint: real, tau: real, dt: real, n: nat)
    requires tau > 0.0
    ensures After(x, setpoint, tau, dt, n) - setpoint == Part(x - setpoint, Pow(1.0 - dt / tau, n))
  {
    if n > 0 {
      ErrorShrinksGeometrically(x, setpoint, tau, dt, n - 1);
      var y := After(x, setpoint, tau, dt, n - 1);
      NextMixes(y, setpoint, tau, dt, dt / tau);
      GeometricStep(y - setpoint, x - setpoint, Pow(1.0 - dt / tau, n - 1), dt / tau);
    }
  }

  lemma GeometricStep(e: real, e0: real, p: real, k: real)
    requires e == Part(e0, p)
    ensures e + Part(-e, k) == Part(e0, Part(1.0 - k, p))
  {
    calc {
      e + Part(-e, k);
    ==
      e * (1.0 - k);
    ==
      e0 * p * (1.0 - k);
    }
  }

  // ---- The acceptance bound: a 20 C step within 1 C in 2000 s ------------------------------------

  lemma {:induction false} PowUnit(b: real, n: nat)
    requires 0.0 <= b <= 1.0
    ensures 0.0 <= Pow(b, n) <= 1.0
  {
    hide Part;
    if n > 0 {
      PowUnit(b, n - 1);
      PartBounds(b, Pow(b, n - 1));
    }
  }

  lemma {:induction false} PowSplit(b: real, m: nat, k: nat)
    ensures Pow(b, m + k) == Part(Pow(b, m), Pow(b, k))
  {
    if m > 0 {
      hide Part;
      PowSplit(b, m - 1, k);
      PartAssociates(b, Pow(b, m - 1), Pow(b, k));
    }
  }

  /** The first three terms of the expansion of (1 + x)^m. */
  function Growth(x: real, m: nat): real {
    Poly(x, m as real, Triangle(m))
  }

  function Poly(x: real, r: real, h: real): real {
    1.0 + r * x + h * (x * x)
  }

  function Triangle(m: nat): real {
    if m == 0 then 0.0 else Triangle(m - 1) + (m - 1) as real
  }

  lemma {:induction false} TriangleIs(m: nat)
    ensures 2.0 * Triangle(m) == m as real * (m as real - 1.0) && Triangle(m) >= 0.0
  {
    if m > 0 {
      TriangleIs(m - 1);
      var r := (m - 1) as real;
      assert m as real == r + 1.0;
      assert r * (r - 1.0) + 2.0 * r == (r + 1.0) * r;
    }
  }

  lemma PolyExpands(x: real, r: real, h: real)
    ensures Part(1.0 - x, Poly(x, r + 1.0, h + r)) == Poly(x, r, h) - x * x - (h + r) * (x * x * x)
  {
  }

  lemma PolyStep(x: real, r: real, h: real)
    requires x >= 0.0 && r >= 0.0 && h >= 0.0
    ensures Part(1.0 - x, Poly(x, r + 1.0, h + r)) <= Poly(x, r, h)
  {
    PolyExpands(x, r, h);
    NonNegative(x, h + r);
  }

  lemma NonNegative(x: real, s: real)
    requires x >= 0.0 && s >= 0.0
    ensures x * x >= 0.0 && s * (x * x * x) >= 0.0
  {
    var xx := x * x;
    assert xx >= 0.0;
    var xxx := xx * x;
    assert xxx >= 0.0;
    assert s * xxx >= 0.0;
  }

  lemma GrowthStep(x: real, m: nat)
    requires x >= 0.0
    ensures Part(1.0 - x, Growth(x, m + 1)) <= Growth(x, m)
  {
    hide Poly, Part;
    TriangleIs(m);
    PolyStep(x, m as real, Triangle(m));
    assert (m + 1) as real == m as real + 1.0 && Triangle(m + 1) == Triangle(m) + m as real;
  }

  lemma {:induction false} PowUnderGrowth(x: real, m: nat)
    requires 0.0 <= x <= 1.0
    ensures Part(Pow(1.0 - x, m), Growth(x, m)) <= 1.0
  {
    if m == 0 {
      assert Growth(x, 0) == 1.0;
    } else {
      hide Part, Poly, Growth;
      PowUnderGrowth(x, m - 1);
      GrowthStep(x, m - 1);
      PowUnit(1.0 - x, m - 1);
      ChainBound(Pow(1.0 - x, m - 1), 1.0 - x, Growth(x, m), Growth(x, m - 1));
    }
  }

  lemma ChainBound(p: real, b: real, g1: real, g0: real)
    requires p >= 0.0 && Part(b, g1) <= g0 && Part(p, g0) <= 1.0
    ensures Part(Part(b, p), g1) <= 1.0
  {
    hide Part;
    PartCommutes(b, p);
    PartAssociates(p, b, g1);
    PartMonotone(Part(b, g1), g0, p);
  }

  lemma QuarterBound(x: real, m: nat)
    requires 0.0 < x <= 1.0 / 600.0 && Part(m as real, x) >= 0.832
    ensures 0.0 <= Pow(1.0 - x, m) && Part(Pow(1.0 - x, m), 2.17) <= 1.0
  {
    hide Part, Poly;
    PowUnderGrowth(x, m);
    PowUnit(1.0 - x, m);
    TriangleIs(m);
    PolyAbove(m as real, x, Triangle(m));
    PartMonotone(2.17, Growth(x, m), Pow(1.0 - x, m));
  }

  lemma PolyAbove(r: real, x: real, h: real)
    requires 2.0 * h == r * (r - 1.0) && Part(r, x) >= 0.832 && 0.0 < x <= 1.0 / 600.0
    ensures Poly(x, r, h) >= 2.17
  {
    var a := r * x;
    var d := a - x;
    assert d >= 0.83;
    assert a * d >= 0.832 * d;
    calc {
      2.0 * (h * (x * x));
    ==
      (2.0 * h) * (x * x);
    ==
      r * (r - 1.0) * (x * x);
    ==
      a * d;
    }
  }

  lemma FourthPower(p: real)
    requires 0.0 <= p && Part(p, 2.17) <= 1.0
    ensures Part(Part(p, p), Part(p, p)) <= 0.05
  {
    assert p <= 0.4609;
    var q := Part(p, p);
    assert q >= 0.0;
    PartMonotone(p, 0.4609, p);
    assert Part(0.4609, p) == 0.4609 * p;
    PartMonotone(q, 0.2125, q);
    assert Part(0.2125, q) == 0.2125 * q;
  }

  lemma QuarterOfTheTime(dt: real, n: nat)
    requires 0.0 < dt <= 1.0 && n as real * dt >= 2000.0
    ensures Part((n / 4) as real, dt / 600.0) >= 0.832
  {
    var r := (n / 4) as real;
    PartMonotone(n as real, 4.0 * r + 3.0, dt);
    assert r * dt >= 499.25;
    assert r * (dt / 600.0) == r * dt / 600.0;
  }

  lemma PowSmall(k: real, n: nat)
    requires 0.0 < k <= 1.0 / 600.0 && Part((n / 4) as real, k) >= 0.832
    ensures 0.0 <= Pow(1.0 - k, n) <= 0.05
  {
    hide Part;
    var b, m := 1.0 - k, n / 4;
    QuarterBound(k, m);
    PowSplit(b, m, m);
    PowSplit(b, 2 * m, 2 * m);
    PowSplit(b, 4 * m, n - 4 * m);
    assert m + m == 2 * m && 2 * m + 2 * m == 4 * m;
    PowUnit(b, 4 * m); PowUnit(b, n - 4 * m);
    FourthPower(Pow(b, m));
    PartBounds(Pow(b, 4 * m), Pow(b, n - 4 * m));
  }

  lemma PartOfTwentieth(e: real, p: real)
    requires 0.0 <= p <= 0.05 && e >= 0.0
    ensures 0.0 <= 20.0 * Part(e, p) <= e
  {
    assert 0.0 <= e * p <= e * 0.05;
  }

  /** At tau = 600 s and ticks of at most 1 s, 2000 s shrink any error below a twentieth. */
  lemma SettlesIn2000Seconds(x: real, setpoint: real, dt: real, n: nat)
    requires 0.0 < dt <= 1.0 && n as real * dt >= 2000.0
    ensures 20.0 * Abs(After(x, setpoint, 600.0, dt, n) - setpoint) <= Abs(x - setpoint)
    ensures Abs(x - setpoint) <= 20.0 ==> Abs(After(x, setpoint, 600.0, dt, n) - setpoint) <= 1.0
  {
    hide Part;
    ErrorShrinksGeometrically(x, setpoint, 600.0, dt, n);
    QuarterOfTheTime(dt, n);
    PowSmall(dt / 600.0, n);
    var p := Pow(1.0 - dt / 600.0, n);
    PartNegates(x - setpoint, p);
    PartOfTwentieth(Abs(x - setpoint), p);
  }
}
