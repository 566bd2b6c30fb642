/** Cell chemistries: open-circuit voltage, series resistance, and the four parameter sets. */
module Chemistry {
  import opened Prelude

  datatype Chem = Chem(
    name: string,
    ocv: seq<real>,          // 11 points over SOC 0.0 .. 1.0 at 25 C
    capacity: real,
    r0: real,
    r1: real,
    c1: real,
    hA: real,
    thermalMass: real,
    vMaxMv: nat,
    runawayC: real,
    swelling: real,
    kCal: real,
    kCyc: real,
    kLam: real,
    r0TempCoef: real)

  const NMC_OCV: seq<real> := [3.00, 3.45, 3.55, 3.62, 3.70, 3.78, 3.88, 4.00, 4.14, 4.28, 4.40]
  const LCO_OCV: seq<real> := [3.00, 3.55, 3.65, 3.72, 3.78, 3.85, 3.92, 4.02, 4.14, 4.26, 4.35]

  const NMC := Chem("NMC", NMC_OCV, 3.0, 0.030, 0.015, 2000.0, 0.4, 80.0, 4400, 130.0, 1.0,
                    0.0000001, 0.006, 0.0004, -0.005)
  const LCO := Chem("LCO", LCO_OCV, 3.0, 0.040, 0.015, 2000.0, 0.4, 80.0, 4350, 150.0, 1.0,
                    0.00000008, 0.007, 0.0005, -0.005)
  const NMC_SIC := Chem("NMC+SiC", NMC_OCV, 3.45, 0.030, 0.015, 2000.0, 0.4, 80.0, 4400, 130.0, 1.5,
                        0.0000001, 0.006, 0.0004, -0.005)
  const LCO_SIC := Chem("LCO+SiC", LCO_OCV, 3.45, 0.040, 0.015, 2000.0, 0.4, 80.0, 4350, 150.0, 1.5,
                        0.00000008, 0.007, 0.0005, -0.005)

  predicate Known(c: Chem) {
    c == NMC || c == LCO || c == NMC_SIC || c == LCO_SIC
  }

  ghost predicate IncreasingTable(ocv: seq<real>) {
    |ocv| == 11 && forall i, j | 0 <= i < j < 11 :: ocv[i] < ocv[j]
  }

  /** Parameters for which the physics makes sense; all four sets satisfy it. */
  ghost predicate Sound(c: Chem) {
    && IncreasingTable(c.ocv)
    && c.capacity > 0.0 && c.r1 > 0.0 && c.c1 > 0.0 && c.hA > 0.0 && c.thermalMass > 0.0
    && c.swelling >= 0.0 && c.kCal >= 0.0 && c.kCyc >= 0.0 && c.kLam >= 0.0
  }

  lemma KnownAreSound(c: Chem)
    requires Known(c)
    ensures Sound(c)
  {
    StepsIncrease(c.ocv);
  }

  lemma StepsIncrease(ocv: seq<real>)
    requires |ocv| == 11 && forall i | 0 <= i < 10 :: ocv[i] < ocv[i + 1]
    ensures IncreasingTable(ocv)
  {
    forall i, j | 0 <= i < j < 11 ensures ocv[i] < ocv[j] {
      StepsChain(ocv, i, j);
    }
  }

  lemma {:induction false} StepsChain(ocv: seq<real>, i: nat, j: nat)
    requires |ocv| == 11 && i < j < 11
    requires forall k | 0 <= k < 10 :: ocv[k] < ocv[k + 1]
    ensures ocv[i] < ocv[j]
    decreases j
  {
    if i + 1 < j {
      StepsChain(ocv, i, j - 1);
    }
    assert ocv[j - 1] < ocv[j - 1 + 1];
  }

  // ---- Open-circuit voltage -----------------------------------------------------------------

  function Clamp01(x: real): real {
    Max(0.0, Min(1.0, x))
  }

  /** Piecewise linear over the grid 0.0, 0.1, .. 1.0. */
  function Interp(ocv: seq<real>, soc: real): real
    requires |ocv| == 11 && 0.0 <= soc <= 1.0
  {
    var i := (soc * 10.0).Floor;
    if i >= 10 then ocv[10] else Mix(ocv[i], ocv[i + 1], soc * 10.0 - i as real)
  }

  function OcvLookup(c: Chem, soc: real, tempC: real): real
    requires |c.ocv| == 11
  {
    Interp(c.ocv, Clamp01(soc)) + 0.0003 * (tempC - 25.0)
  }

  lemma InterpInBin(ocv: seq<real>, soc: real)
    requires IncreasingTable(ocv) && 0.0 <= soc < 1.0
    ensures var i := (soc * 10.0).Floor; 0 <= i < 10 && ocv[i] <= Interp(ocv, soc) < ocv[i + 1]
  {
    var i := (soc * 10.0).Floor;
    MixBelow(ocv[i], ocv[i + 1], soc * 10.0 - i as real);
  }

  /** More charge, more voltage: the curve rises strictly over the whole range and meets
      the table at every grid point. */
  lemma OcvStrictlyIncreasing(ocv: seq<real>, a: real, b: real)
    requires IncreasingTable(ocv) && 0.0 <= a < b <= 1.0
    ensures Interp(ocv, a) < Interp(ocv, b)
  {
    var i, j := (a * 10.0).Floor, (b * 10.0).Floor;
    InterpInBin(ocv, a);
    assert i <= j;
    if j < 10 {
      InterpInBin(ocv, b);
      if i == j {
        MixRises(ocv[i], ocv[i + 1], a * 10.0 - i as real, b * 10.0 - i as real);
      }
    }
  }

  lemma OcvBounds(ocv: seq<real>, soc: real)
    requires IncreasingTable(ocv) && 0.0 <= soc <= 1.0
    ensures ocv[0] <= Interp(ocv, soc) <= ocv[10]
  {
    if soc < 1.0 {
      InterpInBin(ocv, soc);
    }
  }

  /** The curve meets the table at every grid point and is straight between two of them. */
  lemma OcvFollowsTable(ocv: seq<real>, k: nat, a: real, b: real)
    requires |ocv| == 11 && k <= 10 && 0.0 <= a && 0.0 <= b
    ensures Interp(ocv, k as real / 10.0) == ocv[k]
    ensures var lo, hi := k as real / 10.0, (k + 1) as real / 10.0;
            k < 10 && lo <= a < hi && lo <= b < hi ==>
              Interp(ocv, b) - Interp(ocv, a) == Part(ocv[k + 1] - ocv[k], 10.0 * (b - a))
  {
    var x := k as real / 10.0;
    assert x * 10.0 == k as real && (x * 10.0).Floor == k;
    if k < 10 && x <= a < x + 0.1 && x <= b < x + 0.1 {
      assert (a * 10.0).Floor == k && (b * 10.0).Floor == k;
    }
  }

  // ---- Series resistance --------------------------------------------------------------------

  function R0(c: Chem, soc: real, tempC: real): real {
    var edge := (Max(0.0, 0.1 - soc) + Max(0.0, soc - 0.9)) * 5.0;
    var base := c.r0 * (1.0 + 0.5 * edge);
    var scaled := base * (1.0 + c.r0TempCoef * (tempC - 25.0));
    Max(scaled, 0.0001)
  }

  /** Between -20 C and 76 C no known cell exceeds 50 mOhm scaled by its temperature factor. */
  lemma R0Bounds(c: Chem, soc: real, tempC: real)
    requires Known(c) && 0.0 <= soc <= 1.0 && -20.0 <= tempC <= 76.0
    ensures 0.0 < R0(c, soc, tempC) <= 0.05 * (1.125 - 0.005 * tempC)
  {
    var edge := (Max(0.0, 0.1 - soc) + Max(0.0, soc - 0.9)) * 5.0;
    assert 0.0 <= edge <= 0.5;
    assert c.r0TempCoef == -0.005 && 0.0 < c.r0 <= 0.04;
    R0Arithmetic(c.r0, edge, 1.0 + -0.005 * (tempC - 25.0));
  }

  /** How far into the last tenth at either end of the range, from 0 to a half. */
  function Edge(soc: real): real {
    if soc < 0.1 then 5.0 * (0.1 - soc) else if soc > 0.9 then 5.0 * (soc - 0.9) else 0.0
  }

  /** A cell has its nominal resistance between 10 % and 90 % charge at 25 C; towards both ends it grows
      by up to a quarter, and warming lowers it by half a percent per kelvin.  The floor is never met. */
  lemma R0Shape(c: Chem, soc: real, tempC: real)
    requires Known(c) && 0.0 <= soc <= 1.0 && -20.0 <= tempC <= 76.0
    ensures R0(c, soc, tempC) == Part(Part(c.r0, 1.0 + 0.5 * Edge(soc)), 1.0 - 0.005 * (tempC - 25.0))
  {
    hide Part, Edge;
    var factor := 1.0 + c.r0TempCoef * (tempC - 25.0);
    assert c.r0TempCoef == -0.005 && 0.03 <= c.r0 <= 0.04;
    assert factor == 1.0 - 0.005 * (tempC - 25.0);
    R0Factors(c.r0, soc, factor);
  }

  lemma R0Factors(r: real, soc: real, factor: real)
    requires 0.03 <= r <= 0.04 && 0.0 <= soc <= 1.0 && 0.745 <= factor
    ensures var edge := (Max(0.0, 0.1 - soc) + Max(0.0, soc - 0.9)) * 5.0;
            Max(r * (1.0 + 0.5 * edge) * factor, 0.0001) == Part(Part(r, 1.0 + 0.5 * Edge(soc)), factor)
  {
    assert (Max(0.0, 0.1 - soc) + Max(0.0, soc - 0.9)) * 5.0 == Edge(soc);
    ProductsOrdered(0.03, r, 1.0, 1.0 + 0.5 * Edge(soc));
    ProductsOrdered(0.03, r * (1.0 + 0.5 * Edge(soc)), 0.745, factor);
  }

  lemma R0Arithmetic(r: real, edge: real, factor: real)
    requires 0.0 < r <= 0.04 && 0.0 <= edge <= 0.5 && factor >= 0.745
    ensures 0.0 < Max(r * (1.0 + 0.5 * edge) * factor, 0.0001) <= 0.05 * factor
  {
    ProductsOrdered(r, 0.04, 1.0 + 0.5 * edge, 1.25);
    Scale(factor, r * (1.0 + 0.5 * edge), 0.05);
  }
}
