/** The physical band a driven cell never leaves, its fade budget, and how a cell at rest relaxes. */
module CellBand {
  import opened Prelude
  import opened Models
  import opened Chemistry
  import opened Aging
  import opened CellModel
  import opened CellProofs

  // ---- One Euler step is a mixture --------------------------------------------------------------

  /** One forward-Euler step of the RC pair mixes its voltage with I * R1. */
  lemma VrcMixes(c: Cell, i: real, dt: real) returns (k: real, target: real)
    requires Known(c.chem)
    ensures k == dt / 30.0 && target == 0.015 * i
    ensures NextVrc(c, i, dt) == Mix(c.vRc, target, k)
  {
    k, target := dt / 30.0, 0.015 * i;
    assert c.chem.r1 * c.chem.c1 == 30.0 && c.chem.c1 == 2000.0;
    RcArithmetic(c.vRc, i, dt, k, target);
  }

  lemma RcArithmetic(v: real, i: real, dt: real, k: real, target: real)
    requires k == dt / 30.0 && target == 0.015 * i
    ensures v + (i / 2000.0 - v / 30.0) * dt == Mix(v, target, k)
  {
    assert dt == 30.0 * k;
  }

  /** One step of the thermal node mixes its temperature with the one it heads for. */
  lemma TempMixes(c: Cell, i: real, dt: real, ambient: real) returns (k: real, target: real)
    requires Known(c.chem)
    ensures k == 0.005 * dt && target == ambient + 2.5 * Heat(i, SeriesResistance(c))
    ensures NextTemp(c, i, dt, ambient) == Mix(c.tempC, target, k)
  {
    k, target := 0.005 * dt, ambient + 2.5 * Heat(i, SeriesResistance(c));
    hide SeriesResistance;
    var heat := i * i * SeriesResistance(c);
    assert heat == Heat(i, SeriesResistance(c));
    ThermalArithmetic(c.tempC, heat, dt, ambient, k, target);
  }

  /** Joule heat of a current in a resistance. */
  function Heat(i: real, r: real): real {
    i * i * r
  }

  lemma ThermalArithmetic(t: real, heat: real, dt: real, ambient: real, k: real, target: real)
    requires k == 0.005 * dt && target == ambient + 2.5 * heat
    ensures t + (heat - 0.4 * (t - ambient)) / 80.0 * dt == Mix(t, target, k)
  {
    assert dt == 200.0 * k;
  }

  // ---- The band ---------------------------------------------------------------------------------

  /** No fault that changes the cell's resistance. ("thermal_runaway" has no effect in a step.) */
  predicate Intact(f: Fault) {
    f != Short && f != Swelling
  }

  predicate Mild(x: Input) {
    match x
    case Drive(i, dt, ambient) => -10.0 <= i <= 10.0 && 0.0 < dt <= 30.0 && -20.0 <= ambient <= 60.0
    case Inject(f) => Intact(f)
  }

  ghost predicate InBand(c: Cell) {
    && Known(c.chem) && Intact(c.fault) && c.latched == NoError
    && 0.0 <= c.soc <= 1.0
    && -20.0 <= c.tempC <= 76.0
    && -0.15 <= c.vRc <= 0.15
    && -10.0 <= c.lastCurrent <= 10.0
  }

  lemma HeatBounds(i: real, r: real, tempC: real)
    requires -10.0 <= i <= 10.0 && -20.0 <= tempC <= 76.0 && 0.0 < r <= 0.05 * (1.125 - 0.005 * tempC)
    ensures 0.0 <= 2.5 * Heat(i, r) <= 15.4
  {
    assert 0.0 <= i * i <= 100.0 by {
      if i >= 0.0 { ProductsOrdered(i, 10.0, i, 10.0); } else { ProductsOrdered(-i, 10.0, -i, 10.0); }
    }
    ProductsOrdered(i * i, 100.0, r, 0.0613);
  }

  lemma MoveStaysInBand(c: Cell, i: real, dt: real, ambient: real)
    requires InBand(c) && Mild(Drive(i, dt, ambient)) && Sound(c.chem)
    ensures var moved := Move(c, i, dt, ambient);
            && 0.0 <= moved.soc <= 1.0 && -20.0 <= moved.tempC <= 76.0 && -0.15 <= moved.vRc <= 0.15
  {
    hide DeltaSoc, NextVrc, NextTemp;
    ClampShrinks(c.soc, DeltaSoc(c, i, dt));
    VrcStaysInBand(c, i, dt);
    TempStaysInBand(c, i, dt, ambient);
  }

  lemma VrcStaysInBand(c: Cell, i: real, dt: real)
    requires InBand(c) && -10.0 <= i <= 10.0 && 0.0 < dt <= 30.0
    ensures -0.15 <= NextVrc(c, i, dt) <= 0.15
  {
    hide NextVrc, Mix;
    var k, target := VrcMixes(c, i, dt);
    MixBetween(c.vRc, target, k);
  }

  lemma TempStaysInBand(c: Cell, i: real, dt: real, ambient: real)
    requires InBand(c) && Mild(Drive(i, dt, ambient))
    ensures -20.0 <= NextTemp(c, i, dt, ambient) <= 76.0
  {
    hide NextTemp, SeriesResistance, Mix, R0, Heat;
    SeriesIsR0(c);
    R0Bounds(c.chem, c.soc, c.tempC);
    HeatBounds(i, SeriesResistance(c), c.tempC);
    var k, target := TempMixes(c, i, dt, ambient);
    MixInBand(c.tempC, target, k);
  }

  lemma SeriesIsR0(c: Cell)
    requires Intact(c.fault)
    ensures SeriesResistance(c) == R0(c.chem, c.soc, c.tempC)
  {
  }

  lemma MixInBand(x: real, y: real, k: real)
    requires 0.0 <= k <= 1.0 && -20.0 <= x <= 76.0 && -20.0 <= y <= 76.0
    ensures -20.0 <= Mix(x, y, k) <= 76.0
  {
    hide Mix;
    MixBetween(x, y, k);
  }

  lemma DetectLeavesPhysics(m: Math, c: Cell, i: real, dt: real)
    requires c.chem.capacity > 0.0
    ensures var v := DetectCycle(Grow(m, c, i, dt));
            && v.chem == c.chem == Grow(m, c, i, dt).chem
            && v.soc == c.soc && v.tempC == c.tempC && v.vRc == c.vRc
            && v.fault == c.fault && v.latched == c.latched
            && v.age.lli == Grow(m, c, i, dt).age.lli && v.age.elapsed == Grow(m, c, i, dt).age.elapsed
            && v.age.throughput == Grow(m, c, i, dt).age.throughput
  {
  }

  /** Whatever the mild inputs, a step stays in the band, and thermal runaway does not latch. */
  lemma StepStaysInBand(m: Math, c: Cell, current: real, dt: real, ambient: real)
    requires InBand(c) && Mild(Drive(current, dt, ambient)) && Sound(c.chem)
    ensures InBand(Step(m, c, current, dt, ambient))
  {
    hide Step, Grow, DetectCycle, DeltaSoc, NextVrc, NextTemp;
    var i := Driven(c, current);
    MoveStaysInBand(c, i, dt, ambient);
    StepIs(m, c, current, dt, ambient);
    DetectLeavesPhysics(m, Move(c, i, dt, ambient), i, dt);
  }

  /** In the band the terminals show between 2.2 and 5.2 V. */
  lemma VoltageInBand(c: Cell)
    requires InBand(c) && Sound(c.chem)
    ensures 2.2 <= ReadState(c).voltage <= 5.2
  {
    hide R0, Interp;
    OcvBounds(c.chem.ocv, c.soc);
    assert c.chem.ocv[0] == 3.0 && 4.35 <= c.chem.ocv[10] <= 4.40;
    assert Clamp01(c.soc) == c.soc;
    R0Bounds(c.chem, c.soc, c.tempC);
    TerminalBounds(OcvLookup(c.chem, c.soc, c.tempC), c.lastCurrent, R0(c.chem, c.soc, c.tempC), c.vRc);
  }

  lemma TerminalBounds(ocv: real, i: real, r: real, vRc: real)
    requires 2.9865 <= ocv <= 4.4153 && -10.0 <= i <= 10.0 && 0.0 < r <= 0.06125 && -0.15 <= vRc <= 0.15
    ensures 2.2 <= ocv - i * r - vRc <= 5.2
  {
    DropBounds(i, r);
  }

  lemma DropBounds(i: real, r: real)
    requires -10.0 <= i <= 10.0 && 0.0 < r <= 0.06125
    ensures -0.6125 <= i * r <= 0.6125
  {
    assert -10.0 * r <= i * r;
    assert i * r <= 10.0 * r;
  }

  // ---- Fade -------------------------------------------------------------------------------------

  /** Lithium loss within the calendar budget at 76 C plus the throughput law. */
  ghost predicate Faded(m: Math, c: Cell) {
    && c.chem.capacity > 0.0
    && c.age.elapsed >= 0.0 && c.age.throughput >= 0.0 && c.agingAccum >= 0.0
    && c.age.lli <= CalendarBudget(m, c.chem, 76.0, c.age.elapsed) + ThroughputLaw(m, c.chem, c.age.throughput)
  }

  lemma GrowFades(m: Math, c: Cell, i: real, dt: real)
    requires m.Lawful() && Sound(c.chem) && Faded(m, c) && dt >= 0.0
    requires 0.0 <= c.soc <= 1.0 && c.tempC <= 76.0
    ensures Faded(m, Grow(m, c, i, dt))
  {
    hide CalendarBudget, ThroughputLaw, CalendarDelta, ThroughputDelta, Grow;
    var d := Spent(i, dt);
    SpentIs(i, dt);
    GrowIs(m, c, i, dt);
    ThroughputDeltaIs(m, c.chem, c.age.throughput, d);
    CalendarDeltaBounds(m, c.chem, c.age.elapsed, c.agingAccum + dt, c.soc, c.tempC, 76.0);
  }

  lemma StepFades(m: Math, c: Cell, current: real, dt: real, ambient: real)
    requires m.Lawful() && InBand(c) && Mild(Drive(current, dt, ambient)) && Sound(c.chem) && Faded(m, c)
    ensures Faded(m, Step(m, c, current, dt, ambient))
  {
    hide Step, Grow, DetectCycle, DeltaSoc, NextVrc, NextTemp, CalendarBudget, ThroughputLaw;
    var i := Driven(c, current);
    var moved := Move(c, i, dt, ambient);
    MoveStaysInBand(c, i, dt, ambient);
    StepIs(m, c, current, dt, ambient);
    DetectLeavesPhysics(m, moved, i, dt);
    GrowFades(m, moved, i, dt);
    GrowKeepsAccum(m, moved, i, dt);
  }

  lemma GrowKeepsAccum(m: Math, c: Cell, i: real, dt: real)
    requires c.chem.capacity > 0.0 && c.agingAccum >= 0.0 && dt >= 0.0
    ensures DetectCycle(Grow(m, c, i, dt)).agingAccum >= 0.0
  {
  }

  /** Over unbounded histories of mild inputs: the band, no latch, the terminal voltage, the
      fade budget, and the account of cycles, all at once. */
  lemma {:induction false} MildHistory(m: Math, c: Cell, xs: seq<Input>)
    requires m.Lawful() && InBand(c) && Paid(c) && Faded(m, c)
    requires forall x | x in xs :: Mild(x)
    ensures var end := History(m, c, xs);
            InBand(end) && Paid(end) && Faded(m, end) && 2.2 <= ReadState(end).voltage <= 5.2
    decreases xs
  {
    hide Step, ReadState, CalendarBudget, ThroughputLaw;
    if xs == [] {
      VoltageInBand(c);
    } else {
      var x := xs[0];
      assert x in xs && forall x | x in xs[1..] :: x in xs;
      if x.Drive? {
        StepStaysInBand(m, c, x.current, x.dt, x.ambient);
        StepFades(m, c, x.current, x.dt, x.ambient);
        StepPays(m, c, x.current, x.dt, x.ambient);
      } else {
        InjectKeeps(m, c, x.fault);
      }
      MildHistory(m, Feed(m, c, x), xs[1..]);
    }
  }

  lemma InjectKeeps(m: Math, c: Cell, f: Fault)
    requires InBand(c) && Paid(c) && Faded(m, c) && Intact(f)
    ensures var v := c.(fault := f); InBand(v) && Paid(v) && Faded(m, v)
  {
    SameAgeSameQ(c, c.(fault := f));
  }

  lemma NewCellStartsInBand(m: Math, c: Chem)
    requires m.Lawful() && Known(c)
    ensures InBand(NewCell(c)) && Paid(NewCell(c)) && Faded(m, NewCell(c))
  {
    KnownAreSound(c);
    SqrtMonotone(m, 0.0, 0.0);
    SquaresOrder(m.sqrt(0.0), 0.0);
    assert m.sqrt(0.0) == 0.0 && 0.0 / c.capacity == 0.0;
  }

  // ---- At rest ------------------------------------------------------------------------------------

  /** With no current a cell only relaxes: charge and throughput stand still, the RC voltage
      and the distance to the ambient temperature never grow. */
  lemma RestRelaxes(m: Math, c: Cell, dt: real, ambient: real)
    requires Known(c.chem) && Sound(c.chem) && 0.0 <= c.soc <= 1.0 && 0.0 < dt <= 30.0
    ensures var v := Step(m, c, 0.0, dt, ambient);
            && v.soc == c.soc && v.age.throughput == c.age.throughput
            && Abs(v.vRc) <= Abs(c.vRc)
            && Abs(v.tempC - ambient) <= Abs(c.tempC - ambient)
  {
    hide Grow, DetectCycle, NextVrc, NextTemp, DeltaSoc, Step;
    if c.latched == NoError {
      var moved := Move(c, 0.0, dt, ambient);
      StepIs(m, c, 0.0, dt, ambient);
      NoCurrentNoCharge(c, dt);
      RestMoves(c, dt, ambient);
      DetectLeavesPhysics(m, moved, 0.0, dt);
      NoCurrentNoThroughput(m, moved, dt);
    } else {
      LatchedStays(m, c, 0.0, dt, ambient);
    }
  }

  lemma RestMoves(c: Cell, dt: real, ambient: real)
    requires Known(c.chem) && Sound(c.chem) && 0.0 < dt <= 30.0
    ensures Abs(NextVrc(c, 0.0, dt)) <= Abs(c.vRc)
    ensures Abs(NextTemp(c, 0.0, dt, ambient) - ambient) <= Abs(c.tempC - ambient)
  {
    RestVrc(c, dt);
    RestTemp(c, dt, ambient);
  }

  lemma RestVrc(c: Cell, dt: real)
    requires Known(c.chem) && 0.0 < dt <= 30.0
    ensures Abs(NextVrc(c, 0.0, dt)) <= Abs(c.vRc)
  {
    hide NextVrc, Mix;
    var k, target := VrcMixes(c, 0.0, dt);
    MixBetween(c.vRc, target, k);
  }

  lemma RestTemp(c: Cell, dt: real, ambient: real)
    requires Known(c.chem) && 0.0 < dt <= 30.0
    ensures Abs(NextTemp(c, 0.0, dt, ambient) - ambient) <= Abs(c.tempC - ambient)
  {
    hide NextTemp, SeriesResistance, Mix;
    var k, target := TempMixes(c, 0.0, dt, ambient);
    assert Heat(0.0, SeriesResistance(c)) == 0.0;
    MixBetween(c.tempC, target, k);
  }

  lemma NoCurrentNoCharge(c: Cell, dt: real)
    requires c.chem.capacity > 0.0 && 0.0 <= c.soc <= 1.0
    ensures Clamp01(c.soc + DeltaSoc(c, 0.0, dt)) == c.soc
  {
    assert DeltaSoc(c, 0.0, dt) == 0.0;
  }

  lemma NoCurrentNoThroughput(m: Math, c: Cell, dt: real)
    requires c.chem.capacity > 0.0
    ensures Grow(m, c, 0.0, dt).age.throughput == c.age.throughput
  {
  }
}
