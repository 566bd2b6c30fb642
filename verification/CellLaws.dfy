/**
 What one step and a whole run do to a cell, in terms of charge, resistance and losses: coulomb
 counting with its sign, the two relaxing nodes, what the terminals show, and usable charge.
 */
module CellLaws {
  import opened Prelude
  import opened Models
  import opened Chemistry
  import opened Aging
  import opened CellModel
  import opened CellProofs
  import opened CellBand

  // ---- Usable charge --------------------------------------------------------------------------------

  /** State of health is what both losses leave of the nameplate capacity, as a fraction: exactly so
      unless they exceed it, in which case it is 0. */
  lemma SohIs(c: Chem, age: Age)
    requires c.capacity > 0.0 && Sane(age)
    ensures Part(c.capacity, Soh(c, age)) == Max(0.0, c.capacity - age.lli - age.lam)
  {
    var rest := c.capacity - age.lli - age.lam;
    var x := rest / c.capacity;
    assert c.capacity * x == rest;
    if x > 1.0 {
      assert c.capacity * (x - 1.0) > 0.0;
    }
  }

  /** The ampere-hours a cell still holds between empty and full, never less than one milliampere-hour. */
  function Left(c: Cell): real {
    Max(c.chem.capacity - c.age.lli - c.age.lam, 0.001)
  }

  lemma UsableIsLeft(c: Cell)
    requires c.chem.capacity > 0.0 && Sane(c.age)
    ensures QEffective(c) == Left(c)
  {
    SohIs(c.chem, c.age);
    hide Soh;
    assert Part(c.chem.capacity, Soh(c.chem, c.age)) == c.chem.capacity * Soh(c.chem, c.age);
  }

  // ---- Coulomb counting --------------------------------------------------------------------------------

  /** Where a charge that is drawn from a cell leaves its state of charge: that much lower, within the
      ends of the range. */
  ghost predicate Drawn(before: Cell, after: Cell, charge: real) {
    && 0.0 <= after.soc <= 1.0
    && (0.0 < after.soc < 1.0 ==> Part(before.soc - after.soc, 3600.0 * Left(before)) == charge)
    && (after.soc == 0.0 ==> Part(before.soc, 3600.0 * Left(before)) <= charge)
    && (after.soc == 1.0 ==> Part(before.soc - 1.0, 3600.0 * Left(before)) >= charge)
  }

  lemma MoveDraws(c: Cell, i: real, dt: real, ambient: real)
    requires Sound(c.chem) && Sane(c.age)
    ensures Drawn(c, Move(c, i, dt, ambient), i * dt)
  {
    hide NextVrc, NextTemp, QEffective;
    UsableIsLeft(c);
    var q := 3600.0 * Left(c);
    var d := DeltaSoc(c, i, dt);
    assert d * q == -(i * dt) by { assert d * q == -i * dt; assert -i * dt == -(i * dt); }
    ClampDraws(c.soc, d, q, i * dt);
  }

  lemma ClampDraws(s: real, d: real, q: real, charge: real)
    requires q > 0.0 && d * q == -charge
    ensures var t := Clamp01(s + d);
            && (0.0 < t < 1.0 ==> Part(s - t, q) == charge)
            && (t == 0.0 ==> Part(s, q) <= charge)
            && (t == 1.0 ==> Part(s - 1.0, q) >= charge)
  {
    assert Part(-d, q) == charge;
    if s + d <= 0.0 { PartMonotone(s, -d, q); }
    if s + d >= 1.0 { PartMonotone(-d, s - 1.0, q); }
  }

  /** A current out of the cell never raises its charge and a current into it never lowers it. */
  lemma DrawnHasSign(before: Cell, after: Cell, charge: real)
    requires Drawn(before, after, charge) && 0.0 <= before.soc <= 1.0
    ensures charge >= 0.0 ==> after.soc <= before.soc
    ensures charge <= 0.0 ==> after.soc >= before.soc
    ensures charge > 0.0 && before.soc > 0.0 ==> after.soc < before.soc
    ensures charge < 0.0 && before.soc < 1.0 ==> after.soc > before.soc
  {
    var q := 3600.0 * Left(before);
    if after.soc > before.soc { PartRises(q, before.soc - after.soc, 0.0); PartCommutes(q, before.soc - after.soc); }
    if after.soc < before.soc { PartRises(q, 0.0, before.soc - after.soc); PartCommutes(q, before.soc - after.soc); }
    if before.soc < 1.0 { PartRises(q, before.soc - 1.0, 0.0); PartCommutes(q, before.soc - 1.0); }
    if before.soc > 0.0 { PartRises(q, 0.0, before.soc); PartCommutes(q, before.soc); }
  }

  lemma StepKeepsCharge(m: Math, c: Cell, current: real, dt: real, ambient: real)
    requires Sound(c.chem) && c.latched == NoError
    ensures Step(m, c, current, dt, ambient).soc == Move(c, Driven(c, current), dt, ambient).soc
  {
    hide Grow, DetectCycle, Move;
    var i := Driven(c, current);
    MoveKeepsChem(c, i, dt, ambient);
    StepIs(m, c, current, dt, ambient);
    DetectLeavesPhysics(m, Move(c, i, dt, ambient), i, dt);
  }

  lemma MoveKeepsChem(c: Cell, i: real, dt: real, ambient: real)
    requires Sound(c.chem)
    ensures Move(c, i, dt, ambient).chem == c.chem
  {
  }

  /** Coulomb counting: a tick of a working cell draws current times time from it, so discharging
      empties it and charging fills it; a dead cell's charge stands still. */
  lemma TickDraws(m: Math, c: Cell, current: real, dt: real, ambient: real)
    requires Sound(c.chem) && Sane(c.age) && 0.0 <= c.soc <= 1.0 && c.latched == NoError && dt > 0.0
    ensures var v := Step(m, c, current, dt, ambient);
            && Drawn(c, v, if c.fault == Dead then 0.0 else Part(current, dt))
            && (c.fault != Dead && current > 0.0 && c.soc > 0.0 ==> v.soc < c.soc)
            && (c.fault != Dead && current < 0.0 && c.soc < 1.0 ==> v.soc > c.soc)
            && (c.fault == Dead || current == 0.0 ==> v.soc == c.soc)
  {
    hide Step, Move, Drawn, DeltaSoc, NextVrc, NextTemp;
    var i := Driven(c, current);
    StepKeepsCharge(m, c, current, dt, ambient);
    MoveDraws(c, i, dt, ambient);
    SameDraw(c, Move(c, i, dt, ambient), Step(m, c, current, dt, ambient), i * dt);
    DrawnHasSign(c, Step(m, c, current, dt, ambient), i * dt);
    ChargeHasSign(i, dt);
    assert i * dt == if c.fault == Dead then 0.0 else Part(current, dt);
  }

  lemma SameDraw(c: Cell, v: Cell, w: Cell, charge: real)
    requires Drawn(c, v, charge) && w.soc == v.soc
    ensures Drawn(c, w, charge)
  {
  }

  lemma ChargeHasSign(i: real, dt: real)
    requires dt > 0.0
    ensures i > 0.0 ==> i * dt > 0.0
    ensures i < 0.0 ==> i * dt < 0.0
    ensures i == 0.0 ==> i * dt == 0.0
  {
  }

  // ---- Charge over a run -----------------------------------------------------------------------------

  /** Current times time of one input, as far as the cell carries it. */
  function Charge(c: Cell, x: Input): real {
    if x.Drive? && c.latched == NoError && c.fault != Dead then Part(x.current, x.dt) else 0.0
  }

  /** The ampere-seconds drawn over a history, charging counted negative. */
  function ChargeDrawn(m: Math, c: Cell, xs: seq<Input>): real
    requires Sound(c.chem)
    decreases xs
  {
    if xs == [] then 0.0 else Charge(c, xs[0]) + ChargeDrawn(m, Feed(m, c, xs[0]), xs[1..])
  }

  /** What the cell gave: the fall of its charge at every step, at the capacity it then had. */
  function ChargeGiven(m: Math, c: Cell, xs: seq<Input>): real
    requires Sound(c.chem)
    decreases xs
  {
    if xs == [] then 0.0
    else
      var v := Feed(m, c, xs[0]);
      Part(c.soc - v.soc, 3600.0 * Left(c)) + ChargeGiven(m, v, xs[1..])
  }

  /** The cell is never driven to either end of its range. */
  ghost predicate WithinRange(m: Math, c: Cell, xs: seq<Input>)
    requires Sound(c.chem)
    decreases xs
  {
    0.0 < c.soc < 1.0 && (xs != [] ==> WithinRange(m, Feed(m, c, xs[0]), xs[1..]))
  }

  lemma FeedBalances(m: Math, c: Cell, x: Input)
    requires m.Lawful() && Paid(c) && (x.Drive? ==> x.dt > 0.0)
    ensures Paid(Feed(m, c, x)) && Feed(m, c, x).chem == c.chem
    ensures 0.0 < Feed(m, c, x).soc < 1.0 ==>
              Part(c.soc - Feed(m, c, x).soc, 3600.0 * Left(c)) == Charge(c, x)
  {
    hide Step, QEffective, Part, Left;
    var v := Feed(m, c, x);
    NoPart(3600.0 * Left(c));
    if x.Drive? {
      StepPays(m, c, x.current, x.dt, x.ambient);
      if c.latched == NoError {
        TickDraws(m, c, x.current, x.dt, x.ambient);
        StepKeepsItsChem(m, c, x.current, x.dt, x.ambient);
      } else {
        LatchedStays(m, c, x.current, x.dt, x.ambient);
      }
    } else {
      SameAgeSameQ(c, v);
    }
  }

  /** Charge is conserved over every history that stays within the range: what the cell gave is exactly
      the sum of current times time, with its sign, whatever aging and faults do meanwhile. */
  lemma {:induction false} ChargeIsConserved(m: Math, c: Cell, xs: seq<Input>)
    requires m.Lawful() && Paid(c) && WithinRange(m, c, xs)
    requires forall x | x in xs :: x.Drive? ==> x.dt > 0.0
    ensures ChargeGiven(m, c, xs) == ChargeDrawn(m, c, xs)
    decreases xs
  {
    hide Feed, Paid, Left, Charge, Part;
    PaidIsSound(c);
    if xs != [] {
      assert xs[0] in xs && forall x | x in xs[1..] :: x in xs;
      FeedBalances(m, c, xs[0]);
      var v := Feed(m, c, xs[0]);
      assert WithinRange(m, v, xs[1..]);
      ChargeIsConserved(m, v, xs[1..]);
    }
  }

  lemma PaidIsSound(c: Cell)
    requires Paid(c)
    ensures Sound(c.chem)
  {
  }

  // ---- The meters ------------------------------------------------------------------------------------

  function Duration(xs: seq<Input>): real
    decreases xs
  {
    if xs == [] then 0.0 else (if xs[0].Drive? then xs[0].dt else 0.0) + Duration(xs[1..])
  }

  /** The ampere-hours a history moves through a cell, in either direction. */
  function Moved(fault: Fault, xs: seq<Input>): real
    decreases xs
  {
    if xs == [] then 0.0
    else match xs[0]
      case Inject(f) => Moved(f, xs[1..])
      case Drive(i, dt, _) => (if fault == Dead then 0.0 else Spent(i, dt)) + Moved(fault, xs[1..])
  }

  /** Its age in seconds, with the part of a second that has not been accounted for yet. */
  function Clock(c: Cell): real {
    c.age.elapsed + c.agingAccum
  }

  lemma FeedMeters(m: Math, c: Cell, x: Input)
    requires Sound(c.chem) && Feed(m, c, x).latched == NoError && (x.Drive? ==> x.dt > 0.0)
    ensures var v := Feed(m, c, x);
            && c.latched == NoError && v.chem == c.chem && v.fault == (if x.Inject? then x.fault else c.fault)
            && Clock(v) == Clock(c) + (if x.Drive? then x.dt else 0.0)
            && (x.Drive? || c.agingAccum < 1.0 ==> v.agingAccum < 1.0)
            && v.age.throughput
               == c.age.throughput + if x.Inject? || c.fault == Dead then 0.0 else Spent(x.current, x.dt)
  {
    if x.Drive? {
      hide NextVrc, NextTemp, DeltaSoc, DetectCycle, Grow;
      var i := Driven(c, x.current);
      var moved := Move(c, i, x.dt, x.ambient);
      SpentIs(i, x.dt);
      if c.latched == NoError {
        GrowIs(m, moved, i, x.dt);
        DetectLeavesMeters(Grow(m, moved, i, x.dt));
      }
    }
  }

  lemma DetectLeavesMeters(c: Cell)
    ensures var v := DetectCycle(c);
            && v.age.elapsed == c.age.elapsed && v.agingAccum == c.agingAccum
            && v.age.throughput == c.age.throughput && v.chem == c.chem && v.fault == c.fault
  {
  }

  /** Over every history without runaway the clock has gone on by the sum of the tick lengths, less than
      a second of it still to be aged for, and the throughput by all the charge that was moved. */
  lemma {:induction false} MetersAreExact(m: Math, c: Cell, xs: seq<Input>)
    requires Sound(c.chem) && c.agingAccum < 1.0 && History(m, c, xs).latched == NoError
    requires forall x | x in xs :: x.Drive? ==> x.dt > 0.0
    ensures var end := History(m, c, xs);
            && Clock(end) == Clock(c) + Duration(xs) && end.agingAccum < 1.0
            && end.age.throughput == c.age.throughput + Moved(c.fault, xs)
    decreases xs
  {
    hide Feed, Clock, Spent;
    if xs != [] {
      assert xs[0] in xs && forall x | x in xs[1..] :: x in xs;
      var v := Feed(m, c, xs[0]);
      if v.latched != NoError { LatchIsFinal(m, v, xs[1..]); }
      FeedMeters(m, c, xs[0]);
      MetersAreExact(m, v, xs[1..]);
    }
  }

  /** Lithium is lost tick by tick: for the charge moved, and, once a second or more has accumulated, for
      that time at the charge and temperature the tick has led to. */
  lemma StepAges(m: Math, c: Cell, current: real, dt: real, ambient: real)
    requires Sound(c.chem) && Step(m, c, current, dt, ambient).latched == NoError && dt > 0.0
    ensures c.latched == NoError
    ensures var v, i := Step(m, c, current, dt, ambient), if c.fault == Dead then 0.0 else current;
            var used := Apply(m, c.chem, c.age, Throughput(Spent(i, dt)));
            v.age.lli == if c.agingAccum + dt < 1.0 then used.lli
                         else Apply(m, c.chem, used, Calendar(c.agingAccum + dt, v.soc, v.tempC)).lli
  {
    hide NextVrc, NextTemp, DeltaSoc, DetectCycle, Grow, Apply;
    var i := Driven(c, current);
    var moved := Move(c, i, dt, ambient);
    if c.latched == NoError {
      SpentIs(i, dt);
      GrowIs(m, moved, i, dt);
      DetectLeavesPhysics(m, moved, i, dt);
    }
  }

  // ---- The two relaxing nodes --------------------------------------------------------------------------

  /** The resistance that heats the cell: a short's milliohm, a swollen cell's grown one, or R0. */
  function Heating(c: Cell): real {
    var r0 := R0(c.chem, c.soc, c.tempC);
    if c.fault == Short then 0.001
    else if c.fault == Swelling && c.soc > 0.7 then r0 + Part(r0, c.age.elapsed / 8640000.0)
    else r0
  }

  lemma HeatingIs(c: Cell)
    ensures SeriesResistance(c) == Heating(c)
  {
    var r0, days := R0(c.chem, c.soc, c.tempC), c.age.elapsed / 86400.0;
    assert 0.01 * days == c.age.elapsed / 8640000.0;
    assert r0 * (1.0 + 0.01 * days) == r0 + r0 * (0.01 * days);
  }

  /** Per tick the diffusion voltage covers dt / 30 s of its way to I * 15 mOhm, and the temperature
      dt / 200 s of its way to the ambient plus 2.5 K per watt of Joule heat.  The cell latches if and
      only if that takes it over its runaway temperature; if not, it remembers the current. */
  lemma NodesRelax(m: Math, c: Cell, current: real, dt: real, ambient: real)
    requires Known(c.chem) && Sound(c.chem) && c.latched == NoError
    ensures var v, i := Step(m, c, current, dt, ambient), if c.fault == Dead then 0.0 else current;
            && v.vRc == Mix(c.vRc, 0.015 * i, dt / 30.0)
            && v.tempC == Mix(c.tempC, ambient + 2.5 * Heat(i, Heating(c)), 0.005 * dt)
            && v.latched == (if v.tempC > c.chem.runawayC then ThermalRunaway else NoError)
            && (v.latched != NoError ==> v.age == c.age && v.lastCurrent == c.lastCurrent)
            && (v.latched == NoError ==> v.lastCurrent == i)
            && v.fault == c.fault && v.chem == c.chem
  {
    hide Grow, DetectCycle, NextVrc, NextTemp, DeltaSoc, Mix, Heat, SeriesResistance, Heating;
    var i := Driven(c, current);
    var moved := Move(c, i, dt, ambient);
    StepIs(m, c, current, dt, ambient);
    var _, _ := VrcMixes(c, i, dt);
    var _, _ := TempMixes(c, i, dt, ambient);
    HeatingIs(c);
    DetectLeavesPhysics(m, moved, i, dt);
  }

  // ---- What the terminals show -----------------------------------------------------------------------

  /** Discharging pulls the terminals below the idle voltage and charging pushes them above it, by
      the current through R0; a latched cell shows its idle voltage and no current. */
  lemma TerminalsSag(c: Cell)
    requires Known(c.chem) && Sound(c.chem) && 0.0 <= c.soc <= 1.0 && -20.0 <= c.tempC <= 76.0
    ensures var s, idle := ReadState(c), ReadState(c.(lastCurrent := 0.0)).voltage;
            && (c.latched != NoError ==> s.voltage == idle && s.current == 0.0)
            && (c.latched == NoError ==>
                  && s.current == c.lastCurrent
                  && s.voltage == idle - Part(c.lastCurrent, R0(c.chem, c.soc, c.tempC))
                  && (c.lastCurrent > 0.0 ==> s.voltage < idle)
                  && (c.lastCurrent < 0.0 ==> s.voltage > idle))
            && s.tempC == c.tempC && s.soc == c.soc && s.cycles == c.age.cycles && s.latched == c.latched
  {
    hide OcvLookup, R0;
    R0Bounds(c.chem, c.soc, c.tempC);
    var r := R0(c.chem, c.soc, c.tempC);
    NoPart(r);
    ChargeHasSign(c.lastCurrent, r);
  }

  /** The idle voltage falls with the diffusion voltage, and rises strictly with charge and, by
      0.3 mV/K, with temperature. */
  lemma IdleVoltage(c: Cell, soc: real, tempC: real, vRc: real)
    requires Sound(c.chem) && 0.0 <= c.soc <= 1.0 && 0.0 <= soc <= 1.0 && c.lastCurrent == 0.0
    ensures ReadState(c.(vRc := vRc)).voltage - ReadState(c).voltage == c.vRc - vRc
    ensures ReadState(c.(tempC := tempC)).voltage - ReadState(c).voltage == 0.0003 * (tempC - c.tempC)
    ensures c.soc < soc ==> ReadState(c).voltage < ReadState(c.(soc := soc)).voltage
  {
    hide Interp, R0;
    assert Clamp01(c.soc) == c.soc && Clamp01(soc) == soc;
    if c.soc < soc { OcvStrictlyIncreasing(c.chem.ocv, c.soc, soc); }
  }
}
