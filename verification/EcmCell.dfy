/** The cell and its aging record as the objects that the tick updates in place. */
module EcmCell {
  import opened Prelude
  import opened Models
  import opened Chemistry
  import opened Aging
  import opened CellModel

  class AgingState {
    var lli: real
    var lam: real
    var throughput: real
    var elapsed: real
    var cycles: nat
    var lastDod: real

    constructor ()
      ensures View() == NEW_CELL
    {
      lli, lam, throughput, elapsed, cycles, lastDod := 0.0, 0.0, 0.0, 0.0, 0, 0.0;
    }

    function View(): Age
      reads this
    {
      Age(lli, lam, throughput, elapsed, cycles, lastDod)
    }

    method StepCalendarLli(m: Math, c: Chem, dt: real, soc: real, tempC: real) returns (delta: real)
      modifies this
      ensures View() == StepCalendar(m, c, old(View()), dt, soc, tempC)
      ensures delta == View().lli - old(View()).lli
    {
      elapsed := elapsed + dt;
      var socFactor := m.sqrt(Max(soc, 0.0));
      var tFactor := m.exp((tempC - 25.0) / 12.0);
      var sqrtTerm := 0.5 / Max(m.sqrt(elapsed), 1.0);
      delta := c.kCal * dt * sqrtTerm * socFactor * tFactor;
      lli := lli + delta;
    }

    method StepThroughputLli(m: Math, c: Chem, d: real) returns (delta: real)
      requires c.capacity > 0.0
      modifies this
      ensures View() == StepThroughput(m, c, old(View()), d)
      ensures delta == View().lli - old(View()).lli
    {
      throughput := throughput + Abs(d);
      delta := c.kCyc * m.sqrt(throughput / c.capacity)
               - c.kCyc * m.sqrt(Max(0.0, throughput - Abs(d)) / c.capacity);
      delta := Max(delta, 0.0) * c.swelling;
      lli := lli + delta;
    }

    method OnCycle(c: Chem, dod: real) returns (delta: real)
      modifies this
      ensures View() == OnCycleComplete(c, old(View()), dod)
      ensures delta == View().lam - old(View()).lam
    {
      cycles, lastDod := cycles + 1, dod;
      delta := c.kLam * (dod * dod);
      lam := lam + delta;
    }
  }

  class ECMCell {
    const chem: Chem
    const age: AgingState
    var soc: real
    var tempC: real
    var vRc: real
    var fault: Fault
    var latched: Error
    var agingAccum: real
    var lastCurrent: real
    var atTop: bool
    var top: real
    var bottom: real

    /** A fresh cell at 50 % charge and 25 C, as a chassis builds it. */
    constructor (c: Chem)
      ensures View() == NewCell(c) && fresh(age)
    {
      chem, soc, tempC, vRc := c, 0.5, 25.0, 0.0;
      age := new AgingState();
      fault, latched, agingAccum, lastCurrent := Healthy, NoError, 0.0, 0.0;
      atTop, top, bottom := true, 0.5, 0.5;
    }

    function View(): Cell
      reads this, age
    {
      Cell(chem, soc, tempC, vRc, age.View(), fault, latched, agingAccum, lastCurrent, atTop, top, bottom)
    }

    method InjectFault(f: Fault)
      requires f != Healthy
      modifies this`fault
      ensures View() == old(View()).(fault := f)
    {
      fault := f;
    }

    method Step(m: Math, current: real, dt: real, ambient: real)
      requires Sound(chem)
      modifies this, age
      ensures View() == CellModel.Step(m, old(View()), current, dt, ambient)
    {
      hide Move, Grow, DetectCycle;
      if latched != NoError {
        return;
      }
      var i := if fault == Dead then 0.0 else current;
      MoveOn(i, dt, ambient);
      if tempC > chem.runawayC {
        latched := ThermalRunaway;
        return;
      }
      GrowOlder(m, i, dt);
      Detect();
      lastCurrent := i;
    }

    method MoveOn(i: real, dt: real, ambient: real)
      requires Sound(chem)
      modifies this`soc, this`vRc, this`tempC
      ensures View() == Move(old(View()), i, dt, ambient)
    {
      hide QEffective, SeriesResistance;
      ghost var before := View();
      var r0 := SeriesResistance(View());
      var dSoc := -i * dt / (3600.0 * QEffective(View()));
      assert dSoc == DeltaSoc(before, i, dt);
      soc := Max(0.0, Min(1.0, soc + dSoc));
      assert chem.r1 * chem.c1 > 0.0;
      vRc := vRc + (i / chem.c1 - vRc / (chem.r1 * chem.c1)) * dt;
      assert vRc == NextVrc(before, i, dt);
      tempC := tempC + (i * i * r0 - chem.hA * (tempC - ambient)) / chem.thermalMass * dt;
      assert tempC == NextTemp(before, i, dt, ambient);
    }

    method GrowOlder(m: Math, i: real, dt: real)
      requires chem.capacity > 0.0
      modifies this`agingAccum, age
      ensures View() == Grow(m, old(View()), i, dt)
    {
      agingAccum := agingAccum + dt;
      var _ := age.StepThroughputLli(m, chem, Abs(i) * dt / 3600.0);
      if agingAccum >= 1.0 {
        var _ := age.StepCalendarLli(m, chem, agingAccum, soc, tempC);
        agingAccum := 0.0;
      }
    }

    method Detect()
      modifies this`atTop, this`top, this`bottom, age
      ensures View() == DetectCycle(old(View()))
    {
      if atTop && soc < 0.95 {
        top, bottom := soc, soc;
        atTop := false;
      } else if !atTop && soc > 0.95 {
        var dod := top - bottom;
        if dod > 0.5 {
          var _ := age.OnCycle(chem, dod);
        }
        atTop := true;
      } else if !atTop {
        bottom := Min(bottom, soc);
      }
    }
  }
}
