/**
 The equivalent-circuit cell: coulomb counting, one RC pair, a lumped thermal node, aging and
 cycle detection.  Positive current discharges.  Times are simulated seconds.
 */
module CellModel {
  import opened Prelude
  import opened Models
  import opened Chemistry
  import opened Aging

  datatype Fault = Healthy | Short | Runaway | Swelling | Dead

  datatype Cell = Cell(
    chem: Chem,
    soc: real,
    tempC: real,
    vRc: real,
    age: Age,
    fault: Fault,
    latched: Error,
    agingAccum: real,
    lastCurrent: real,
    atTop: bool,       // between cycles; otherwise on an excursion below the top
    top: real,
    bottom: real)

  function NewCell(c: Chem): Cell {
    Cell(c, 0.5, 25.0, 0.0, NEW_CELL, Healthy, NoError, 0.0, 0.0, true, 0.5, 0.5)
  }

  function QEffective(c: Cell): (q: real)
    requires c.chem.capacity > 0.0
    ensures q >= 0.001
  {
    Usable(c.chem.capacity, Soh(c.chem, c.age))
  }

  function Usable(capacity: real, soh: real): real {
    Max(capacity * soh, 0.001)
  }

  function SeriesResistance(c: Cell): real {
    if c.fault == Short then 0.001
    else
      var r0 := R0(c.chem, c.soc, c.tempC);
      if c.fault == Swelling && c.soc > 0.7 then r0 * (1.0 + 0.01 * (c.age.elapsed / 86400.0)) else r0
  }

  function NextVrc(c: Cell, i: real, dt: real): real
    requires c.chem.r1 > 0.0 && c.chem.c1 > 0.0
  {
    assert c.chem.r1 * c.chem.c1 > 0.0;
    c.vRc + (i / c.chem.c1 - c.vRc / (c.chem.r1 * c.chem.c1)) * dt
  }

  function NextTemp(c: Cell, i: real, dt: real, ambient: real): real
    requires c.chem.thermalMass > 0.0
  {
    c.tempC + (i * i * SeriesResistance(c) - c.chem.hA * (c.tempC - ambient)) / c.chem.thermalMass * dt
  }

  function DeltaSoc(c: Cell, i: real, dt: real): real
    requires c.chem.capacity > 0.0
  {
    -i * dt / (3600.0 * QEffective(c))
  }

  /** Aging: throughput every tick, the calendar once a second has accumulated. */
  function Grow(m: Math, c: Cell, i: real, dt: real): Cell
    requires c.chem.capacity > 0.0
  {
    var accum := c.agingAccum + dt;
    var age := StepThroughput(m, c.chem, c.age, Abs(i) * dt / 3600.0);
    if accum >= 1.0
    then c.(age := StepCalendar(m, c.chem, age, accum, c.soc, c.tempC), agingAccum := 0.0)
    else c.(age := age, agingAccum := accum)
  }

  /** Cycle detection: leave the top below 95 %, sink to a bottom, come back above 95 %. */
  function DetectCycle(c: Cell): Cell {
    if c.atTop && c.soc < 0.95 then c.(top := c.soc, bottom := c.soc, atTop := false)
    else if !c.atTop && c.soc > 0.95 then
      var dod := c.top - c.bottom;
      c.(age := if dod > 0.5 then OnCycleComplete(c.chem, c.age, dod) else c.age, atTop := true)
    else if !c.atTop then c.(bottom := Min(c.bottom, c.soc))
    else c
  }

  function Driven(c: Cell, current: real): real {
    if c.fault == Dead then 0.0 else current
  }

  /** The part of a step before aging: charge, RC voltage and temperature move. */
  function Move(c: Cell, i: real, dt: real, ambient: real): Cell
    requires Sound(c.chem)
  {
    c.(soc := Clamp01(c.soc + DeltaSoc(c, i, dt)), vRc := NextVrc(c, i, dt), tempC := NextTemp(c, i, dt, ambient))
  }

  function Step(m: Math, c: Cell, current: real, dt: real, ambient: real): Cell
    requires Sound(c.chem)
  {
    if c.latched != NoError then c
    else
      var i := Driven(c, current);
      var moved := Move(c, i, dt, ambient);
      if moved.tempC > c.chem.runawayC then moved.(latched := ThermalRunaway)
      else DetectCycle(Grow(m, moved, i, dt)).(lastCurrent := i)
  }

  datatype Reading = Reading(
    voltage: real, current: real, tempC: real, soc: real, soh: real, cycles: nat, latched: Error)

  function ReadState(c: Cell): Reading
    requires Sound(c.chem)
  {
    var ocv := OcvLookup(c.chem, c.soc, c.tempC);
    var current := if c.latched != NoError then 0.0 else c.lastCurrent;
    var voltage := if c.latched != NoError then ocv - c.vRc
                   else ocv - current * R0(c.chem, c.soc, c.tempC) - c.vRc;
    Reading(voltage, current, c.tempC, c.soc, Soh(c.chem, c.age), c.age.cycles, c.latched)
  }

  // ---- Histories ------------------------------------------------------------------------------

  datatype Input =
    | Drive(current: real, dt: real, ambient: real)
    | Inject(fault: Fault)

  function Feed(m: Math, c: Cell, x: Input): Cell
    requires Sound(c.chem)
  {
    match x
    case Drive(i, dt, ambient) => Step(m, c, i, dt, ambient)
    case Inject(f) => c.(fault := f)
  }

  function History(m: Math, c: Cell, xs: seq<Input>): (end: Cell)
    requires Sound(c.chem)
    ensures end.chem == c.chem
    decreases xs
  {
    if xs == [] then c else History(m, Feed(m, c, xs[0]), xs[1..])
  }
}
