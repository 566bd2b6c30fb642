/**
 Which chemistry a chassis runs: what a write to its chemistry register installs, and that the
 register reads back as what is installed from then on.
 */
module ChassisChemistry {
  import opened Prelude
  import opened Models
  import opened Chemistry
  import opened CellModel
  import opened CellProofs
  import opened Registers
  import opened ChassisModel
  import opened ChassisProofs
  import opened ChassisBoot

  /** The wire encoding, by the chemistries' names. */
  predicate Numbered(id: int, name: string) {
    || (id == 1 && name == "NMC")
    || (id == 2 && name == "LCO")
    || (id == 3 && name == "NMC+SiC")
    || (id == 4 && name == "LCO+SiC")
  }

  ghost predicate AllRun(c: Chassis, chem: Chem) {
    forall i | 0 <= i < |c.chans| :: c.chans[i].cell.chem == chem
  }

  /** All cells of the chassis are of one known chemistry. */
  ghost predicate Uniform(c: Chassis) {
    exists chem :: Known(chem) && AllRun(c, chem)
  }

  /** A cell swap: a new cell, an idle channel without error, and the limit of the new chemistry. */
  predicate Swapped(before: Chan, after: Chan, chem: Chem) {
    && after.cell == NewCell(chem) && after.vMax == chem.vMaxMv
    && after.mode == Idle && after.setpoint == 0.0 && after.latched == NoError && after.cycleIndex == 0
    && after.tMax == before.tMax && after.lastKick == before.lastKick
  }

  lemma IdsAreTheirNames(id: int)
    ensures ChemById(id).Some? <==> exists chem :: Known(chem) && Numbered(id, chem.name)
    ensures forall chem | Known(chem) && Numbered(id, chem.name) :: ChemById(id) == Some(chem) && ChemId(chem) == id
  {
    if id == 1 {
      assert Numbered(id, NMC.name);
    } else if id == 2 {
      assert Numbered(id, LCO.name);
    } else if id == 3 {
      assert Numbered(id, NMC_SIC.name);
    } else if id == 4 {
      assert Numbered(id, LCO_SIC.name);
    }
  }

  lemma WriteReaches(env: Env, c: Chassis, id: int, now: real)
    requires Wired(c) && CHEMISTRY in c.regs
    ensures Perform(env, c, WriteRegs(CHEMISTRY, [id]), now)
            == SetChemistry(c.(regs := c.regs[CHEMISTRY := id]), id)
  {
    hide SetChemistry;
    var stored := c.(regs := Store(c.regs, CHEMISTRY, [id]));
    assert Store(c.regs[CHEMISTRY := id], CHEMISTRY + 1, [id][1..]) == c.regs[CHEMISTRY := id];
    assert DispatchAll(env.f, stored, CHEMISTRY, 1, now) == Dispatch(env.f, stored, CHEMISTRY, now);
  }

  /** Writing the number of a chemistry makes every cell of the chassis one of that chemistry: nothing
      changes on any channel if they were already, and every cell is swapped for a new one if not.
      A number that is no chemistry's changes no channel. */
  lemma ChemistryWriteInstalls(env: Env, c: Chassis, id: int, chem: Chem, now: real)
    requires Wired(c) && Uniform(c) && CHEMISTRY in c.regs && Known(chem)
    ensures var v := Perform(env, c, WriteRegs(CHEMISTRY, [id]), now);
            && |v.chans| == |c.chans| && v.kick == c.kick && v.regs == c.regs[CHEMISTRY := id]
            && (Numbered(id, chem.name) ==> AllRun(v, chem))
            && (Numbered(id, chem.name) && !AllRun(c, chem) ==>
                  forall i | 0 <= i < |c.chans| :: Swapped(c.chans[i], v.chans[i], chem))
            && (Numbered(id, chem.name) && AllRun(c, chem) ==> v.chans == c.chans)
            && ((forall k | Known(k) :: !Numbered(id, k.name)) ==> v.chans == c.chans)
  {
    WriteReaches(env, c, id, now);
    IdsAreTheirNames(id);
    hide Perform, NewCell;
    var was :| Known(was) && AllRun(c, was);
    var v := Perform(env, c, WriteRegs(CHEMISTRY, [id]), now);
    if Numbered(id, chem.name) && c.chans != [] {
      assert c.chans[0].cell.chem == was;
      assert AllRun(c, chem) <==> chem == was;
      assert NewCell(chem).chem == chem by { NewCellRuns(chem); }
    }
  }

  lemma NewCellRuns(chem: Chem)
    ensures NewCell(chem).chem == chem
  {
  }

  // ---- Runs ----------------------------------------------------------------------------------------

  /** The chassis runs this chemistry and its register says so. */
  ghost predicate Installed(c: Chassis, chem: Chem) {
    c.chans != [] && AllRun(c, chem) && CHEMISTRY in c.regs && Numbered(c.regs[CHEMISTRY], chem.name)
  }

  predicate WritesChemistry(a: Action) {
    a.WriteRegs? && a.addr <= CHEMISTRY < a.addr + |a.values|
  }

  lemma {:induction false} OtherWritesKeepCells(f: F32, c: Chassis, addr: nat, n: nat, now: real)
    requires Wired(c) && !(addr <= CHEMISTRY < addr + n)
    ensures var v := DispatchAll(f, c, addr, n, now);
            && v.regs == c.regs && |v.chans| == |c.chans|
            && forall i | 0 <= i < |c.chans| :: v.chans[i].cell == c.chans[i].cell
    decreases n
  {
    hide Dispatch;
    if n > 0 {
      DispatchFrame(f, c, addr, now);
      OtherWritesKeepCells(f, Dispatch(f, c, addr, now), addr + 1, n - 1, now);
    }
  }

  /** Nothing but a write to the chemistry register changes what is installed or what it reads. */
  lemma StepKeepsInstalled(env: Env, c: Chassis, a: Action, now: real, chem: Chem)
    requires Wired(c) && Known(chem) && Installed(c, chem) && !WritesChemistry(a)
    ensures Installed(Perform(env, c, a, now), chem)
  {
    hide CellModel.Step, ReadState, DesiredCurrent;
    match a
    case WriteRegs(addr, values) =>
      StoreAt(c.regs, addr, values, CHEMISTRY);
      OtherWritesKeepCells(env.f, c.(regs := Store(c.regs, addr, values)), addr, |values|, now);
    case MirrorTick =>
      IdsAreTheirNames(ChemId(chem));
      IdsAreTheirNames(c.regs[CHEMISTRY]);
    case CellTick(i, dt, ambient) =>
      if i < |c.chans| {
        var ch := c.chans[i];
        StepKeepsItsChem(env.m, ch.cell, DesiredCurrent(ch, ReadState(ch.cell).voltage), dt, ambient);
        StepKeepsItsChem(env.m, ch.cell, 0.0, dt, ambient);
      }
    case SafetyTick(i) =>
    case ChassisTick =>
  }

  /** After the write of a chemistry's number, and whatever happens except another write there, every
      cell is of that chemistry and the register reads as that number: a kick-off's read-back holds. */
  lemma {:induction false} ChemistryStays(env: Env, c: Chassis, es: seq<Tick>, chem: Chem)
    requires Wired(c) && Known(chem) && Installed(c, chem)
    requires forall e | e in es :: !WritesChemistry(e.action)
    ensures Installed(ChassisProofs.Run(env, c, es), chem)
    decreases es
  {
    hide Perform, Installed, WritesChemistry;
    if es != [] {
      assert es[0] in es && forall e | e in es[1..] :: e in es;
      StepKeepsInstalled(env, c, es[0].action, es[0].now, chem);
      StepKeepsWired(env, c, es[0].action, es[0].now);
      ChemistryStays(env, Perform(env, c, es[0].action, es[0].now), es[1..], chem);
    }
  }

  lemma ReadBackConfirms(env: Env, c: Chassis, id: int, chem: Chem, now: real, es: seq<Tick>)
    requires Wired(c) && Uniform(c) && c.chans != [] && CHEMISTRY in c.regs
    requires Known(chem) && Numbered(id, chem.name) && forall e | e in es :: !WritesChemistry(e.action)
    ensures Wired(Perform(env, c, WriteRegs(CHEMISTRY, [id]), now))
    ensures var v := ChassisProofs.Run(env, Perform(env, c, WriteRegs(CHEMISTRY, [id]), now), es);
            AllRun(v, chem) && CHEMISTRY in v.regs && v.regs[CHEMISTRY] == id
  {
    hide Perform, AllRun;
    StepKeepsWired(env, c, WriteRegs(CHEMISTRY, [id]), now);
    ChemistryWriteInstalls(env, c, id, chem, now);
    ChemistryStays(env, Perform(env, c, WriteRegs(CHEMISTRY, [id]), now), es, chem);
  }

  /** A number that is no chemistry's stays in the register only until the next mirror tick, which
      puts the number of the cells' own chemistry there. */
  lemma MirrorCorrects(env: Env, c: Chassis, chem: Chem, now: real)
    requires Wired(c) && Known(chem) && AllRun(c, chem) && c.chans != [] && CHEMISTRY in c.regs
    ensures Installed(Perform(env, c, MirrorTick, now), chem)
  {
    IdsAreTheirNames(1);
    IdsAreTheirNames(2);
    IdsAreTheirNames(3);
    IdsAreTheirNames(4);
  }

  // ---- All cells are alike ---------------------------------------------------------------------------

  lemma UniformHere(c: Chassis, chem: Chem)
    requires Known(chem) && AllRun(c, chem)
    ensures Uniform(c)
  {
  }

  lemma DispatchKeepsUniform(f: F32, c: Chassis, addr: nat, now: real)
    requires Wired(c) && Uniform(c)
    ensures Uniform(Dispatch(f, c, addr, now))
  {
    var was :| Known(was) && AllRun(c, was);
    var v := Dispatch(f, c, addr, now);
    DispatchFrame(f, c, addr, now);
    if addr == CHEMISTRY {
      IdsAreTheirNames(At(c.regs, CHEMISTRY));
      match ChemById(At(c.regs, CHEMISTRY))
      case None => UniformHere(v, was);
      case Some(chem) => UniformHere(v, if c.chans == [] || c.chans[0].cell.chem == chem then was else chem);
    } else {
      UniformHere(v, was);
    }
  }

  lemma {:induction false} DispatchAllKeepsUniform(f: F32, c: Chassis, addr: nat, n: nat, now: real)
    requires Wired(c) && Uniform(c)
    ensures Uniform(DispatchAll(f, c, addr, n, now))
    decreases n
  {
    hide Dispatch, Uniform;
    if n > 0 {
      DispatchFrame(f, c, addr, now);
      DispatchKeepsUniform(f, c, addr, now);
      DispatchAllKeepsUniform(f, Dispatch(f, c, addr, now), addr + 1, n - 1, now);
    }
  }

  /** No step mixes chemistries on a chassis. */
  lemma StepKeepsUniform(env: Env, c: Chassis, a: Action, now: real)
    requires Wired(c) && Uniform(c)
    ensures Uniform(Perform(env, c, a, now))
  {
    if a.WriteRegs? {
      hide DispatchAll;
      DispatchAllKeepsUniform(env.f, c.(regs := Store(c.regs, a.addr, a.values)), a.addr, |a.values|, now);
    } else {
      var chem :| Known(chem) && AllRun(c, chem);
      StepKeepsChem(env, c, a, now, chem);
      UniformHere(Perform(env, c, a, now), chem);
    }
  }

  lemma StepKeepsChem(env: Env, c: Chassis, a: Action, now: real, chem: Chem)
    requires Wired(c) && AllRun(c, chem) && !a.WriteRegs?
    ensures AllRun(Perform(env, c, a, now), chem)
  {
    hide CellModel.Step, ReadState, DesiredCurrent, Mirror;
    if a.CellTick? && a.i < |c.chans| {
      var ch := c.chans[a.i];
      StepKeepsItsChem(env.m, ch.cell, DesiredCurrent(ch, ReadState(ch.cell).voltage), a.dt, a.ambient);
      StepKeepsItsChem(env.m, ch.cell, 0.0, a.dt, a.ambient);
    } else if a.MirrorTick? {
      MirrorKeepsChannels(env, c);
    }
  }

  lemma MirrorKeepsChannels(env: Env, c: Chassis)
    requires Wired(c)
    ensures Mirror(env.f, c).chans == c.chans
  {
  }

  lemma {:induction false} RunKeepsUniform(env: Env, c: Chassis, es: seq<Tick>)
    requires Wired(c) && Uniform(c)
    ensures Uniform(ChassisProofs.Run(env, c, es))
    decreases es
  {
    hide Perform, Uniform;
    if es != [] {
      StepKeepsUniform(env, c, es[0].action, es[0].now);
      StepKeepsWired(env, c, es[0].action, es[0].now);
      RunKeepsUniform(env, Perform(env, c, es[0].action, es[0].now), es[1..]);
    }
  }

  lemma BootIsUniform(c: Chassis, chem: Chem, now: real)
    requires Booted(c, chem, now)
    ensures Uniform(c) && Wired(c)
  {
    hide NewCell;
    NewCellRuns(chem);
    NewCellOk(chem);
    UniformHere(c, chem);
  }
}
