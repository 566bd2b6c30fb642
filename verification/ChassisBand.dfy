/**
 The control law and the cell together: while no constant-current setpoint exceeds 10 A, no cell
 of a chassis leaves its physical band and no channel latches thermal runaway, whatever commands,
 swaps, halts and ticks a run consists of.
 */
module ChassisBand {
  import opened Prelude
  import opened Models
  import opened Chemistry
  import opened Aging
  import opened CellModel
  import opened CellBand
  import opened Registers
  import opened ChassisModel
  import opened ChassisProofs

  /** A tick of a cell in a mild ambient; a channel at constant current asks for at most 10 A. */
  predicate Tame(c: Chassis, a: Action) {
    a.CellTick? && a.i < |c.chans| ==>
      && 0.0 < a.dt <= 30.0 && -20.0 <= a.ambient <= 60.0
      && (c.chans[a.i].mode == CC && c.chans[a.i].latched == NoError ==> Abs(c.chans[a.i].setpoint) <= 10.0)
  }

  ghost predicate TameRun(env: Env, c: Chassis, es: seq<Tick>)
    requires Wired(c)
    decreases es
  {
    es != [] ==>
      && Tame(c, es[0].action)
      && (StepKeepsWired(env, c, es[0].action, es[0].now);
          TameRun(env, Perform(env, c, es[0].action, es[0].now), es[1..]))
  }

  ghost predicate Cool(ch: Chan) {
    InBand(ch.cell) && ch.latched != ThermalRunaway
  }

  ghost predicate AllCool(c: Chassis) {
    forall i | 0 <= i < |c.chans| :: Cool(c.chans[i])
  }

  lemma FreshCellIsCool(ch: Chan, chem: Chem)
    requires Known(chem)
    ensures Cool(Rebuilt(ch, chem))
  {
  }

  lemma DispatchKeepsCool(f: F32, c: Chassis, addr: nat, now: real)
    requires Wired(c) && AllCool(c)
    ensures AllCool(Dispatch(f, c, addr, now))
  {
    hide InBand, NewCell, DecodeF32;
    if addr == CHEMISTRY {
      var chem := ChemById(At(c.regs, CHEMISTRY));
      if chem.Some? {
        forall i | 0 <= i < |c.chans| ensures Cool(Rebuilt(c.chans[i], chem.value)) {
          FreshCellIsCool(c.chans[i], chem.value);
        }
      }
    }
  }

  lemma {:induction false} DispatchAllKeepsCool(f: F32, c: Chassis, addr: nat, n: nat, now: real)
    requires Wired(c) && AllCool(c)
    ensures AllCool(DispatchAll(f, c, addr, n, now))
    decreases n
  {
    hide Dispatch, Cool;
    if n > 0 {
      DispatchFrame(f, c, addr, now);
      DispatchKeepsCool(f, c, addr, now);
      DispatchAllKeepsCool(f, Dispatch(f, c, addr, now), addr + 1, n - 1, now);
    }
  }

  lemma CellBodyKeepsCool(m: Math, ch: Chan, dt: real, ambient: real)
    requires CellOk(ch.cell) && Cool(ch) && 0.0 < dt <= 30.0 && -20.0 <= ambient <= 60.0
    requires ch.mode == CC && ch.latched == NoError ==> Abs(ch.setpoint) <= 10.0
    ensures Cool(CellBody(m, ch, dt, ambient))
  {
    hide ReadState, DesiredCurrent, CellModel.Step;
    var i := DesiredCurrent(ch, ReadState(ch.cell).voltage);
    ControlLaw(ch, ReadState(ch.cell).voltage, 0.0);
    StepStaysInBand(m, ch.cell, i, dt, ambient);
    StepStaysInBand(m, ch.cell, 0.0, dt, ambient);
  }

  lemma SafetyBodyKeepsCool(ch: Chan, now: real, threshold: real)
    requires Sound(ch.cell.chem) && Cool(ch)
    ensures Cool(SafetyBody(ch, now, threshold))
  {
    CellReports(ch.cell);
    hide ReadState;
  }

  lemma CellReports(cell: Cell)
    requires Sound(cell.chem)
    ensures ReadState(cell).latched == cell.latched
  {
  }

  lemma StepKeepsCool(env: Env, c: Chassis, a: Action, now: real)
    requires Wired(c) && AllCool(c) && Tame(c, a)
    ensures AllCool(Perform(env, c, a, now))
  {
    hide Cool, CellBody, SafetyBody, ReadState;
    match a
    case WriteRegs(addr, values) =>
      DispatchAllKeepsCool(env.f, c.(regs := Store(c.regs, addr, values)), addr, |values|, now);
    case MirrorTick =>
    case CellTick(i, dt, ambient) =>
      if i < |c.chans| { CellBodyKeepsCool(env.m, c.chans[i], dt, ambient); }
    case SafetyTick(i) =>
      if i < |c.chans| { SafetyBodyKeepsCool(c.chans[i], now, env.channelThreshold); }
    case ChassisTick =>
      forall i | 0 <= i < |c.chans| ensures Cool(ChassisTrip(c.chans[i])) { TripKeepsCool(c.chans[i]); }
  }

  lemma TripKeepsCool(ch: Chan)
    requires Cool(ch)
    ensures Cool(ChassisTrip(ch))
  {
  }

  /** Over every run: all cells in the band, their terminals between 2.2 and 5.2 V, and thermal
      runaway nowhere. */
  lemma {:induction false} RunStaysInBand(env: Env, c: Chassis, es: seq<Tick>)
    requires Wired(c) && AllCool(c) && TameRun(env, c, es)
    ensures var end := ChassisProofs.Run(env, c, es);
            && AllCool(end)
            && forall i | 0 <= i < |end.chans| :: 2.2 <= ReadState(end.chans[i].cell).voltage <= 5.2
    decreases es
  {
    hide Perform, ReadState, Tame, InBand;
    if es == [] {
      forall i | 0 <= i < |c.chans| ensures 2.2 <= ReadState(c.chans[i].cell).voltage <= 5.2 {
        VoltageInBand(c.chans[i].cell);
      }
    } else {
      StepKeepsCool(env, c, es[0].action, es[0].now);
      StepKeepsWired(env, c, es[0].action, es[0].now);
      RunStaysInBand(env, Perform(env, c, es[0].action, es[0].now), es[1..]);
    }
  }
}
