/** From a command to charge: the current of the control law is the current that moves the cell. */
module ChassisCurrent {
  import opened Prelude
  import opened Models
  import opened Chemistry
  import opened Aging
  import opened CellModel
  import opened CellProofs
  import opened CellLaws
  import opened ChassisModel
  import opened ChassisProofs

  /** What the mode asks of the cell: nothing at idle, at rest and on a latched channel, the setpoint at
      constant current, and otherwise what the control law makes of the terminal voltage. */
  function Asked(ch: Chan): real
    requires Sound(ch.cell.chem)
  {
    if ch.latched != NoError || ch.mode == Idle || ch.mode == Rest then 0.0
    else if ch.mode == CC then ch.setpoint
    else DesiredCurrent(ch, ReadState(ch.cell).voltage)
  }

  /** A cell tick draws the asked current for its length from its own channel's cell and nothing else:
      the channel keeps its command unless the cell runs away, in which case it is halted with the
      cell's error; no other channel, register or timer is touched. */
  lemma TickDrawsAsked(env: Env, c: Chassis, i: nat, dt: real, ambient: real, now: real)
    requires Wired(c) && i < |c.chans| && Sane(c.chans[i].cell.age) && dt > 0.0
    requires c.chans[i].cell.latched == NoError
    ensures var v := Perform(env, c, CellTick(i, dt, ambient), now);
            && |v.chans| == |c.chans| && v.regs == c.regs && v.kick == c.kick
            && (forall j | 0 <= j < |c.chans| && j != i :: v.chans[j] == c.chans[j])
            && var before, after, asked := c.chans[i], v.chans[i], Asked(c.chans[i]);
               && Drawn(before.cell, after.cell, if before.cell.fault == Dead then 0.0 else Part(asked, dt))
               && (after.cell.latched == NoError ==>
                     && after == before.(cell := after.cell)
                     && after.cell.lastCurrent == if before.cell.fault == Dead then 0.0 else asked)
               && (after.cell.latched != NoError ==> after.latched != NoError || before.latched != NoError)
               && (after.cell.latched != NoError && before.latched == NoError ==>
                     after.latched == after.cell.latched && after.mode == Idle)
  {
    hide ReadState, CellModel.Step, Drawn, Part;
    var ch := c.chans[i];
    AskedIs(ch);
    TickDraws(env.m, ch.cell, Asked(ch), dt, ambient);
    StepRemembers(env.m, ch.cell, Asked(ch), dt, ambient);
  }

  lemma AskedIs(ch: Chan)
    requires Sound(ch.cell.chem)
    ensures Asked(ch) == if ch.latched != NoError then 0.0 else DesiredCurrent(ch, ReadState(ch.cell).voltage)
  {
    hide ReadState;
  }

  lemma StepRemembers(m: Math, c: Cell, current: real, dt: real, ambient: real)
    requires Sound(c.chem) && c.latched == NoError
    ensures var v := Step(m, c, current, dt, ambient);
            v.latched == NoError ==> v.lastCurrent == if c.fault == Dead then 0.0 else current
  {
    hide Grow, DetectCycle, Move;
    StepIs(m, c, current, dt, ambient);
  }

  // ---- Constant current over a run -----------------------------------------------------------------

  ghost predicate TicksOf(es: seq<Tick>, i: nat) {
    forall e | e in es :: e.action.CellTick? && e.action.i == i && e.action.dt > 0.0
  }

  /** The ticks, at that current. */
  function Driving(es: seq<Tick>, i: nat, current: real): seq<Input>
    requires TicksOf(es, i)
    decreases es
  {
    if es == [] then []
    else
      assert es[0] in es && forall e | e in es[1..] :: e in es;
      [Drive(current, es[0].action.dt, es[0].action.ambient)] + Driving(es[1..], i, current)
  }

  lemma {:induction false} LatchedAfter(env: Env, c: Chassis, es: seq<Tick>, i: nat)
    requires Wired(c) && i < |c.chans| && TicksOf(es, i) && c.chans[i].latched != NoError
    ensures ChassisProofs.Run(env, c, es).chans[i].latched != NoError
    decreases es
  {
    hide CellModel.Step;
    if es != [] {
      assert es[0] in es && forall e | e in es[1..] :: e in es;
      StepKeepsWired(env, c, es[0].action, es[0].now);
      LatchedAfter(env, Perform(env, c, es[0].action, es[0].now), es[1..], i);
    }
  }

  /** The cell loop at constant current is the cell's history at the setpoint. */
  lemma {:induction false} LoopIsHistory(env: Env, c: Chassis, es: seq<Tick>, i: nat)
    requires Wired(c) && i < |c.chans| && TicksOf(es, i)
    requires c.chans[i].mode == CC && c.chans[i].latched == NoError
    requires c.chans[i].cell.latched == NoError && ChassisProofs.Run(env, c, es).chans[i].latched == NoError
    ensures var ch, v := c.chans[i], ChassisProofs.Run(env, c, es).chans[i];
            v.cell.latched == NoError && v == ch.(cell := History(env.m, ch.cell, Driving(es, i, ch.setpoint)))
    decreases es
  {
    hide CellModel.Step, ReadState;
    if es != [] {
      assert es[0] in es && forall e | e in es[1..] :: e in es;
      var next := Perform(env, c, es[0].action, es[0].now);
      StepKeepsWired(env, c, es[0].action, es[0].now);
      if next.chans[i].latched != NoError {
        LatchedAfter(env, next, es[1..], i);
      }
      LoopIsHistory(env, next, es[1..], i);
    }
  }

  lemma {:induction false} DrivingDraws(m: Math, c: Cell, es: seq<Tick>, i: nat, current: real)
    requires TicksOf(es, i) && Sound(c.chem) && c.fault != Dead
    requires History(m, c, Driving(es, i, current)).latched == NoError
    ensures ChargeDrawn(m, c, Driving(es, i, current)) == Part(current, Duration(Driving(es, i, current)))
    decreases es
  {
    hide Feed, Part;
    NoPart(current);
    if es != [] {
      assert es[0] in es && forall e | e in es[1..] :: e in es;
      var x := Drive(current, es[0].action.dt, es[0].action.ambient);
      var v := Feed(m, c, x);
      if c.latched != NoError { LatchIsFinal(m, c, Driving(es, i, current)); }
      DriveKeepsFault(m, c, x);
      DrivingDraws(m, v, es[1..], i, current);
      PartSums(current, x.dt, Duration(Driving(es[1..], i, current)));
    }
  }

  lemma DriveKeepsFault(m: Math, c: Cell, x: Input)
    requires Sound(c.chem) && x.Drive?
    ensures Feed(m, c, x).fault == c.fault && Feed(m, c, x).chem == c.chem
  {
    hide NextVrc, NextTemp, DeltaSoc, QEffective;
  }

  /** A channel at constant current takes its setpoint times the time out of its cell, ampere-second by
      ampere-second, for as long as the cell is within its range and nothing latches. */
  lemma ConstantCurrentDraws(env: Env, c: Chassis, es: seq<Tick>, i: nat)
    requires env.m.Lawful() && Wired(c) && i < |c.chans| && TicksOf(es, i)
    requires c.chans[i].mode == CC && c.chans[i].latched == NoError
    requires Paid(c.chans[i].cell) && c.chans[i].cell.fault != Dead
    requires ChassisProofs.Run(env, c, es).chans[i].latched == NoError
    requires c.chans[i].cell.latched == NoError
    requires WithinRange(env.m, c.chans[i].cell, Driving(es, i, c.chans[i].setpoint))
    ensures var ch := c.chans[i];
            var inputs := Driving(es, i, ch.setpoint);
            && ChassisProofs.Run(env, c, es).chans[i].cell == History(env.m, ch.cell, inputs)
            && ChargeGiven(env.m, ch.cell, inputs) == Part(ch.setpoint, Duration(inputs))
  {
    hide Paid, WithinRange, ChassisProofs.Run, History, ChargeGiven, ChargeDrawn, Part;
    var ch := c.chans[i];
    LoopIsHistory(env, c, es, i);
    TicksForward(es, i, ch.setpoint);
    ChargeIsConserved(env.m, ch.cell, Driving(es, i, ch.setpoint));
    DrivingDraws(env.m, ch.cell, es, i, ch.setpoint);
  }

  lemma TicksForward(es: seq<Tick>, i: nat, current: real)
    requires TicksOf(es, i)
    ensures forall x | x in Driving(es, i, current) :: x.Drive? && x.dt > 0.0
    decreases es
  {
    if es != [] {
      assert es[0] in es && forall e | e in es[1..] :: e in es;
      TicksForward(es[1..], i, current);
    }
  }
}
