/** What every step of a chassis keeps, and the latch. */
module ChassisProofs {
  import opened Prelude
  import opened Models
  import opened Chemistry
  import opened Aging
  import opened CellModel
  import opened CellProofs
  import opened CellBand
  import opened Registers
  import opened ChassisModel

  // ---- Cells stay cells of known chemistry ------------------------------------------------------

  lemma CellStepOk(m: Math, c: Cell, i: real, dt: real, ambient: real)
    requires CellOk(c)
    ensures CellOk(CellModel.Step(m, c, i, dt, ambient))
  {
    hide Grow, DetectCycle, NextVrc, NextTemp, DeltaSoc;
    ClampShrinks(c.soc, DeltaSoc(c, Driven(c, i), dt));
    if c.latched == NoError {
      StepIs(m, c, i, dt, ambient);
      DetectLeavesPhysics(m, Move(c, Driven(c, i), dt, ambient), Driven(c, i), dt);
    }
  }

  lemma NewCellOk(chem: Chem)
    requires Known(chem)
    ensures CellOk(NewCell(chem))
  {
    KnownAreSound(chem);
  }

  /** Everything a single register can change, channel by channel. */
  lemma DispatchFrame(f: F32, c: Chassis, addr: nat, now: real)
    requires Wired(c)
    ensures var v := Dispatch(f, c, addr, now);
            && Wired(v) && v.regs == c.regs && |v.chans| == |c.chans|
            && (addr != CHEMISTRY ==> forall i | 0 <= i < |c.chans| :: v.chans[i].cell == c.chans[i].cell)
  {
    if addr == CHEMISTRY {
      match ChemById(At(c.regs, CHEMISTRY))
      case None =>
      case Some(chem) => NewCellOk(chem);
    }
  }

  lemma {:induction false} DispatchAllFrame(f: F32, c: Chassis, addr: nat, n: nat, now: real)
    requires Wired(c)
    ensures var v := DispatchAll(f, c, addr, n, now);
            Wired(v) && v.regs == c.regs && |v.chans| == |c.chans|
    decreases n
  {
    if n > 0 {
      DispatchFrame(f, c, addr, now);
      DispatchAllFrame(f, Dispatch(f, c, addr, now), addr + 1, n - 1, now);
    }
  }

  lemma StepKeepsWired(env: Env, c: Chassis, a: Action, now: real)
    requires Wired(c)
    ensures Wired(Perform(env, c, a, now)) && |Perform(env, c, a, now).chans| == |c.chans|
  {
    match a
    case WriteRegs(addr, values) =>
      DispatchAllFrame(env.f, c.(regs := Store(c.regs, addr, values)), addr, |values|, now);
    case MirrorTick =>
    case CellTick(i, dt, ambient) =>
      if i < |c.chans| {
        hide ReadState;
        var ch := c.chans[i];
        CellStepOk(env.m, ch.cell, DesiredCurrent(ch, ReadState(ch.cell).voltage), dt, ambient);
        CellStepOk(env.m, ch.cell, 0.0, dt, ambient);
      }
    case SafetyTick(i) =>
    case ChassisTick =>
  }

  // ---- The store -----------------------------------------------------------------------------------

  lemma {:induction false} StoreAt(regs: map<int, int>, addr: nat, values: seq<int>, a: int)
    ensures At(Store(regs, addr, values), a)
            == if addr <= a < addr + |values| then values[a - addr] else At(regs, a)
    ensures (forall b | addr <= b < addr + |values| :: b in regs) ==> Store(regs, addr, values).Keys == regs.Keys
    decreases values
  {
    if values != [] {
      StoreAt(regs[addr := values[0]], addr + 1, values[1..], a);
    }
  }

  // ---- The latch is absorbing --------------------------------------------------------------------------

  ghost predicate LatchedIdle(ch: Chan) {
    ch.latched != NoError ==> ch.mode == Idle
  }

  ghost predicate Orderly(c: Chassis) {
    Wired(c) && forall i | 0 <= i < |c.chans| :: LatchedIdle(c.chans[i])
  }

  /** The only way out: a chemistry write that names a known chemistry other than the present one. */
  predicate Swaps(c: Chassis, addr: nat, id: int) {
    addr == CHEMISTRY && c.chans != [] && ChemById(id).Some? && ChemById(id).value != c.chans[0].cell.chem
  }

  predicate SwapsChemistry(c: Chassis, a: Action) {
    && a.WriteRegs?
    && (forall b | a.addr <= b < a.addr + |a.values| :: b in c.regs)
    && a.addr <= CHEMISTRY < a.addr + |a.values|
    && Swaps(c, CHEMISTRY, a.values[CHEMISTRY - a.addr])
  }

  lemma DispatchLatch(f: F32, c: Chassis, addr: nat, now: real, i: nat)
    requires Orderly(c) && i < |c.chans|
    ensures Orderly(Dispatch(f, c, addr, now)) && |Dispatch(f, c, addr, now).chans| == |c.chans|
    ensures var ch, v := c.chans[i], Dispatch(f, c, addr, now).chans[i];
            if Swaps(c, addr, At(c.regs, addr)) then v.latched == NoError && v.mode == Idle
            else v.latched == ch.latched && v.cell == ch.cell
  {
    DispatchFrame(f, c, addr, now);
  }

  lemma {:induction false} DispatchAllLatch(f: F32, c: Chassis, addr: nat, n: nat, now: real, i: nat)
    requires Orderly(c) && i < |c.chans|
    ensures Orderly(DispatchAll(f, c, addr, n, now)) && |DispatchAll(f, c, addr, n, now).chans| == |c.chans|
    ensures var ch, v := c.chans[i], DispatchAll(f, c, addr, n, now).chans[i];
            if addr <= CHEMISTRY < addr + n && Swaps(c, CHEMISTRY, At(c.regs, CHEMISTRY)) then v.latched == NoError
            else v.latched == ch.latched && v.cell == ch.cell
    decreases n
  {
    if n > 0 {
      DispatchLatch(f, c, addr, now, i);
      DispatchLatch(f, c, addr, now, 0);
      DispatchFrame(f, c, addr, now);
      DispatchAllLatch(f, Dispatch(f, c, addr, now), addr + 1, n - 1, now, i);
    }
  }

  lemma WriteLatch(f: F32, c: Chassis, addr: nat, values: seq<int>, now: real, i: nat)
    requires Orderly(c) && i < |c.chans|
    ensures Orderly(Write(f, c, addr, values, now)) && |Write(f, c, addr, values, now).chans| == |c.chans|
    ensures var ch, v := c.chans[i], Write(f, c, addr, values, now).chans[i];
            if SwapsChemistry(c, WriteRegs(addr, values)) then v.latched == NoError
            else v.latched == ch.latched && v.cell == ch.cell
  {
    var stored := c.(regs := Store(c.regs, addr, values));
    StoreAt(c.regs, addr, values, CHEMISTRY);
    DispatchAllLatch(f, stored, addr, |values|, now, i);
  }

  /** One step of anything, seen from a latched channel: it stays latched with its first error
      unless the chemistry is swapped; it is driven at 0 A, and its cell only relaxes. */
  lemma LatchAbsorbs(env: Env, c: Chassis, a: Action, now: real, i: nat)
    requires Orderly(c) && i < |c.chans| && c.chans[i].latched != NoError
    requires a.CellTick? ==> 0.0 < a.dt <= 30.0
    ensures |Perform(env, c, a, now).chans| == |c.chans|
    ensures var ch, v := c.chans[i], Perform(env, c, a, now).chans[i];
            && (v.latched == NoError <==> SwapsChemistry(c, a))
            && (!SwapsChemistry(c, a) ==>
                  && v.latched == ch.latched && v.mode == Idle
                  && (forall voltage: real :: DesiredCurrent(v, voltage) == 0.0)
                  && v.cell.soc == ch.cell.soc && v.cell.age.throughput == ch.cell.age.throughput
                  && Abs(v.cell.vRc) <= Abs(ch.cell.vRc)
                  && (a.CellTick? ==> Abs(v.cell.tempC - a.ambient) <= Abs(ch.cell.tempC - a.ambient))
                  && (!(a.CellTick? && a.i == i) ==> v.cell == ch.cell))
  {
    hide ReadState, CellModel.Step;
    StepKeepsWired(env, c, a, now);
    match a
    case WriteRegs(addr, values) => WriteLatch(env.f, c, addr, values, now, i);
    case CellTick(k, dt, ambient) =>
      if k == i { RestRelaxes(env.m, c.chans[i].cell, dt, ambient); }
    case _ =>
  }

  lemma StepKeepsOrder(env: Env, c: Chassis, a: Action, now: real)
    requires Orderly(c)
    ensures Orderly(Perform(env, c, a, now)) && |Perform(env, c, a, now).chans| == |c.chans|
  {
    StepKeepsWired(env, c, a, now);
    if a.WriteRegs? && c.chans != [] {
      WriteLatch(env.f, c, a.addr, a.values, now, 0);
    }
  }

  // ---- The channel's timer ------------------------------------------------------------------------------

  lemma {:induction false} WriteMovesTimer(f: F32, c: Chassis, addr: nat, n: nat, now: real, i: nat)
    requires Wired(c) && i < |c.chans|
    ensures var v := DispatchAll(f, c, addr, n, now);
            && |v.chans| == |c.chans|
            && (v.chans[i].lastKick == c.chans[i].lastKick || v.chans[i].lastKick == now)
    decreases n
  {
    hide DecodeF32, NewCell;
    if n > 0 {
      DispatchFrame(f, c, addr, now);
      WriteMovesTimer(f, Dispatch(f, c, addr, now), addr + 1, n - 1, now, i);
    }
  }

  /** A register write leaves the channel's timer alone or sets it to its own time; nothing else
      touches it. */
  lemma StepMovesTimer(env: Env, c: Chassis, a: Action, now: real, i: nat)
    requires Wired(c) && i < |c.chans|
    ensures var v := Perform(env, c, a, now);
            && |v.chans| == |c.chans|
            && (v.chans[i].lastKick == c.chans[i].lastKick || (a.WriteRegs? && v.chans[i].lastKick == now))
  {
    hide ReadState, CellModel.Step, DesiredCurrent;
    StepKeepsWired(env, c, a, now);
    if a.WriteRegs? {
      WriteMovesTimer(env.f, c.(regs := Store(c.regs, a.addr, a.values)), a.addr, |a.values|, now, i);
    }
  }

  // ---- Runs -----------------------------------------------------------------------------------------

  /** A step and the wall time it was taken at. */
  datatype Tick = Tick(action: Action, now: real)

  function Run(env: Env, c: Chassis, es: seq<Tick>): (end: Chassis)
    requires Wired(c)
    ensures Wired(end) && |end.chans| == |c.chans|
    decreases es
  {
    if es == [] then c
    else
      StepKeepsWired(env, c, es[0].action, es[0].now);
      Run(env, Perform(env, c, es[0].action, es[0].now), es[1..])
  }

  lemma {:induction false} RunOneMore(env: Env, c: Chassis, es: seq<Tick>, e: Tick)
    requires Wired(c)
    ensures Run(env, c, es + [e]) == Perform(env, Run(env, c, es), e.action, e.now)
    decreases es
  {
    hide Perform;
    if es == [] {
      assert (es + [e])[1..] == [];
      StepKeepsWired(env, c, e.action, e.now);
      assert Run(env, Perform(env, c, e.action, e.now), []) == Perform(env, c, e.action, e.now);
    } else {
      StepKeepsWired(env, c, es[0].action, es[0].now);
      assert (es + [e])[1..] == es[1..] + [e];
      RunOneMore(env, Perform(env, c, es[0].action, es[0].now), es[1..], e);
    }
  }

  /** Somewhere in the run the chemistry is swapped. */
  ghost predicate SwapsIn(env: Env, c: Chassis, es: seq<Tick>)
    requires Wired(c)
    decreases es
  {
    es != [] &&
    (SwapsChemistry(c, es[0].action) ||
     (StepKeepsWired(env, c, es[0].action, es[0].now);
      SwapsIn(env, Perform(env, c, es[0].action, es[0].now), es[1..])))
  }

  /** A latched channel through any run without a chemistry swap: same error, idle, charge and
      throughput frozen, RC voltage no larger, no further from an ambient that stands still. */
  lemma {:induction false} LatchHolds(env: Env, c: Chassis, es: seq<Tick>, i: nat, ambient: real)
    requires Orderly(c) && i < |c.chans| && c.chans[i].latched != NoError
    requires forall e | e in es && e.action.CellTick? :: 0.0 < e.action.dt <= 30.0 && e.action.ambient == ambient
    requires !SwapsIn(env, c, es)
    ensures var ch, v := c.chans[i], Run(env, c, es).chans[i];
            && v.latched == ch.latched && v.mode == Idle
            && v.cell.soc == ch.cell.soc && v.cell.age.throughput == ch.cell.age.throughput
            && Abs(v.cell.vRc) <= Abs(ch.cell.vRc)
            && Abs(v.cell.tempC - ambient) <= Abs(ch.cell.tempC - ambient)
    decreases es
  {
    hide Perform;
    if es != [] {
      var e := es[0];
      assert e in es && forall x | x in es[1..] :: x in es;
      LatchAbsorbs(env, c, e.action, e.now, i);
      StepKeepsOrder(env, c, e.action, e.now);
      LatchHolds(env, Perform(env, c, e.action, e.now), es[1..], i, ambient);
    }
  }

  lemma {:induction false} RunKeepsOrder(env: Env, c: Chassis, es: seq<Tick>)
    requires Orderly(c)
    ensures Orderly(Run(env, c, es))
    decreases es
  {
    if es != [] {
      StepKeepsOrder(env, c, es[0].action, es[0].now);
      RunKeepsOrder(env, Perform(env, c, es[0].action, es[0].now), es[1..]);
    }
  }

  // ---- What single steps are for -----------------------------------------------------------------

  /** The control law: no current unless the channel is unlatched and driven; constant current is
      the setpoint; constant voltage pushes towards the setpoint, harder the further away, up to
      6 A; constant power delivers the setpoint at 1 V and more unless that takes more than 6 A. */
  lemma ControlLaw(ch: Chan, v: real, w: real)
    ensures var i := DesiredCurrent(ch, v);
            && (ch.latched != NoError || ch.mode == Idle || ch.mode == Rest ==> i == 0.0)
            && (ch.latched == NoError && ch.mode == CC ==> i == ch.setpoint)
            && (ch.latched == NoError && ch.mode == CV ==>
                  && -6.0 <= i <= 6.0 && (i > 0.0 <==> v > ch.setpoint) && (i < 0.0 <==> v < ch.setpoint)
                  && (v <= w ==> i <= DesiredCurrent(ch, w))
                  && (-6.0 < i < 6.0 <==> 3.0 * Abs(v - ch.setpoint) < 2.0))
            && (ch.latched == NoError && ch.mode == CP ==>
                  && -6.0 <= i <= 6.0
                  && (i * Max(v, 1.0) == ch.setpoint <==> Abs(ch.setpoint) <= 6.0 * Max(v, 1.0)))
  {
    if ch.latched == NoError && ch.mode == CP {
      var d := Max(v, 1.0);
      var q := ch.setpoint / d;
      assert q * d == ch.setpoint;
      PowerClip(ch.setpoint, d, q);
    }
  }

  lemma PowerClip(p: real, d: real, q: real)
    requires d >= 1.0 && q * d == p
    ensures Limit(q) * d == p <==> Abs(p) <= 6.0 * d
  {
    if q > 6.0 {
      assert (q - 6.0) * d > 0.0;
      assert (q - 6.0) * d == q * d - 6.0 * d;
    } else if q < -6.0 {
      assert (-6.0 - q) * d > 0.0;
      assert (-6.0 - q) * d == -6.0 * d - q * d;
    } else {
      assert (6.0 - q) * d >= 0.0 && (6.0 + q) * d >= 0.0;
      assert (6.0 - q) * d == 6.0 * d - q * d && (6.0 + q) * d == 6.0 * d + q * d;
    }
  }

  /** A safety body leaves a channel unlatched exactly if it was, its reading is within the limits
      in force, its kick is fresh and its cell is sound; a breach is reported as the first of
      voltage, temperature, dead-man and cell, and parks the channel. */
  lemma SafetyBodyExactly(ch: Chan, now: real, threshold: real)
    requires Sound(ch.cell.chem) && ch.latched == NoError
    ensures var v, s := SafetyBody(ch, now, threshold), ReadState(ch.cell);
            var tooHigh, tooHot := Trunc(s.voltage * 1000.0) > ch.vMax, Trunc(s.tempC * 10.0) > ch.tMax;
            var stale := ch.mode != Idle && now - ch.lastKick > threshold;
            && (v.latched == NoError <==> !tooHigh && !tooHot && !stale && s.latched == NoError)
            && (v.latched == NoError ==> v == ch)
            && (v.latched != NoError ==> v.mode == Idle && Undriven(v) && v.cell == ch.cell)
            && (tooHigh ==> v.latched == OverVoltage)
            && (!tooHigh && tooHot ==> v.latched == OverTemp)
            && (!tooHigh && !tooHot && stale ==> v.latched == WatchdogTimeout)
            && (!tooHigh && !tooHot && !stale ==> v.latched == s.latched)
  {
    hide ReadState;
  }

  /** A chassis body reports a stale chassis kick exactly when it finds one, and then halts exactly the
      channels that were driven; it touches no timer and no register. */
  lemma ChassisBodyExactly(env: Env, c: Chassis, now: real, i: nat)
    requires Wired(c) && i < |c.chans|
    ensures var v := Perform(env, c, ChassisTick, now);
            var stale, ch := now - c.kick.last > env.chassisThreshold, c.chans[i];
            && |v.chans| == |c.chans| && v.regs == c.regs && v.kick == Kick(c.kick.last, stale)
            && if stale && ch.mode != Idle && ch.latched == NoError
               then v.chans[i] == ch.(latched := WatchdogTimeout, mode := Idle, setpoint := 0.0)
               else v.chans[i] == ch
  {
  }

  ghost predicate Undriven(ch: Chan) {
    forall voltage: real :: DesiredCurrent(ch, voltage) == 0.0
  }

  /** A kick that reaches the chassis resets that channel's timer and touches nothing else. */
  lemma KickResetsTimer(env: Env, c: Chassis, i: nat, now: real)
    requires Wired(c) && i < |c.chans| <= CHASSIS_BASE / BLOCK && Reg(i, WATCHDOG_KICK) in c.regs
    ensures var v := Perform(env, c, WriteRegs(Reg(i, WATCHDOG_KICK), [1]), now);
            && v.chans == c.chans[i := c.chans[i].(lastKick := now)] && v.kick == c.kick
            && forall b: int | b != Reg(i, WATCHDOG_KICK) :: At(v.regs, b) == At(c.regs, b)
  {
    var a := Reg(i, WATCHDOG_KICK);
    var stored := c.(regs := Store(c.regs, a, [1]));
    forall b { StoreAt(c.regs, a, [1], b); }
    assert a / BLOCK == i && a % BLOCK == WATCHDOG_KICK && a < CHASSIS_BASE;
    assert DispatchAll(env.f, stored, a, 1, now) == Dispatch(env.f, stored, a, now);
  }
}
