/**
 The client's four-write command against a live chassis.  Between the writes anything may
 happen that is not another command for the same channel or a chemistry swap: mirror ticks,
 cell, safety and chassis ticks, kicks, and commands for other channels.
 */
module SendCommand {
  import opened Prelude
  import opened Models
  import opened CellModel
  import opened Registers
  import opened ChassisModel
  import opened ChassisProofs

  datatype Command = Command(mode: Mode, setpoint: real, vMax: int, tMax: int)

  /** The writes, in the order they are sent: setpoint, limits, mode. */
  function WriteNo(f: F32, i: nat, cmd: Command, k: nat): Action {
    if k == 0 then WriteRegs(Reg(i, SETPOINT_HI), [EncodeHi(f, cmd.setpoint), EncodeLo(f, cmd.setpoint)])
    else if k == 1 then WriteRegs(Reg(i, SAFETY_V_MAX_MV), [cmd.vMax])
    else if k == 2 then WriteRegs(Reg(i, SAFETY_T_MAX_DC), [cmd.tMax])
    else WriteRegs(Reg(i, MODE), [ModeWord(cmd.mode)])
  }

  predicate IsCommandRegister(i: nat, a: nat) {
    a / BLOCK == i && IsCommandOffset(a % BLOCK)
  }

  /** Neither a command for channel i nor a chemistry swap can start from this register. */
  predicate Elsewhere(i: nat, a: nat) {
    a != CHEMISTRY && !IsCommandRegister(i, a)
  }

  /** Anything but a command for channel i or a write to the chemistry register. */
  predicate Noise(i: nat, a: Action) {
    a.WriteRegs? ==>
      forall b | a.addr <= b < a.addr + |a.values| :: Elsewhere(i, b)
  }

  /** The run is noise with the writes from number k on, up to but not including number `upTo`. */
  predicate Follows(f: F32, es: seq<Tick>, i: nat, cmd: Command, k: nat, upTo: nat)
    decreases es
  {
    if es == [] then k == upTo
    else
      || (k < 4 && es[0].action == WriteNo(f, i, cmd, k) && Follows(f, es[1..], i, cmd, k + 1, upTo))
      || (Noise(i, es[0].action) && Follows(f, es[1..], i, cmd, k, upTo))
  }

  // ---- What matters to a command: the channel's command state and its registers ------------------

  datatype Desk = Desk(
    mode: Mode, sp: real, vMax: int, tMax: int, latched: Error,
    rMode: int, rSp: real, rV: int, rT: int)

  function DeskOf(f: F32, c: Chassis, i: nat): Desk
    requires i < |c.chans|
  {
    var ch := c.chans[i];
    Desk(ch.mode, ch.setpoint, ch.vMax, ch.tMax, ch.latched,
         At(c.regs, Reg(i, MODE)),
         DecodeF32(f, At(c.regs, Reg(i, SETPOINT_HI)), At(c.regs, Reg(i, SETPOINT_LO))),
         At(c.regs, Reg(i, SAFETY_V_MAX_MV)), At(c.regs, Reg(i, SAFETY_T_MAX_DC)))
  }

  /** The channel acts on its registers. */
  function Applied(d: Desk): Desk {
    if d.latched != NoError && WordMode(d.rMode) != Idle then d
    else if && d.mode == WordMode(d.rMode) && Abs(d.sp - d.rSp) <= TOLERANCE
            && d.vMax == d.rV && d.tMax == d.rT then d
    else d.(mode := WordMode(d.rMode), sp := d.rSp, vMax := d.rV, tMax := d.rT)
  }

  function Written(f: F32, d: Desk, cmd: Command, k: nat): Desk {
    if k == 0 then Applied(Applied(d.(rSp := f.Round(cmd.setpoint))))
    else if k == 1 then Applied(d.(rV := cmd.vMax))
    else if k == 2 then Applied(d.(rT := cmd.tMax))
    else Applied(d.(rMode := ModeWord(cmd.mode)))
  }

  function MirroredDesk(f: F32, d: Desk): Desk {
    d.(rMode := ModeWord(d.mode), rSp := f.Round(d.sp))
  }

  predicate HaltedFrom(d: Desk, v: Desk) {
    v.latched != NoError && v == d.(mode := Idle, sp := 0.0, latched := v.latched)
  }

  /** Channel i exists and its whole block is in the store. */
  ghost predicate Ready(c: Chassis, i: nat) {
    && Orderly(c) && |c.chans| <= CHASSIS_BASE / BLOCK && i < |c.chans|
    && forall offset | 0 <= offset < BLOCK :: Reg(i, offset) in c.regs
  }

  lemma KeysStay(env: Env, c: Chassis, a: Action, now: real)
    requires Wired(c)
    ensures Perform(env, c, a, now).regs.Keys == c.regs.Keys
  {
    hide ReadState, CellModel.Step;
    match a
    case WriteRegs(addr, values) =>
      StoreAt(c.regs, addr, values, addr);
      DispatchAllFrame(env.f, c.(regs := Store(c.regs, addr, values)), addr, |values|, now);
    case _ =>
  }

  lemma ReadyStays(env: Env, c: Chassis, a: Action, now: real, i: nat)
    requires Ready(c, i)
    ensures Ready(Perform(env, c, a, now), i)
  {
    hide Perform;
    StepKeepsOrder(env, c, a, now);
    KeysStay(env, c, a, now);
    assert forall offset | 0 <= offset < BLOCK :: Reg(i, offset) in c.regs.Keys;
  }

  // ---- Each step, seen from the desk ------------------------------------------------------------

  lemma NoisyDispatch(f: F32, c: Chassis, addr: nat, now: real, i: nat)
    requires Ready(c, i) && Elsewhere(i, addr)
    ensures Ready(Dispatch(f, c, addr, now), i)
    ensures DeskOf(f, Dispatch(f, c, addr, now), i) == DeskOf(f, c, i)
  {
    hide DecodeF32;
    DispatchLatch(f, c, addr, now, i);
    DispatchFrame(f, c, addr, now);
  }

  lemma {:induction false} NoisyDispatches(f: F32, c: Chassis, addr: nat, n: nat, now: real, i: nat)
    requires Ready(c, i) && forall b | addr <= b < addr + n :: Elsewhere(i, b)
    ensures i < |DispatchAll(f, c, addr, n, now).chans|
    ensures DeskOf(f, DispatchAll(f, c, addr, n, now), i) == DeskOf(f, c, i)
    decreases n
  {
    hide DeskOf, Dispatch;
    if n > 0 {
      NoisyDispatch(f, c, addr, now, i);
      NoisyDispatches(f, Dispatch(f, c, addr, now), addr + 1, n - 1, now, i);
    }
  }

  lemma StoreReady(c: Chassis, addr: nat, values: seq<int>, i: nat)
    requires Ready(c, i) && forall b | addr <= b < addr + |values| :: b in c.regs
    ensures Ready(c.(regs := Store(c.regs, addr, values)), i)
  {
    StoreAt(c.regs, addr, values, 0);
    assert forall offset | 0 <= offset < BLOCK :: Reg(i, offset) in c.regs.Keys;
  }

  lemma NoisyStore(f: F32, c: Chassis, addr: nat, values: seq<int>, i: nat)
    requires Ready(c, i)
    requires forall b | addr <= b < addr + |values| :: Elsewhere(i, b) && b in c.regs
    ensures var v := c.(regs := Store(c.regs, addr, values)); Ready(v, i) && DeskOf(f, v, i) == DeskOf(f, c, i)
  {
    hide DecodeF32;
    forall offset | 0 <= offset < BLOCK && IsCommandOffset(offset)
      ensures At(Store(c.regs, addr, values), Reg(i, offset)) == At(c.regs, Reg(i, offset))
    {
      StoreAt(c.regs, addr, values, Reg(i, offset));
      assert !Elsewhere(i, Reg(i, offset));
    }
    StoreReady(c, addr, values, i);
  }

  lemma MirrorDesk(f: F32, c: Chassis, i: nat)
    requires Ready(c, i) && f.Lawful()
    ensures DeskOf(f, Mirror(f, c), i) == MirroredDesk(f, DeskOf(f, c, i))
  {
    hide ReadState, DecodeF32, EncodeHi, EncodeLo, U16Clamp, ToInt16, F32.Round;
    var ch := c.chans[i];
    SetpointWords(f, ch.setpoint, 0, 0);
    forall offset | 0 <= offset < BLOCK
      ensures At(Mirror(f, c).regs, Reg(i, offset))
              == match Mirrored(f, ch, offset) case Some(w) => w case None => At(c.regs, Reg(i, offset))
    {
      assert Reg(i, offset) / BLOCK == i && Reg(i, offset) % BLOCK == offset && Reg(i, offset) < CHASSIS_BASE;
    }
  }

  /** Noise leaves the desk alone, mirrors the channel into the registers, or halts the channel. */
  lemma NoiseMoves(env: Env, c: Chassis, a: Action, now: real, i: nat)
    requires Ready(c, i) && env.f.Lawful() && Noise(i, a)
    ensures Ready(Perform(env, c, a, now), i)
    ensures var d, v := DeskOf(env.f, c, i), DeskOf(env.f, Perform(env, c, a, now), i);
            v == d || v == MirroredDesk(env.f, d) || HaltedFrom(d, v)
  {
    hide DecodeF32, F32.Round, DispatchAll, Store, SafetyBody, CellBody, ChassisTrip, Ready, Mirror;
    ReadyStays(env, c, a, now, i);
    ReadyIsWired(c, i);
    match a
    case WriteRegs(addr, values) =>
      if forall b | addr <= b < addr + |values| :: b in c.regs {
        NoisyStore(env.f, c, addr, values, i);
        NoisyDispatches(env.f, c.(regs := Store(c.regs, addr, values)), addr, |values|, now, i);
      }
    case MirrorTick => MirrorDesk(env.f, c, i);
    case _ =>
      TickMoves(env, c, a, now, i);
  }

  /** A tick of the loops leaves the registers alone and parks a channel or leaves its command. */
  lemma TickMoves(env: Env, c: Chassis, a: Action, now: real, i: nat)
    requires Wired(c) && i < |c.chans| && !a.WriteRegs? && !a.MirrorTick?
    ensures var d, v := DeskOf(env.f, c, i), Perform(env, c, a, now);
            && |v.chans| == |c.chans| && (DeskOf(env.f, v, i) == d || HaltedFrom(d, DeskOf(env.f, v, i)))
  {
    hide ReadState, CellModel.Step, DecodeF32, DesiredCurrent;
  }

  /** What the registers command.  An unlatched channel has it in force afterwards, a latched one only
      if it is idle; a command that is in force already changes nothing, and one that changes anything
      feeds the dead-man.  Cell, latch and cycle index are never touched. */
  lemma CommandTakesEffect(f: F32, c: Chassis, offset: nat, now: real, i: nat)
    requires Ready(c, i) && IsCommandOffset(offset)
    ensures i < |Dispatch(f, c, Reg(i, offset), now).chans|
    ensures var ch, v := c.chans[i], Dispatch(f, c, Reg(i, offset), now).chans[i];
            var mode, vMax := WordMode(At(c.regs, Reg(i, MODE))), At(c.regs, Reg(i, SAFETY_V_MAX_MV));
            var tMax := At(c.regs, Reg(i, SAFETY_T_MAX_DC));
            var sp := DecodeF32(f, At(c.regs, Reg(i, SETPOINT_HI)), At(c.regs, Reg(i, SETPOINT_LO)));
            && (ch.latched == NoError || mode == Idle ==>
                  v.mode == mode && Abs(v.setpoint - sp) <= TOLERANCE && v.vMax == vMax && v.tMax == tMax)
            && (ch.latched != NoError && mode != Idle ==> v == ch)
            && (ch.mode == mode && Abs(ch.setpoint - sp) <= TOLERANCE && ch.vMax == vMax && ch.tMax == tMax ==> v == ch)
            && (v != ch ==> v.setpoint == sp && v.lastKick == now)
            && v.cell == ch.cell && v.latched == ch.latched && v.cycleIndex == ch.cycleIndex
  {
    hide DecodeF32;
    assert Reg(i, offset) / BLOCK == i && Reg(i, offset) % BLOCK == offset && Reg(i, offset) < CHASSIS_BASE;
  }

  lemma AppliedIs(f: F32, c: Chassis, offset: nat, now: real, i: nat)
    requires Ready(c, i) && IsCommandOffset(offset)
    ensures i < |Dispatch(f, c, Reg(i, offset), now).chans| && Ready(Dispatch(f, c, Reg(i, offset), now), i)
    ensures DeskOf(f, Dispatch(f, c, Reg(i, offset), now), i) == Applied(DeskOf(f, c, i))
  {
    hide DecodeF32;
    assert Reg(i, offset) / BLOCK == i && Reg(i, offset) % BLOCK == offset && Reg(i, offset) < CHASSIS_BASE;
    DispatchLatch(f, c, Reg(i, offset), now, i);
    DispatchFrame(f, c, Reg(i, offset), now);
  }

  lemma WriteMoves(env: Env, c: Chassis, cmd: Command, k: nat, now: real, i: nat)
    requires Ready(c, i) && env.f.Lawful() && k < 4
    ensures Ready(Perform(env, c, WriteNo(env.f, i, cmd, k), now), i)
    ensures DeskOf(env.f, Perform(env, c, WriteNo(env.f, i, cmd, k), now), i)
            == Written(env.f, DeskOf(env.f, c, i), cmd, k)
  {
    ReadyStays(env, c, WriteNo(env.f, i, cmd, k), now, i);
    if k == 0 {
      SetpointWrite(env.f, c, cmd, now, i);
    } else if k == 1 {
      SingleWrite(env.f, c, SAFETY_V_MAX_MV, cmd.vMax, now, i);
    } else if k == 2 {
      SingleWrite(env.f, c, SAFETY_T_MAX_DC, cmd.tMax, now, i);
    } else {
      SingleWrite(env.f, c, MODE, ModeWord(cmd.mode), now, i);
    }
  }

  function Stored(d: Desk, offset: int, w: int): Desk {
    if offset == MODE then d.(rMode := w) else if offset == SAFETY_V_MAX_MV then d.(rV := w) else d.(rT := w)
  }

  lemma SingleWrite(f: F32, c: Chassis, offset: nat, w: int, now: real, i: nat)
    requires Ready(c, i) && offset in {MODE, SAFETY_V_MAX_MV, SAFETY_T_MAX_DC}
    ensures i < |Write(f, c, Reg(i, offset), [w], now).chans|
    ensures DeskOf(f, Write(f, c, Reg(i, offset), [w], now), i) == Applied(Stored(DeskOf(f, c, i), offset, w))
  {
    hide DecodeF32, Dispatch;
    var v := c.(regs := Store(c.regs, Reg(i, offset), [w]));
    StoreReady(c, Reg(i, offset), [w], i);
    forall b { StoreAt(c.regs, Reg(i, offset), [w], b); }
    AppliedIs(f, v, offset, now, i);
    assert DispatchAll(f, v, Reg(i, offset), 1, now) == Dispatch(f, v, Reg(i, offset), now);
  }

  lemma SetpointWrite(f: F32, c: Chassis, cmd: Command, now: real, i: nat)
    requires Ready(c, i) && f.Lawful()
    ensures var v := Write(f, c, Reg(i, SETPOINT_HI), [EncodeHi(f, cmd.setpoint), EncodeLo(f, cmd.setpoint)], now);
            i < |v.chans| && DeskOf(f, v, i) == Written(f, DeskOf(f, c, i), cmd, 0)
  {
    hide DecodeF32, Dispatch, EncodeHi, EncodeLo, F32.Round;
    var words := [EncodeHi(f, cmd.setpoint), EncodeLo(f, cmd.setpoint)];
    var addr := Reg(i, SETPOINT_HI);
    var v := c.(regs := Store(c.regs, addr, words));
    assert Reg(i, SETPOINT_HI) in c.regs && Reg(i, SETPOINT_LO) in c.regs;
    StoreReady(c, addr, words, i);
    forall b { StoreAt(c.regs, addr, words, b); }
    SetpointWords(f, cmd.setpoint, 0, 0);
    AppliedIs(f, v, SETPOINT_HI, now, i);
    var half := Dispatch(f, v, addr, now);
    AppliedIs(f, half, SETPOINT_LO, now, i);
    assert DispatchAll(f, half, addr + 1, 1, now) == Dispatch(f, half, addr + 1, now);
    assert DispatchAll(f, v, addr, 2, now) == DispatchAll(f, half, addr + 1, 1, now);
  }

  // ---- The writes alone --------------------------------------------------------------------------

  /** The four writes at the times they are handled. */
  function Burst(f: F32, i: nat, cmd: Command, at: nat -> real, n: nat): (es: seq<Tick>)
    ensures |es| == n && forall k | 0 <= k < n :: es[k] == Tick(WriteNo(f, i, cmd, k), at(k))
  {
    seq(n, k requires 0 <= k < n => Tick(WriteNo(f, i, cmd, k), at(k)))
  }

  lemma {:induction false} BurstFollows(f: F32, es: seq<Tick>, i: nat, cmd: Command, k: nat, n: nat)
    requires k <= n <= 4 && |es| == n - k
    requires forall j | 0 <= j < |es| :: es[j].action == WriteNo(f, i, cmd, k + j)
    ensures Follows(f, es, i, cmd, k, n)
    decreases n - k
  {
    hide WriteNo;
    if k < n {
      BurstFollows(f, es[1..], i, cmd, k + 1, n);
    }
  }

  function WrittenAll(f: F32, d: Desk, cmd: Command, n: nat): Desk {
    if n == 0 then d else Written(f, WrittenAll(f, d, cmd, n - 1), cmd, n - 1)
  }

  lemma {:induction false} BurstMoves(env: Env, c: Chassis, i: nat, cmd: Command, at: nat -> real, n: nat)
    requires Ready(c, i) && env.f.Lawful() && n <= 4
    ensures var v := Run(env, c, Burst(env.f, i, cmd, at, n));
            Ready(v, i) && DeskOf(env.f, v, i) == WrittenAll(env.f, DeskOf(env.f, c, i), cmd, n)
    decreases n
  {
    hide Ready, Written, WriteNo, DeskOf, Perform;
    if n > 0 {
      BurstMoves(env, c, i, cmd, at, n - 1);
      var before := Burst(env.f, i, cmd, at, n - 1);
      var e := Tick(WriteNo(env.f, i, cmd, n - 1), at(n - 1));
      assert Burst(env.f, i, cmd, at, n) == before + [e];
      ReadyIsWired(c, i);
      RunOneMore(env, c, before, e);
      WriteMoves(env, Run(env, c, before), cmd, n - 1, at(n - 1), i);
    }
  }

  lemma ReadyIsWired(c: Chassis, i: nat)
    requires Ready(c, i)
    ensures Wired(c) && i < |c.chans|
  {
  }

  // ---- One atomic command -------------------------------------------------------------------------

  /** After k writes: what has been sent is in force, and the registers agree with it. */
  ghost predicate Reached(f: F32, d: Desk, cmd: Command, k: nat) {
    var goal := f.Round(cmd.setpoint);
    && f.Round(d.sp) == d.sp && f.Round(d.rSp) == d.rSp
    && (k >= 1 ==> Abs(d.sp - goal) <= TOLERANCE && (d.rSp == goal || d.rSp == d.sp))
    && (k >= 2 ==> d.vMax == d.rV == cmd.vMax)
    && (k >= 3 ==> d.tMax == d.rT == cmd.tMax)
    && (k >= 4 ==> d.mode == cmd.mode && d.rMode == ModeWord(cmd.mode))
  }

  lemma WriteAdvances(f: F32, d: Desk, cmd: Command, k: nat)
    requires f.Lawful() && k < 4 && d.latched == NoError && Reached(f, d, cmd, k)
    ensures Reached(f, Written(f, d, cmd, k), cmd, k + 1) && Written(f, d, cmd, k).latched == NoError
  {
    hide F32.Round;
    SetpointWords(f, cmd.setpoint, 0, 0);
  }

  lemma NoiseKeepsReached(f: F32, d: Desk, cmd: Command, k: nat)
    requires Reached(f, d, cmd, k)
    ensures Reached(f, MirroredDesk(f, d), cmd, k)
  {
    hide F32.Round;
  }

  /** A latched channel stays latched whatever the client and the noise do. */
  lemma {:induction false} StaysLatched(env: Env, c: Chassis, es: seq<Tick>, i: nat, cmd: Command, k: nat, upTo: nat)
    requires Ready(c, i) && env.f.Lawful() && Follows(env.f, es, i, cmd, k, upTo)
    requires c.chans[i].latched != NoError
    ensures Run(env, c, es).chans[i].latched != NoError
    decreases es
  {
    hide Perform, WriteNo, Noise, MirroredDesk;
    if es != [] {
      var e := es[0];
      var next := Perform(env, c, e.action, e.now);
      if Noise(i, e.action) && Follows(env.f, es[1..], i, cmd, k, upTo) {
        NoiseMoves(env, c, e.action, e.now, i);
        LatchSurvives(env.f, DeskOf(env.f, c, i), DeskOf(env.f, next, i), cmd, k);
        StaysLatched(env, next, es[1..], i, cmd, k, upTo);
      } else {
        WriteMoves(env, c, cmd, k, e.now, i);
        LatchSurvives(env.f, DeskOf(env.f, c, i), DeskOf(env.f, next, i), cmd, k);
        StaysLatched(env, next, es[1..], i, cmd, k + 1, upTo);
      }
    }
  }

  lemma LatchSurvives(f: F32, d: Desk, v: Desk, cmd: Command, k: nat)
    requires v == d || v == MirroredDesk(f, d) || HaltedFrom(d, v) || v == Written(f, d, cmd, k)
    requires d.latched != NoError
    ensures v.latched != NoError
  {
    hide F32.Round;
  }

  /** The four writes refine one atomic command: if the channel is unlatched at the end, then
      whatever was interleaved, everything sent so far is in force. */
  lemma {:induction false} SendRefinesCommand(env: Env, c: Chassis, es: seq<Tick>, i: nat, cmd: Command,
                                              k: nat, upTo: nat)
    requires Ready(c, i) && env.f.Lawful() && Follows(env.f, es, i, cmd, k, upTo)
    requires Reached(env.f, DeskOf(env.f, c, i), cmd, k)
    requires Run(env, c, es).chans[i].latched == NoError
    ensures Reached(env.f, DeskOf(env.f, Run(env, c, es), i), cmd, upTo)
    decreases es
  {
    hide Perform, WriteNo, Noise, Reached, MirroredDesk, Written;
    if c.chans[i].latched != NoError {
      StaysLatched(env, c, es, i, cmd, k, upTo);
    } else if es != [] {
      var e := es[0];
      var next := Perform(env, c, e.action, e.now);
      var d, v := DeskOf(env.f, c, i), DeskOf(env.f, next, i);
      if Noise(i, e.action) && Follows(env.f, es[1..], i, cmd, k, upTo) {
        NoiseMoves(env, c, e.action, e.now, i);
        if v.latched != NoError {
          StaysLatched(env, next, es[1..], i, cmd, k, upTo);
        } else {
          NoiseKeepsReached(env.f, d, cmd, k);
          SendRefinesCommand(env, next, es[1..], i, cmd, k, upTo);
        }
      } else {
        WriteMoves(env, c, cmd, k, e.now, i);
        WriteAdvances(env.f, d, cmd, k);
        SendRefinesCommand(env, next, es[1..], i, cmd, k + 1, upTo);
      }
    }
  }

  // ---- Setpoints are always binary32 values ------------------------------------------------------

  ghost predicate Representable(f: F32, c: Chassis) {
    forall i | 0 <= i < |c.chans| :: f.Round(c.chans[i].setpoint) == c.chans[i].setpoint
  }

  lemma DispatchKeepsRepresentable(f: F32, c: Chassis, addr: nat, now: real)
    requires f.Lawful() && Representable(f, c)
    ensures Representable(f, Dispatch(f, c, addr, now)) && Dispatch(f, c, addr, now).regs == c.regs
  {
    hide DecodeF32;
    assert f.Round(0.0) == 0.0;
    var i := addr / BLOCK;
    SetpointWords(f, 0.0, At(c.regs, Reg(i, SETPOINT_HI)), At(c.regs, Reg(i, SETPOINT_LO)));
  }

  lemma {:induction false} DispatchAllKeepsRepresentable(f: F32, c: Chassis, addr: nat, n: nat, now: real)
    requires f.Lawful() && Representable(f, c)
    ensures Representable(f, DispatchAll(f, c, addr, n, now))
    decreases n
  {
    hide Dispatch;
    if n > 0 {
      DispatchKeepsRepresentable(f, c, addr, now);
      DispatchAllKeepsRepresentable(f, Dispatch(f, c, addr, now), addr + 1, n - 1, now);
    }
  }

  lemma StepKeepsRepresentable(env: Env, c: Chassis, a: Action, now: real)
    requires Wired(c) && env.f.Lawful() && Representable(env.f, c)
    ensures Representable(env.f, Perform(env, c, a, now))
  {
    hide ReadState, CellModel.Step;
    assert env.f.Round(0.0) == 0.0;
    match a
    case WriteRegs(addr, values) =>
      DispatchAllKeepsRepresentable(env.f, c.(regs := Store(c.regs, addr, values)), addr, |values|, now);
    case _ =>
  }

  /** At the start only the setpoint has to be a binary32 value, which it always is. */
  lemma ReachedAtStart(f: F32, c: Chassis, i: nat, cmd: Command)
    requires f.Lawful() && i < |c.chans| && Representable(f, c)
    ensures Reached(f, DeskOf(f, c, i), cmd, 0)
  {
    SetpointWords(f, 0.0, At(c.regs, Reg(i, SETPOINT_HI)), At(c.regs, Reg(i, SETPOINT_LO)));
  }

  // ---- Repeats and neighbours ----------------------------------------------------------------------

  lemma NoOpDispatch(f: F32, c: Chassis, offset: nat, now: real, i: nat)
    requires Ready(c, i) && IsCommandOffset(offset)
    requires var d := DeskOf(f, c, i);
             && d.mode == WordMode(d.rMode) && Abs(d.sp - d.rSp) <= TOLERANCE
             && d.vMax == d.rV && d.tMax == d.rT
    ensures Dispatch(f, c, Reg(i, offset), now) == c
  {
    hide DecodeF32;
    assert Reg(i, offset) / BLOCK == i && Reg(i, offset) % BLOCK == offset && Reg(i, offset) < CHASSIS_BASE;
    assert c.chans[i := c.chans[i]] == c.chans;
  }

  /** Sending a command again, write by write, changes no channel in any way. */
  lemma RepeatIsNoOp(env: Env, c: Chassis, cmd: Command, k: nat, now: real, i: nat)
    requires Ready(c, i) && env.f.Lawful() && k < 4
    requires c.chans[i].latched == NoError && Reached(env.f, DeskOf(env.f, c, i), cmd, 4)
    ensures Perform(env, c, WriteNo(env.f, i, cmd, k), now).chans == c.chans
    ensures Reached(env.f, DeskOf(env.f, Perform(env, c, WriteNo(env.f, i, cmd, k), now), i), cmd, 4)
  {
    hide DecodeF32, EncodeHi, EncodeLo, F32.Round, Dispatch;
    var f := env.f;
    var w := WriteNo(f, i, cmd, k);
    assert forall o | o in {MODE, SETPOINT_HI, SETPOINT_LO, SAFETY_V_MAX_MV, SAFETY_T_MAX_DC} :: Reg(i, o) in c.regs;
    StoreReady(c, w.addr, w.values, i);
    var v := c.(regs := Store(c.regs, w.addr, w.values));
    forall b { StoreAt(c.regs, w.addr, w.values, b); }
    SetpointWords(f, cmd.setpoint, 0, 0);
    if k == 0 {
      NoOpDispatch(f, v, SETPOINT_HI, now, i);
      NoOpDispatch(f, v, SETPOINT_LO, now, i);
      assert DispatchAll(f, v, Reg(i, SETPOINT_LO), 1, now) == v;
    } else {
      NoOpDispatch(f, v, if k == 1 then SAFETY_V_MAX_MV else if k == 2 then SAFETY_T_MAX_DC else MODE, now, i);
      assert DispatchAll(f, v, w.addr, 1, now) == v;
    }
    assert Perform(env, c, w, now) == v;
  }

  lemma NeighbourDispatch(f: F32, c: Chassis, offset: nat, now: real, i: nat)
    requires Ready(c, i) && IsCommandOffset(offset)
    ensures var v := Dispatch(f, c, Reg(i, offset), now);
            && v.regs == c.regs && v.kick == c.kick && |v.chans| == |c.chans|
            && forall j | 0 <= j < |c.chans| && j != i :: v.chans[j] == c.chans[j]
  {
    hide DecodeF32;
    assert Reg(i, offset) / BLOCK == i && Reg(i, offset) % BLOCK == offset && Reg(i, offset) < CHASSIS_BASE;
  }

  /** A command for channel i touches no other channel and no register outside its block. */
  lemma NeighboursUntouched(env: Env, c: Chassis, cmd: Command, k: nat, now: real, i: nat)
    requires Ready(c, i) && k < 4
    ensures var v := Perform(env, c, WriteNo(env.f, i, cmd, k), now);
            && |v.chans| == |c.chans| && v.kick == c.kick
            && (forall j | 0 <= j < |c.chans| && j != i :: v.chans[j] == c.chans[j])
            && (forall b: nat | b / BLOCK != i :: At(v.regs, b) == At(c.regs, b))
  {
    hide DecodeF32, EncodeHi, EncodeLo, Dispatch;
    var f := env.f;
    var w := WriteNo(f, i, cmd, k);
    assert forall o | o in {MODE, SETPOINT_HI, SETPOINT_LO, SAFETY_V_MAX_MV, SAFETY_T_MAX_DC} :: Reg(i, o) in c.regs;
    StoreReady(c, w.addr, w.values, i);
    var v := c.(regs := Store(c.regs, w.addr, w.values));
    forall b { StoreAt(c.regs, w.addr, w.values, b); }
    if k == 0 {
      NeighbourDispatch(f, v, SETPOINT_HI, now, i);
      AppliedIs(f, v, SETPOINT_HI, now, i);
      var half := Dispatch(f, v, Reg(i, SETPOINT_HI), now);
      NeighbourDispatch(f, half, SETPOINT_LO, now, i);
      assert DispatchAll(f, half, Reg(i, SETPOINT_LO), 1, now) == Dispatch(f, half, Reg(i, SETPOINT_LO), now);
      assert DispatchAll(f, v, w.addr, 2, now) == DispatchAll(f, half, Reg(i, SETPOINT_LO), 1, now);
    } else {
      NeighbourDispatch(f, v, if k == 1 then SAFETY_V_MAX_MV else if k == 2 then SAFETY_T_MAX_DC else MODE, now, i);
      assert DispatchAll(f, v, w.addr, 1, now) == Dispatch(f, v, w.addr, now);
    }
  }
}
