/** What a client reads back: the mirror packs live state into words, the client unpacks them. */
module Snapshot {
  import opened Prelude
  import opened Models
  import opened CellModel
  import opened CellBand
  import opened Registers
  import opened ChassisModel
  import opened ChassisProofs
  import opened SendCommand

  datatype ChannelSnapshot = ChannelSnapshot(
    mode: Mode, setpoint: real, voltage: real, current: real, tempC: real, soc: real,
    lastError: Error, cycleCount: int)

  /** One read covers the whole block; it fails if a register is missing. */
  function ReadChannel(f: F32, regs: map<int, int>, i: nat): Option<ChannelSnapshot> {
    if forall offset | 0 <= offset < BLOCK :: Reg(i, offset) in regs then
      Some(ChannelSnapshot(
        WordMode(At(regs, Reg(i, MODE))),
        DecodeF32(f, At(regs, Reg(i, SETPOINT_HI)), At(regs, Reg(i, SETPOINT_LO))),
        At(regs, Reg(i, VOLTAGE_MV)) as real / 1000.0,
        FromInt16(At(regs, Reg(i, CURRENT_MA))) as real / 1000.0,
        At(regs, Reg(i, TEMP_DC)) as real / 10.0,
        At(regs, Reg(i, SOC_PCTH)) as real / 10000.0,
        WordError(At(regs, Reg(i, LAST_ERROR))),
        At(regs, Reg(i, CYCLE_COUNT))))
    else None
  }

  lemma MirroredAt(f: F32, c: Chassis, i: nat, offset: nat)
    requires Ready(c, i) && offset < BLOCK
    ensures At(Mirror(f, c).regs, Reg(i, offset))
            == match Mirrored(f, c.chans[i], offset) case Some(w) => w case None => At(c.regs, Reg(i, offset))
  {
    hide ReadState, U16Clamp, ToInt16, EncodeHi, EncodeLo;
    assert Reg(i, offset) / BLOCK == i && Reg(i, offset) % BLOCK == offset && Reg(i, offset) < CHASSIS_BASE;
  }

  lemma BlockStays(f: F32, c: Chassis, i: nat)
    requires Ready(c, i)
    ensures ReadChannel(f, Mirror(f, c).regs, i).Some?
  {
    hide MirrorWord, DecodeF32, FromInt16;
    assert Mirror(f, c).regs.Keys == c.regs.Keys;
    assert forall offset | 0 <= offset < BLOCK :: Reg(i, offset) in c.regs.Keys;
  }

  /** A read after a mirror tick: mode, setpoint and error exact; each measured quantity within
      one quantum exactly when it lies in the range of its register; the cycle index capped. */
  lemma ReadAfterMirror(f: F32, c: Chassis, i: nat)
    requires Ready(c, i) && f.Lawful()
    ensures var read := ReadChannel(f, Mirror(f, c).regs, i);
            && read.Some?
            && var r, ch, s := read.value, c.chans[i], ReadState(c.chans[i].cell);
            && r.mode == ch.mode && r.lastError == ch.latched && r.setpoint == f.Round(ch.setpoint)
            && (Abs(r.voltage - s.voltage) < 0.001 <==> -0.001 < s.voltage < 65.536)
            && (Abs(r.current - s.current) < 0.001 <==> -32.769 < s.current < 32.768)
            && (Abs(r.tempC - s.tempC) < 0.1 <==> -0.1 < s.tempC < 6553.6)
            && (s.tempC <= 0.0 ==> r.tempC == 0.0)
            && Abs(r.soc - s.soc) < 0.0001
            && r.cycleCount == if ch.cycleIndex < 0 then 0 else if ch.cycleIndex > 0xFFFF then 0xFFFF else ch.cycleIndex
  {
    hide ReadState, U16Clamp, ToInt16, FromInt16, EncodeHi, EncodeLo, DecodeF32, F32.Round, Mirror;
    var ch := c.chans[i];
    var s := ReadState(ch.cell);
    BlockStays(f, c, i);
    SocIsRead(ch.cell);
    SetpointWords(f, ch.setpoint, 0, 0);
    UnsignedReadback(s.voltage * 1000.0);
    SignedReadback(s.current * 1000.0);
    UnsignedReadback(s.tempC * 10.0);
    UnsignedReadback(s.soc * 10000.0);
    CountIs(ch.cycleIndex);
    forall offset | 0 <= offset < BLOCK
      ensures At(Mirror(f, c).regs, Reg(i, offset))
              == match Mirrored(f, ch, offset) case Some(w) => w case None => At(c.regs, Reg(i, offset))
    {
      MirroredAt(f, c, i, offset);
    }
  }

  /** The registers that no channel read decodes: health within one quantum, the channel's dead-man
      status, and the chassis' own. */
  lemma StatusAfterMirror(f: F32, c: Chassis, i: nat)
    requires Ready(c, i) && CHASSIS_WATCHDOG_STATUS in c.regs
    ensures var regs, ch := Mirror(f, c).regs, c.chans[i];
            && Abs(At(regs, Reg(i, SOH_PCTH)) as real / 10000.0 - ReadState(ch.cell).soh) < 0.0001
            && At(regs, Reg(i, WATCHDOG_STATUS)) == (if ch.latched == WatchdogTimeout then 1 else 0)
            && At(regs, CHASSIS_WATCHDOG_STATUS) == (if c.kick.tripped then 1 else 0)
  {
    hide ReadState, U16Clamp, ToInt16, EncodeHi, EncodeLo, Mirror, FromInt16;
    var s := ReadState(c.chans[i].cell);
    ChassisStatusMirrored(f, c);
    SohIsRead(c.chans[i].cell);
    UnsignedReadback(s.soh * 10000.0);
    MirroredAt(f, c, i, SOH_PCTH);
    MirroredAt(f, c, i, WATCHDOG_STATUS);
  }

  lemma ChassisStatusMirrored(f: F32, c: Chassis)
    requires Wired(c) && CHASSIS_WATCHDOG_STATUS in c.regs
    ensures At(Mirror(f, c).regs, CHASSIS_WATCHDOG_STATUS) == if c.kick.tripped then 1 else 0
  {
    hide Mirrored;
  }

  lemma SohIsRead(cell: Cell)
    requires CellOk(cell)
    ensures 0.0 <= ReadState(cell).soh <= 1.0
  {
  }

  /** A cycle index that fits its register is stamped on its own channel alone, and reads back. */
  lemma StampReadsBack(env: Env, c: Chassis, i: nat, n: nat, now: real)
    requires Ready(c, i) && env.f.Lawful() && n <= 0xFFFF
    ensures var v := Perform(env, c, WriteRegs(Reg(i, CYCLE_COUNT), [n]), now);
            && v.chans == c.chans[i := c.chans[i].(cycleIndex := n)] && v.kick == c.kick && Wired(v)
            && var read := ReadChannel(env.f, Mirror(env.f, v).regs, i);
               read.Some? && read.value.cycleCount == n
  {
    hide ReadChannel, Mirror;
    ReadyStays(env, c, WriteRegs(Reg(i, CYCLE_COUNT), [n]), now, i);
    StampLands(env, c, i, n, now);
    ReadAfterMirror(env.f, Perform(env, c, WriteRegs(Reg(i, CYCLE_COUNT), [n]), now), i);
  }

  lemma StampLands(env: Env, c: Chassis, i: nat, n: nat, now: real)
    requires Ready(c, i)
    ensures var v := Perform(env, c, WriteRegs(Reg(i, CYCLE_COUNT), [n]), now);
            v.chans == c.chans[i := c.chans[i].(cycleIndex := n)] && v.kick == c.kick
  {
    var a := Reg(i, CYCLE_COUNT);
    var stored := c.(regs := Store(c.regs, a, [n]));
    StoreAt(c.regs, a, [n], a);
    assert a / BLOCK == i && a % BLOCK == CYCLE_COUNT && a < CHASSIS_BASE;
    assert DispatchAll(env.f, stored, a, 1, now) == Dispatch(env.f, stored, a, now);
  }

  lemma SocIsRead(cell: Cell)
    requires CellOk(cell)
    ensures ReadState(cell).soc == cell.soc && 0.0 <= cell.soc <= 1.0
  {
  }

  lemma CountIs(n: int)
    ensures U16Clamp(n as real) == if n < 0 then 0 else if n > 0xFFFF then 0xFFFF else n
  {
    assert Trunc(n as real) == n;
  }

  /** For a cell in its physical band only a temperature at or below -0.1 C is misread. */
  lemma InBandReadsTrue(f: F32, c: Chassis, i: nat)
    requires Ready(c, i) && f.Lawful() && InBand(c.chans[i].cell)
    ensures var read := ReadChannel(f, Mirror(f, c).regs, i);
            && read.Some?
            && var r, s := read.value, ReadState(c.chans[i].cell);
            && Abs(r.voltage - s.voltage) < 0.001 && Abs(r.current - s.current) < 0.001
            && (Abs(r.tempC - s.tempC) < 0.1 <==> s.tempC > -0.1)
  {
    hide ReadChannel, Mirror;
    ReadAfterMirror(f, c, i);
    VoltageInBand(c.chans[i].cell);
    BandReadings(c.chans[i].cell);
  }

  lemma BandReadings(cell: Cell)
    requires InBand(cell) && CellOk(cell)
    ensures var s := ReadState(cell); -10.0 <= s.current <= 10.0 && s.tempC <= 76.0
  {
  }
}
