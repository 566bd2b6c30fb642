/**
 One cycler chassis as a state machine: its channels, its register store and its dead-man
 timers, and every atomic step that any of its concurrent tasks takes between two awaits.
 Register writes follow sections 6.6 and 6.12 of the Modbus Application Protocol V1.1b3.
 */
module ChassisModel {
  import opened Prelude
  import opened Models
  import opened Chemistry
  import opened Aging
  import opened CellModel
  import opened Registers

  const CV_KP := 9.0
  const CURRENT_LIMIT := 6.0
  const TOLERANCE := 0.000000001

  datatype Chan = Chan(
    cell: Cell,
    mode: Mode,
    setpoint: real,
    vMax: int,
    tMax: int,
    lastKick: real,
    latched: Error,
    cycleIndex: int)

  datatype Kick = Kick(last: real, tripped: bool)

  datatype Chassis = Chassis(regs: map<int, int>, chans: seq<Chan>, kick: Kick)

  /** What the tasks are started with. */
  datatype Env = Env(m: Math, f: F32, channelThreshold: real, chassisThreshold: real)

  // ---- Channel ----------------------------------------------------------------------------------

  predicate Differs(ch: Chan, mode: Mode, sp: real, vMax: int, tMax: int) {
    ch.mode != mode || Abs(ch.setpoint - sp) > TOLERANCE || ch.vMax != vMax || ch.tMax != tMax
  }

  function ApplyCommand(ch: Chan, mode: Mode, sp: real, vMax: int, tMax: int, now: real): Chan {
    if ch.latched != NoError && mode != Idle then ch
    else if !Differs(ch, mode, sp, vMax, tMax) then ch
    else ch.(mode := mode, setpoint := sp, vMax := vMax, tMax := tMax, lastKick := now)
  }

  function Halt(ch: Chan, e: Error): Chan {
    ch.(latched := if ch.latched == NoError then e else ch.latched, mode := Idle, setpoint := 0.0)
  }

  function Limit(i: real): real {
    Max(-CURRENT_LIMIT, Min(CURRENT_LIMIT, i))
  }

  function DesiredCurrent(ch: Chan, voltage: real): real {
    if ch.latched != NoError then 0.0
    else match ch.mode
      case Idle => 0.0
      case Rest => 0.0
      case CC => ch.setpoint
      case CV => Limit(CV_KP * (voltage - ch.setpoint))
      case CP =>
        var v := Max(voltage, 1.0);
        Limit(ch.setpoint / v)
  }

  predicate WatchdogExpired(ch: Chan, now: real, threshold: real) {
    ch.mode != Idle && now - ch.lastKick > threshold
  }

  // ---- The loops' bodies --------------------------------------------------------------------------

  ghost predicate CellOk(cell: Cell) {
    Known(cell.chem) && Sound(cell.chem) && 0.0 <= cell.soc <= 1.0
  }

  ghost predicate Wired(c: Chassis) {
    forall i | 0 <= i < |c.chans| :: CellOk(c.chans[i].cell)
  }

  function SafetyBody(ch: Chan, now: real, threshold: real): Chan
    requires Sound(ch.cell.chem)
  {
    var s := ReadState(ch.cell);
    if ch.latched != NoError then ch
    else if Trunc(s.voltage * 1000.0) > ch.vMax then Halt(ch, OverVoltage)
    else if Trunc(s.tempC * 10.0) > ch.tMax then Halt(ch, OverTemp)
    else if WatchdogExpired(ch, now, threshold) then Halt(ch, WatchdogTimeout)
    else if s.latched != NoError then Halt(ch, s.latched)
    else ch
  }

  function CellBody(m: Math, ch: Chan, dt: real, ambient: real): Chan
    requires Sound(ch.cell.chem)
  {
    if ch.latched == NoError then
      var i := DesiredCurrent(ch, ReadState(ch.cell).voltage);
      var after := ch.(cell := CellModel.Step(m, ch.cell, i, dt, ambient));
      if after.cell.latched != NoError then Halt(after, after.cell.latched) else after
    else ch.(cell := CellModel.Step(m, ch.cell, 0.0, dt, ambient))
  }

  function ChassisTrip(ch: Chan): Chan {
    if ch.mode != Idle && ch.latched == NoError then Halt(ch, WatchdogTimeout) else ch
  }

  function ChassisBody(c: Chassis, now: real, threshold: real): Chassis {
    if now - c.kick.last > threshold
    then c.(chans := seq(|c.chans|, i requires 0 <= i < |c.chans| => ChassisTrip(c.chans[i])),
            kick := c.kick.(tripped := true))
    else c.(kick := c.kick.(tripped := false))
  }

  // ---- Register writes -----------------------------------------------------------------------------

  function At(regs: map<int, int>, a: int): int {
    if a in regs then regs[a] else 0
  }

  predicate IsCommandOffset(offset: int) {
    offset in {MODE, SETPOINT_HI, SETPOINT_LO, SAFETY_V_MAX_MV, SAFETY_T_MAX_DC}
  }

  function ChemById(id: int): Option<Chem> {
    if id == 1 then Some(NMC) else if id == 2 then Some(LCO)
    else if id == 3 then Some(NMC_SIC) else if id == 4 then Some(LCO_SIC) else None
  }

  function ChemId(c: Chem): int {
    if c == NMC then 1 else if c == LCO then 2 else if c == NMC_SIC then 3 else if c == LCO_SIC then 4 else 0
  }

  function Rebuilt(ch: Chan, chem: Chem): Chan {
    ch.(cell := NewCell(chem), mode := Idle, setpoint := 0.0, latched := NoError,
        vMax := chem.vMaxMv, cycleIndex := 0)
  }

  function SetChemistry(c: Chassis, id: int): Chassis {
    match ChemById(id)
    case None => c
    case Some(chem) =>
      if c.chans == [] || c.chans[0].cell.chem == chem then c
      else c.(chans := seq(|c.chans|, i requires 0 <= i < |c.chans| => Rebuilt(c.chans[i], chem)))
  }

  /** A whole command, rebuilt from the store. */
  function FromStore(f: F32, regs: map<int, int>, i: nat, ch: Chan, now: real): Chan {
    ApplyCommand(ch, WordMode(At(regs, Reg(i, MODE))),
                 DecodeF32(f, At(regs, Reg(i, SETPOINT_HI)), At(regs, Reg(i, SETPOINT_LO))),
                 At(regs, Reg(i, SAFETY_V_MAX_MV)), At(regs, Reg(i, SAFETY_T_MAX_DC)), now)
  }

  function Dispatch(f: F32, c: Chassis, addr: nat, now: real): Chassis {
    if addr >= CHASSIS_BASE then
      if addr == CHASSIS_WATCHDOG_KICK then c.(kick := c.kick.(last := now))
      else if addr == CHEMISTRY then SetChemistry(c, At(c.regs, CHEMISTRY))
      else c
    else
      var i, offset := addr / BLOCK, addr % BLOCK;
      if i >= |c.chans| then c
      else
        var ch := c.chans[i];
        if offset == WATCHDOG_KICK then c.(chans := c.chans[i := ch.(lastKick := now)])
        else if offset == CYCLE_COUNT then
          var v := At(c.regs, addr);
          c.(chans := c.chans[i := ch.(cycleIndex := if v < 0 then 0 else v)])
        else if IsCommandOffset(offset) then c.(chans := c.chans[i := FromStore(f, c.regs, i, ch, now)])
        else c
  }

  function Store(regs: map<int, int>, addr: nat, values: seq<int>): map<int, int>
    decreases values
  {
    if values == [] then regs else Store(regs[addr := values[0]], addr + 1, values[1..])
  }

  function DispatchAll(f: F32, c: Chassis, addr: nat, n: nat, now: real): Chassis
    decreases n
  {
    if n == 0 then c else DispatchAll(f, Dispatch(f, c, addr, now), addr + 1, n - 1, now)
  }

  /** Every address must exist; then all words are stored before any is acted on. */
  function Write(f: F32, c: Chassis, addr: nat, values: seq<int>, now: real): Chassis {
    if forall a | addr <= a < addr + |values| :: a in c.regs
    then DispatchAll(f, c.(regs := Store(c.regs, addr, values)), addr, |values|, now)
    else c
  }

  // ---- The mirror -----------------------------------------------------------------------------------

  /** What the mirror loop writes at an offset of a channel's block; None where it writes nothing. */
  function Mirrored(f: F32, ch: Chan, offset: int): Option<int>
    requires Sound(ch.cell.chem)
  {
    var s := ReadState(ch.cell);
    if offset == MODE then Some(ModeWord(ch.mode))
    else if offset == SETPOINT_HI then Some(EncodeHi(f, ch.setpoint))
    else if offset == SETPOINT_LO then Some(EncodeLo(f, ch.setpoint))
    else if offset == VOLTAGE_MV then Some(U16Clamp(s.voltage * 1000.0))
    else if offset == CURRENT_MA then Some(ToInt16(Trunc(s.current * 1000.0)))
    else if offset == TEMP_DC then Some(U16Clamp(s.tempC * 10.0))
    else if offset == SOC_PCTH then Some(U16Clamp(s.soc * 10000.0))
    else if offset == SOH_PCTH then Some(U16Clamp(s.soh * 10000.0))
    else if offset == WATCHDOG_STATUS then Some(if ch.latched == WatchdogTimeout then 1 else 0)
    else if offset == LAST_ERROR then Some(ErrorWord(ch.latched))
    else if offset == CYCLE_COUNT then Some(U16Clamp(ch.cycleIndex as real))
    else None
  }

  function MirrorWord(f: F32, c: Chassis, a: int): int
    requires Wired(c)
  {
    if a >= CHASSIS_BASE then
      if a == CHASSIS_WATCHDOG_STATUS then if c.kick.tripped then 1 else 0
      else if a == CHEMISTRY && c.chans != [] then ChemId(c.chans[0].cell.chem)
      else At(c.regs, a)
    else if 0 <= a / BLOCK < |c.chans| then
      match Mirrored(f, c.chans[a / BLOCK], a % BLOCK)
      case Some(w) => w
      case None => At(c.regs, a)
    else At(c.regs, a)
  }

  function Mirror(f: F32, c: Chassis): Chassis
    requires Wired(c)
  {
    c.(regs := map a | a in c.regs :: MirrorWord(f, c, a))
  }

  // ---- Steps -----------------------------------------------------------------------------------------

  datatype Action =
    | WriteRegs(addr: nat, values: seq<int>)
    | MirrorTick
    | CellTick(i: nat, dt: real, ambient: real)
    | SafetyTick(i: nat)
    | ChassisTick

  function Perform(env: Env, c: Chassis, a: Action, now: real): Chassis
    requires Wired(c)
  {
    match a
    case WriteRegs(addr, values) => Write(env.f, c, addr, values, now)
    case MirrorTick => Mirror(env.f, c)
    case CellTick(i, dt, ambient) =>
      if i < |c.chans| then c.(chans := c.chans[i := CellBody(env.m, c.chans[i], dt, ambient)]) else c
    case SafetyTick(i) =>
      if i < |c.chans| then c.(chans := c.chans[i := SafetyBody(c.chans[i], now, env.channelThreshold)]) else c
    case ChassisTick => ChassisBody(c, now, env.chassisThreshold)
  }
}
