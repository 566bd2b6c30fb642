/**
 The cycler in its own form: channels, the chassis' dead-man, the register block and the bodies
 of the loops as objects updated in place.  Each contract ties the new state to the step
 function of `ChassisModel`, about which the properties of whole runs are proved.
 */
module Cycler {
  import opened Prelude
  import opened Models
  import opened Chemistry
  import opened Aging
  import opened CellModel
  import opened EcmCell
  import opened Registers
  import opened ChassisModel
  import opened ChassisProofs
  import opened ChassisBoot

  class Channel {
    var cell: ECMCell
    var mode: Mode
    var setpoint: real
    var vMax: int
    var tMax: int
    var lastKick: real
    var latched: Error
    var cycleIndex: int

    constructor (c: ECMCell, v: int, now: real)
      ensures cell == c && View() == Chan(c.View(), Idle, 0.0, v, 600, now, NoError, 0)
    {
      cell, mode, setpoint, vMax, tMax, lastKick, latched, cycleIndex := c, Idle, 0.0, v, 600, now, NoError, 0;
    }

    function View(): Chan
      reads this, cell, cell.age
    {
      Chan(cell.View(), mode, setpoint, vMax, tMax, lastKick, latched, cycleIndex)
    }

    method Apply(m: Mode, sp: real, v: int, t: int, now: real) returns (changed: bool)
      modifies this`mode, this`setpoint, this`vMax, this`tMax, this`lastKick
      ensures View() == ApplyCommand(old(View()), m, sp, v, t, now)
      ensures !changed ==> View() == old(View())
      ensures changed ==> (mode, setpoint, vMax, tMax, lastKick) == (m, sp, v, t, now)
      ensures changed ==> latched == NoError || m == Idle
    {
      if latched != NoError && m != Idle {
        return false;
      }
      changed := mode != m || Abs(setpoint - sp) > TOLERANCE || vMax != v || tMax != t;
      if !changed {
        return;
      }
      mode, setpoint, vMax, tMax := m, sp, v, t;
      KickWatchdog(now);
    }

    method KickWatchdog(now: real)
      modifies this`lastKick
      ensures View() == old(View()).(lastKick := now)
    {
      lastKick := now;
    }

    method SetCycleIndex(n: int)
      modifies this`cycleIndex
      ensures View() == old(View()).(cycleIndex := if n < 0 then 0 else n)
    {
      cycleIndex := if n < 0 then 0 else n;
    }

    /** Clear the latch.  Nothing on the Modbus path calls this. */
    method Reset()
      modifies this`latched, this`mode, this`setpoint
      ensures View() == old(View()).(latched := NoError, mode := Idle, setpoint := 0.0)
    {
      latched, mode, setpoint := NoError, Idle, 0.0;
    }

    method Halt(e: Error)
      modifies this`latched, this`mode, this`setpoint
      ensures View() == ChassisModel.Halt(old(View()), e)
      ensures latched == (if old(latched) == NoError then e else old(latched)) && mode == Idle && setpoint == 0.0
    {
      if latched == NoError {
        latched := e;
      }
      mode, setpoint := Idle, 0.0;
    }

    /** The chassis' dead-man has run out: halt the channel if it is driven. */
    method Trip()
      modifies this`latched, this`mode, this`setpoint
      ensures cell == old(cell) && View() == ChassisTrip(old(View()))
    {
      if mode != Idle && latched == NoError {
        Halt(WatchdogTimeout);
      }
    }

    /** One pass of the safety loop. */
    method SafetyTick(now: real, threshold: real)
      requires Sound(cell.chem)
      modifies this`latched, this`mode, this`setpoint
      ensures View() == SafetyBody(old(View()), now, threshold)
    {
      hide ReadState;
      var s := ReadState(cell.View());
      if latched == NoError {
        var vMv := Trunc(s.voltage * 1000.0);
        var tDc := Trunc(s.tempC * 10.0);
        if vMv > vMax {
          Halt(OverVoltage);
        } else if tDc > tMax {
          Halt(OverTemp);
        } else if WatchdogExpired(View(), now, threshold) {
          Halt(WatchdogTimeout);
        } else if s.latched != NoError {
          Halt(s.latched);
        }
      }
    }

    /** One pass of the cell loop: drive the cell by the control law, or let a latched one relax. */
    method CellTick(m: Math, dt: real, ambient: real)
      requires Sound(cell.chem)
      modifies this`latched, this`mode, this`setpoint, cell, cell.age
      ensures cell == old(cell) && View() == CellBody(m, old(View()), dt, ambient)
    {
      hide ReadState, CellModel.Step, DesiredCurrent;
      if latched == NoError {
        var i := DesiredCurrent(View(), ReadState(cell.View()).voltage);
        cell.Step(m, i, dt, ambient);
        if cell.latched != NoError {
          Halt(cell.latched);
        }
      } else {
        cell.Step(m, 0.0, dt, ambient);
      }
    }

    /** A new cell of another chemistry in place of the old one. */
    method Rebuild(chem: Chem)
      modifies this
      ensures View() == Rebuilt(old(View()), chem) && fresh(cell) && fresh(cell.age)
    {
      cell := new ECMCell(chem);
      mode, setpoint, latched, vMax, cycleIndex := Idle, 0.0, NoError, chem.vMaxMv, 0;
    }
  }

  class ChassisKickState {
    var last: real
    var tripped: bool

    constructor (now: real)
      ensures View() == Kick(now, false)
    {
      last, tripped := now, false;
    }

    function View(): Kick
      reads this
    {
      Kick(last, tripped)
    }
  }

  // ---- The chassis ----------------------------------------------------------------------------------

  ghost function Parts(cs: seq<Channel>): set<object>
    reads cs
  {
    (set c: Channel | c in cs :: c as object) + (set c: Channel | c in cs :: c.cell as object)
    + (set c: Channel | c in cs :: c.cell.age as object)
  }

  ghost predicate Separate(cs: seq<Channel>)
    reads cs
  {
    forall i, j | 0 <= i < j < |cs| ::
      cs[i] != cs[j] && cs[i].cell != cs[j].cell && cs[i].cell.age != cs[j].cell.age
  }

  ghost function Views(cs: seq<Channel>): seq<Chan>
    reads cs, Parts(cs)
  {
    seq(|cs|, i requires 0 <= i < |cs| reads cs, Parts(cs) => cs[i].View())
  }

  lemma DispatchIsLocal(f: F32, c: Chassis, i: nat, offset: nat, now: real)
    requires i < |c.chans| <= CHASSIS_BASE / BLOCK && offset < BLOCK
    ensures var v := ChassisModel.Dispatch(f, c, Reg(i, offset), now);
            |v.chans| == |c.chans| && v == c.(chans := c.chans[i := v.chans[i]])
  {
    hide FromStore;
    assert Reg(i, offset) / BLOCK == i && Reg(i, offset) % BLOCK == offset && Reg(i, offset) < CHASSIS_BASE;
    assert c.chans == c.chans[i := c.chans[i]];
  }

  /** What the mirror loop leaves at an address after refreshing channel i. */
  function Refreshed(f: F32, ch: Chan, i: nat, store: map<int, int>, a: int): int
    requires Sound(ch.cell.chem)
  {
    if 0 <= a < CHASSIS_BASE && a / BLOCK == i && Mirrored(f, ch, a % BLOCK).Some?
    then Mirrored(f, ch, a % BLOCK).value else At(store, a)
  }

  lemma RefreshedIs(f: F32, ch: Chan, i: nat, store: map<int, int>, a: int)
    requires Sound(ch.cell.chem) && i < CHASSIS_BASE / BLOCK
    ensures var s := ReadState(ch.cell);
            Refreshed(f, ch, i, store, a) ==
              if a == Reg(i, MODE) then ModeWord(ch.mode)
              else if a == Reg(i, SETPOINT_HI) then EncodeHi(f, ch.setpoint)
              else if a == Reg(i, SETPOINT_LO) then EncodeLo(f, ch.setpoint)
              else if a == Reg(i, VOLTAGE_MV) then U16Clamp(s.voltage * 1000.0)
              else if a == Reg(i, CURRENT_MA) then ToInt16(Trunc(s.current * 1000.0))
              else if a == Reg(i, TEMP_DC) then U16Clamp(s.tempC * 10.0)
              else if a == Reg(i, SOC_PCTH) then U16Clamp(s.soc * 10000.0)
              else if a == Reg(i, SOH_PCTH) then U16Clamp(s.soh * 10000.0)
              else if a == Reg(i, WATCHDOG_STATUS) then if ch.latched == WatchdogTimeout then 1 else 0
              else if a == Reg(i, LAST_ERROR) then ErrorWord(ch.latched)
              else if a == Reg(i, CYCLE_COUNT) then U16Clamp(ch.cycleIndex as real)
              else At(store, a)
  {
    hide ReadState, U16Clamp, ToInt16, EncodeHi, EncodeLo, ErrorWord, ModeWord;
    if 0 <= a < CHASSIS_BASE && a / BLOCK == i {
      assert a == Reg(i, a % BLOCK);
    } else {
      assert forall o | 0 <= o < BLOCK :: Reg(i, o) / BLOCK == i && 0 <= Reg(i, o) < CHASSIS_BASE;
    }
  }

  ghost predicate HasBlocks(keys: set<int>, n: nat) {
    forall i, offset | 0 <= i < n && 0 <= offset < BLOCK :: Reg(i, offset) in keys
  }

  ghost predicate HasTop(keys: set<int>) {
    forall a | CHASSIS_BASE <= a < CHASSIS_BASE + 20 :: a in keys
  }

  lemma BlockPresent(keys: set<int>, n: nat, i: nat)
    requires HasBlocks(keys, n) && i < n
    ensures forall o | 0 <= o < BLOCK :: Reg(i, o) in keys
  {
  }

  /** n registers from `base` on, all zero. */
  method Zeros(base: nat, n: nat, before: map<int, int>) returns (words: map<int, int>)
    ensures forall a: int :: a in words <==> a in before || base <= a < base + n
    ensures forall a: int | base <= a < base + n :: words[a] == 0
    ensures forall a: int | a in before && !(base <= a < base + n) :: words[a] == before[a]
  {
    words := before;
    for k := 0 to n
      invariant forall a: int :: a in words <==> a in before || base <= a < base + k
      invariant forall a: int | base <= a < base + k :: words[a] == 0
      invariant forall a: int | a in before && !(base <= a < base + k) :: words[a] == before[a]
    {
      words := words[base + k := 0];
    }
  }

  lemma BlocksFilled(words: map<int, int>, n: nat)
    requires forall a: int | 0 <= a < n * BLOCK :: a in words
    ensures HasBlocks(words.Keys, n)
  {
    forall i, offset | 0 <= i < n && 0 <= offset < BLOCK ensures Reg(i, offset) in words.Keys {
      assert 0 <= Reg(i, offset) < n * BLOCK;
    }
  }

  method SeedLimits(before: map<int, int>, limits: seq<(int, int)>) returns (words: map<int, int>)
    requires HasBlocks(before.Keys, |limits|) && |limits| <= CHASSIS_BASE / BLOCK
    ensures words.Keys == before.Keys && forall a | a in words && a >= CHASSIS_BASE :: words[a] == before[a]
    ensures forall i | 0 <= i < |limits| ::
              (At(words, Reg(i, SAFETY_V_MAX_MV)), At(words, Reg(i, SAFETY_T_MAX_DC))) == limits[i]
  {
    words := before;
    for i := 0 to |limits|
      invariant words.Keys == before.Keys && forall a | a in words && a >= CHASSIS_BASE :: words[a] == before[a]
      invariant forall j | 0 <= j < i ::
                  (At(words, Reg(j, SAFETY_V_MAX_MV)), At(words, Reg(j, SAFETY_T_MAX_DC))) == limits[j]
    {
      BlockPresent(before.Keys, |limits|, i);
      words := words[Reg(i, SAFETY_V_MAX_MV) := limits[i].0];
      words := words[Reg(i, SAFETY_T_MAX_DC) := limits[i].1];
    }
  }

  method LimitsOf(cs: seq<Channel>) returns (limits: seq<(int, int)>)
    ensures |limits| == |cs| && forall i | 0 <= i < |cs| :: limits[i] == (cs[i].vMax, cs[i].tMax)
  {
    limits := [];
    for k := 0 to |cs|
      invariant |limits| == k && forall i | 0 <= i < k :: limits[i] == (cs[i].vMax, cs[i].tMax)
    {
      limits := limits + [(cs[k].vMax, cs[k].tMax)];
    }
  }

  lemma ViewsAreOk(cs: seq<Channel>)
    requires forall i | 0 <= i < |cs| :: CellOk(cs[i].cell.View())
    ensures forall i | 0 <= i < |cs| :: CellOk(Views(cs)[i].cell)
  {
    hide CellOk;
    assert forall i | 0 <= i < |cs| :: Views(cs)[i].cell == cs[i].cell.View();
  }

  method InitialStore(id: int, chem: Option<int>, limits: seq<(int, int)>) returns (words: map<int, int>)
    requires |limits| <= CHASSIS_BASE / BLOCK
    ensures HasBlocks(words.Keys, |limits|) && HasTop(words.Keys)
    ensures forall i | 0 <= i < |limits| ::
              (At(words, Reg(i, SAFETY_V_MAX_MV)), At(words, Reg(i, SAFETY_T_MAX_DC))) == limits[i]
    ensures chem.Some? ==> At(words, CHEMISTRY) == chem.value
  {
    words := Zeros(0, |limits| * BLOCK, map[]);
    words := Zeros(CHASSIS_BASE, 20, words);
    words := words[CHASSIS_ID := id][FIRMWARE_VERSION := 1][TOTAL_CHANNELS := |limits|][PROTOCOL_VERSION := 3];
    if chem.Some? {
      words := words[CHEMISTRY := chem.value];
    }
    BlocksFilled(words, |limits|);
    assert HasTop(words.Keys);
    words := SeedLimits(words, limits);
  }

  lemma DispatchBeyond(f: F32, c: Chassis, addr: nat, now: real)
    ensures addr < CHASSIS_BASE && addr / BLOCK >= |c.chans| ==> ChassisModel.Dispatch(f, c, addr, now) == c
  {
  }

  /** New cells for all channels, one after the other. */
  method RebuildAll(cs: seq<Channel>, chem: Chem)
    requires Separate(cs)
    modifies cs
    ensures Separate(cs) && forall j | 0 <= j < |cs| :: cs[j].View() == Rebuilt(old(cs[j].View()), chem)
  {
    hide NewCell, Rebuilt;
    for k := 0 to |cs|
      invariant Separate(cs)
      invariant forall j | 0 <= j < k :: cs[j].View() == Rebuilt(old(cs[j].View()), chem)
      invariant forall j | k <= j < |cs| :: unchanged(cs[j]) && unchanged(cs[j].cell) && unchanged(cs[j].cell.age)
    {
      RebuildOne(cs, k, chem);
    }
  }

  method RebuildOne(cs: seq<Channel>, k: nat, chem: Chem)
    requires k < |cs| && Separate(cs)
    modifies cs[k]
    ensures Separate(cs) && cs[k].View() == Rebuilt(old(cs[k].View()), chem)
    ensures forall j | 0 <= j < |cs| && j != k :: cs[j].View() == old(cs[j].View())
  {
    hide NewCell, Rebuilt;
    cs[k].Rebuild(chem);
  }

  lemma SwapIs(c: Chassis, id: int, chem: Chem)
    requires ChemById(id) == Some(chem) && c.chans != [] && c.chans[0].cell.chem != chem
    ensures var v := SetChemistry(c, id);
            |v.chans| == |c.chans| && forall j | 0 <= j < |c.chans| :: v.chans[j] == Rebuilt(c.chans[j], chem)
  {
    hide Rebuilt;
  }

  /** Halt whatever is driven. */
  method HaltAll(cs: seq<Channel>)
    requires Separate(cs)
    modifies cs
    ensures Separate(cs) && forall j | 0 <= j < |cs| :: cs[j].View() == ChassisTrip(old(cs[j].View()))
  {
    hide ChassisTrip;
    for k := 0 to |cs|
      invariant Separate(cs) && forall j | 0 <= j < |cs| :: cs[j].cell == old(cs[j].cell)
      invariant forall j | 0 <= j < k :: cs[j].View() == ChassisTrip(old(cs[j].View()))
      invariant forall j | k <= j < |cs| :: unchanged(cs[j])
    {
      cs[k].Trip();
    }
  }

  class ChassisDataBlock {
    const env: Env
    const channels: seq<Channel>
    const kick: ChassisKickState
    var store: map<int, int>

    /** Every register exists and reads 0 but for the static ones, the chemistry and the limits. */
    constructor (e: Env, id: int, cs: seq<Channel>, k: ChassisKickState)
      requires Separate(cs) && |cs| <= CHASSIS_BASE / BLOCK
      requires forall i | 0 <= i < |cs| :: CellOk(cs[i].cell.View())
      ensures Valid() && env == e && channels == cs && kick == k && HasTop(store.Keys)
      ensures forall i | 0 <= i < |cs| ::
                At(store, Reg(i, SAFETY_V_MAX_MV)) == cs[i].vMax && At(store, Reg(i, SAFETY_T_MAX_DC)) == cs[i].tMax
      ensures cs != [] ==> At(store, CHEMISTRY) == ChemId(cs[0].cell.chem)
    {
      hide CellOk, HasBlocks, HasTop;
      env, channels, kick := e, cs, k;
      var limits := LimitsOf(cs);
      var words := InitialStore(id, if cs == [] then None else Some(ChemId(cs[0].cell.chem)), limits);
      store := words;
      new;
      ViewsAreOk(cs);
      forall i | 0 <= i < |cs|
        ensures At(store, Reg(i, SAFETY_V_MAX_MV)) == cs[i].vMax && At(store, Reg(i, SAFETY_T_MAX_DC)) == cs[i].tMax
      {
        assert limits[i] == (cs[i].vMax, cs[i].tMax);
      }
    }

    ghost function View(): Chassis
      reads this, kick, channels, Parts(channels)
    {
      Chassis(store, Views(channels), kick.View())
    }

    ghost predicate Valid()
      reads this, kick, channels, Parts(channels)
    {
      && Separate(channels) && Wired(View())
      && |channels| <= CHASSIS_BASE / BLOCK
      && HasBlocks(store.Keys, |channels|)
    }

    lemma CellIsOk(i: nat)
      requires Valid() && i < |channels|
      ensures CellOk(channels[i].View().cell) && Sound(channels[i].cell.chem)
    {
      assert View().chans[i].cell == channels[i].cell.View();
    }

    /** Route one written register to its effect on a channel. */
    method DispatchToChannel(i: nat, offset: nat, now: real)
      requires Valid() && i < |channels| && offset < BLOCK
      modifies channels[i]
      ensures channels[i].cell == old(channels[i].cell)
      ensures channels[i].View() == ChassisModel.Dispatch(env.f, old(View()), Reg(i, offset), now).chans[i]
    {
      hide DecodeF32;
      var ch := channels[i];
      if offset == WATCHDOG_KICK {
        ch.KickWatchdog(now);
      } else if offset == CYCLE_COUNT {
        ch.SetCycleIndex(At(store, Reg(i, CYCLE_COUNT)));
      } else if IsCommandOffset(offset) {
        var sp := DecodeF32(env.f, At(store, Reg(i, SETPOINT_HI)), At(store, Reg(i, SETPOINT_LO)));
        var _ := ch.Apply(WordMode(At(store, Reg(i, MODE))), sp, At(store, Reg(i, SAFETY_V_MAX_MV)),
                          At(store, Reg(i, SAFETY_T_MAX_DC)), now);
      }
    }

    /** Put cells of another known chemistry into every channel; anything else changes nothing. */
    method Swap(id: int)
      requires Valid()
      modifies channels
      ensures Separate(channels)
      ensures Views(channels) == SetChemistry(old(View()), id).chans
    {
      var found := ChemById(id);
      if found.None? || channels == [] || channels[0].cell.chem == found.value {
        return;
      }
      hide SetChemistry, Rebuilt, CellOk;
      RebuildAll(channels, found.value);
      SwapIs(old(View()), id, found.value);
      assert Views(channels) == SetChemistry(old(View()), id).chans;
    }

    /** A register above the channels' blocks: kick the chassis, or swap the chemistry. */
    method DispatchToChassis(addr: nat, now: real)
      requires Valid() && addr >= CHASSIS_BASE
      modifies channels, kick
      ensures Valid() && View() == ChassisModel.Dispatch(env.f, old(View()), addr, now)
    {
      hide CellOk;
      DispatchFrame(env.f, View(), addr, now);
      if addr == CHASSIS_WATCHDOG_KICK {
        kick.last := now;
        assert Views(channels) == old(Views(channels));
      } else if addr == CHEMISTRY {
        Swap(At(store, CHEMISTRY));
      }
    }

    method DispatchInBlock(i: nat, offset: nat, now: real)
      requires Valid() && i < |channels| && offset < BLOCK
      modifies channels
      ensures Valid() && View() == ChassisModel.Dispatch(env.f, old(View()), Reg(i, offset), now)
    {
      hide ChassisModel.Dispatch, CellOk;
      ghost var v := ChassisModel.Dispatch(env.f, View(), Reg(i, offset), now);
      DispatchFrame(env.f, View(), Reg(i, offset), now);
      DispatchIsLocal(env.f, View(), i, offset, now);
      DispatchToChannel(i, offset, now);
      assert Views(channels) == old(Views(channels))[i := channels[i].View()];
      assert Views(channels) == v.chans;
    }

    /** Route one written register to its effect. */
    method Dispatch(addr: nat, now: real)
      requires Valid()
      modifies channels, kick
      ensures Valid() && View() == ChassisModel.Dispatch(env.f, old(View()), addr, now)
    {
      hide ChassisModel.Dispatch, CellOk, Wired, HasBlocks;
      DispatchBeyond(env.f, View(), addr, now);
      if addr >= CHASSIS_BASE {
        DispatchToChassis(addr, now);
      } else if addr / BLOCK < |channels| {
        DispatchInBlock(addr / BLOCK, addr % BLOCK, now);
      }
    }

    /** A register write: refused if an address does not exist; otherwise every word is stored
        before the first is dispatched. */
    method SetValues(addr: nat, values: seq<int>, now: real)
      requires Valid()
      modifies this`store, channels, kick
      ensures Valid() && View() == Write(env.f, old(View()), addr, values, now)
    {
      hide ChassisModel.Dispatch, FromStore, SetChemistry, CellOk;
      if exists a | addr <= a < addr + |values| :: a !in store {
        return;
      }
      StoreAll(addr, values);
      ghost var stored := View();
      assert stored == old(View()).(regs := Store(old(store), addr, values));
      for k := 0 to |values|
        invariant Valid()
        invariant DispatchAll(env.f, View(), addr + k, |values| - k, now)
                  == DispatchAll(env.f, stored, addr, |values|, now)
      {
        Dispatch(addr + k, now);
      }
    }

    method StoreAll(addr: nat, values: seq<int>)
      requires Valid() && forall a | addr <= a < addr + |values| :: a in store
      modifies this`store
      ensures Valid() && store == Store(old(store), addr, values)
    {
      assert values[0..] == values;
      for k := 0 to |values|
        invariant store.Keys == old(store).Keys
        invariant Store(store, addr + k, values[k..]) == Store(old(store), addr, values)
      {
        assert values[k..][1..] == values[k + 1..] && values[k..][0] == values[k];
        store := store[addr + k := values[k]];
      }
      assert Views(channels) == old(Views(channels));
    }

    // ---- The mirror loop's body ----------------------------------------------------------------

    method MirrorChannel(i: nat)
      requires Valid() && i < |channels|
      modifies this`store
      ensures store.Keys == old(store).Keys
      ensures CellOk(channels[i].View().cell)
      ensures forall a | a in store :: store[a] == Refreshed(env.f, channels[i].View(), i, old(store), a)
    {
      hide Refreshed, HasBlocks;
      CellIsOk(i);
      BlockPresent(store.Keys, |channels|, i);
      store := WriteBlock(env.f, channels[i].View(), i, store);
    }

    static method WriteBlock(f: F32, ch: Chan, i: nat, before: map<int, int>) returns (words: map<int, int>)
      requires Sound(ch.cell.chem) && i < CHASSIS_BASE / BLOCK
      requires forall o | 0 <= o < BLOCK :: Reg(i, o) in before
      ensures words.Keys == before.Keys
      ensures forall a | a in words :: words[a] == Refreshed(f, ch, i, before, a)
    {
      hide ReadState, U16Clamp, ToInt16, EncodeHi, EncodeLo, Refreshed;
      var s := ReadState(ch.cell);
      words := before[Reg(i, MODE) := ModeWord(ch.mode)];
      words := words[Reg(i, SETPOINT_HI) := EncodeHi(f, ch.setpoint)][Reg(i, SETPOINT_LO) := EncodeLo(f, ch.setpoint)];
      words := words[Reg(i, VOLTAGE_MV) := U16Clamp(s.voltage * 1000.0)];
      words := words[Reg(i, CURRENT_MA) := ToInt16(Trunc(s.current * 1000.0))];
      words := words[Reg(i, TEMP_DC) := U16Clamp(s.tempC * 10.0)];
      words := words[Reg(i, SOC_PCTH) := U16Clamp(s.soc * 10000.0)];
      words := words[Reg(i, SOH_PCTH) := U16Clamp(s.soh * 10000.0)];
      words := words[Reg(i, WATCHDOG_STATUS) := if ch.latched == WatchdogTimeout then 1 else 0];
      words := words[Reg(i, LAST_ERROR) := ErrorWord(ch.latched)];
      words := words[Reg(i, CYCLE_COUNT) := U16Clamp(ch.cycleIndex as real)];
      forall a | a in words ensures words[a] == Refreshed(f, ch, i, before, a) {
        RefreshedIs(f, ch, i, before, a);
      }
    }

    method MirrorChannels()
      requires Valid()
      modifies this`store
      ensures store.Keys == old(store).Keys
      ensures forall a | a in store ::
                store[a] == if 0 <= a < CHASSIS_BASE && a / BLOCK < |channels|
                            then MirrorWord(env.f, old(View()), a) else old(store)[a]
    {
      hide Mirrored, HasBlocks, Separate, ReadState;
      ghost var c := View();
      for k := 0 to |channels|
        invariant store.Keys == old(store).Keys && Views(channels) == c.chans && Valid()
        invariant forall a | a in store ::
                    store[a] == if 0 <= a < CHASSIS_BASE && a / BLOCK < k
                                then MirrorWord(env.f, c, a) else old(store)[a]
      {
        MirrorChannel(k);
        assert Views(channels) == c.chans;
      }
    }

    method MirrorTick()
      requires Valid()
      modifies this`store
      ensures Valid() && View() == Mirror(env.f, old(View()))
    {
      hide Mirror, MirrorWord, HasBlocks, Separate, ReadState, CellOk;
      ghost var c := View();
      MirrorChannels();
      assert Views(channels) == c.chans;
      var chem := if channels == [] then None else Some(ChemId(channels[0].cell.chem));
      store := WriteTop(env.f, c, store, kick.tripped, chem);
      assert Views(channels) == c.chans;
    }

    /** The chassis' own registers, once all blocks are written. */
    static method WriteTop(f: F32, ghost c: Chassis, before: map<int, int>, tripped: bool, chem: Option<int>)
      returns (words: map<int, int>)
      requires Wired(c) && before.Keys == c.regs.Keys && tripped == c.kick.tripped
      requires chem == if c.chans == [] then None else Some(ChemId(c.chans[0].cell.chem))
      requires forall a | a in before ::
                 before[a] == if 0 <= a < CHASSIS_BASE && a / BLOCK < |c.chans| then MirrorWord(f, c, a) else c.regs[a]
      ensures c.(regs := words) == Mirror(f, c) && words.Keys == c.regs.Keys
    {
      hide Mirrored, ReadState, CellOk;
      words := before;
      if CHASSIS_WATCHDOG_STATUS in words {
        words := words[CHASSIS_WATCHDOG_STATUS := if tripped then 1 else 0];
      }
      if chem.Some? && CHEMISTRY in words {
        words := words[CHEMISTRY := chem.value];
      }
    }

    // ---- The loops' bodies --------------------------------------------------------------------------

    method SafetyTickOf(i: nat, now: real)
      requires Valid() && i < |channels|
      modifies channels
      ensures Valid() && View() == Perform(env, old(View()), SafetyTick(i), now)
    {
      hide SafetyBody, CellOk;
      StepKeepsWired(env, View(), SafetyTick(i), now);
      CellIsOk(i);
      channels[i].SafetyTick(now, env.channelThreshold);
      assert Views(channels) == old(Views(channels))[i := channels[i].View()];
    }

    method CellTickOf(i: nat, dt: real, ambient: real, now: real)
      requires Valid() && i < |channels|
      modifies channels[i], channels[i].cell, channels[i].cell.age
      ensures Valid() && View() == Perform(env, old(View()), CellTick(i, dt, ambient), now)
    {
      hide CellBody, CellOk;
      StepKeepsWired(env, View(), CellTick(i, dt, ambient), now);
      CellIsOk(i);
      channels[i].CellTick(env.m, dt, ambient);
      assert Views(channels) == old(Views(channels))[i := channels[i].View()];
    }

    /** Halt every driven channel if the chassis has not been kicked in time. */
    method ChassisTickOf(now: real)
      requires Valid()
      modifies channels, kick
      ensures Valid() && View() == Perform(env, old(View()), ChassisTick, now)
    {
      hide CellOk, ChassisTrip, HasBlocks;
      StepKeepsWired(env, View(), ChassisTick, now);
      if now - kick.last > env.chassisThreshold {
        HaltAll(channels);
        kick.tripped := true;
        assert Views(channels) == ChassisBody(old(View()), now, env.chassisThreshold).chans;
      } else {
        kick.tripped := false;
        assert Views(channels) == old(Views(channels));
      }
    }
  }

  /** n channels, each with a new cell of the chassis' chemistry. */
  method MakeChannels(n: nat, chem: Chem, now: real) returns (cs: seq<Channel>)
    ensures |cs| == n && Separate(cs)
    ensures forall i | 0 <= i < n :: fresh(cs[i]) && fresh(cs[i].cell) && fresh(cs[i].cell.age)
    ensures forall i | 0 <= i < n :: cs[i].View() == Chan(NewCell(chem), Idle, 0.0, chem.vMaxMv, 600, now, NoError, 0)
  {
    cs := [];
    for k := 0 to n
      invariant |cs| == k && Separate(cs)
      invariant forall i | 0 <= i < k :: fresh(cs[i]) && fresh(cs[i].cell) && fresh(cs[i].cell.age)
      invariant forall i | 0 <= i < k ::
                  cs[i].View() == Chan(NewCell(chem), Idle, 0.0, chem.vMaxMv, 600, now, NoError, 0)
    {
      hide NewCell;
      var ch := MakeChannel(chem, now);
      cs := cs + [ch];
    }
  }

  method MakeChannel(chem: Chem, now: real) returns (ch: Channel)
    ensures fresh(ch) && fresh(ch.cell) && fresh(ch.cell.age)
    ensures ch.View() == Chan(NewCell(chem), Idle, 0.0, chem.vMaxMv, 600, now, NoError, 0)
  {
    hide NewCell;
    var cell := new ECMCell(chem);
    ch := new Channel(cell, chem.vMaxMv, now);
  }

  /** A cycler comes up as a booted chassis. */
  method Boot(env: Env, id: int, n: nat, chem: Chem, now: real) returns (block: ChassisDataBlock)
    requires Known(chem) && n <= CHASSIS_BASE / BLOCK
    ensures block.Valid() && block.env == env && Booted(block.View(), chem, now) && |block.View().chans| == n
  {
    hide NewCell;
    NewCellOk(chem);
    var cs := MakeChannels(n, chem, now);
    var kick := new ChassisKickState(now);
    block := new ChassisDataBlock(env, id, cs, kick);
    assert Views(cs) == block.View().chans;
  }
}
