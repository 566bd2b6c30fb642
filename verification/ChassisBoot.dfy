/** A chassis as it comes up: new cells of one known chemistry, idle channels, full registers. */
module ChassisBoot {
  import opened Models
  import opened Chemistry
  import opened CellModel
  import opened Registers
  import opened ChassisModel
  import opened ChassisProofs
  import opened SendCommand

  ghost predicate Booted(c: Chassis, chem: Chem, now: real) {
    && Known(chem) && |c.chans| <= CHASSIS_BASE / BLOCK && c.kick == Kick(now, false)
    && (forall i | 0 <= i < |c.chans| ::
          c.chans[i] == Chan(NewCell(chem), Idle, 0.0, chem.vMaxMv, 600, now, NoError, 0))
    && (forall i, offset | 0 <= i < |c.chans| && 0 <= offset < BLOCK :: Reg(i, offset) in c.regs)
    && (forall a | CHASSIS_BASE <= a < CHASSIS_BASE + 20 :: a in c.regs)
  }

  lemma BootIsReady(c: Chassis, chem: Chem, now: real, i: nat)
    requires Booted(c, chem, now) && i < |c.chans|
    ensures Ready(c, i) && CHASSIS_WATCHDOG_KICK in c.regs
  {
    hide NewCell;
    NewCellOk(chem);
  }

  function Zeroed(base: nat, n: nat): (words: map<int, int>)
    ensures forall a: int :: a in words <==> base <= a < base + n
  {
    if n == 0 then map[] else Zeroed(base, n - 1)[base + n - 1 := 0]
  }

  /** One chassis with one channel of NMC cells. */
  function SmallChassis(now: real): Chassis {
    var regs := (Zeroed(0, BLOCK) + Zeroed(CHASSIS_BASE, 20))
                [SAFETY_V_MAX_MV := 4400][SAFETY_T_MAX_DC := 600][CHEMISTRY := 1];
    Chassis(regs, [Chan(NewCell(NMC), Idle, 0.0, 4400, 600, now, NoError, 0)], Kick(now, false))
  }

  lemma SmallChassisBoots(now: real)
    ensures Booted(SmallChassis(now), NMC, now) && |SmallChassis(now).chans| == 1
  {
    hide NewCell;
  }
}
