/**
 How tight the dead-man bounds are, from boot: a client commands a channel at once, the watch
 bodies come regularly, and the last one before the deadline comes as late as it may.
 */
module DeadManBounds {
  import opened Prelude
  import opened Models
  import opened Chemistry
  import opened CellModel
  import opened Registers
  import opened ChassisModel
  import opened ChassisProofs
  import opened ChassisBoot
  import opened SendCommand
  import opened DeadMan

  function BootWatch(c: Chassis, now: real): Watch {
    Watch(c, now, now, now, now)
  }

  // ---- Runs in two parts -------------------------------------------------------------------------

  lemma {:induction false} TimelyAppend(env: Env, w: Watch, i: nat, p: real, q: real, a: seq<Tick>, b: seq<Tick>)
    requires Wired(w.c) && i < |w.c.chans| && Timely(env, w, i, p, q, a)
    requires Timely(env, ObserveAll(env, w, i, a), i, p, q, b)
    ensures Timely(env, w, i, p, q, a + b)
    ensures ObserveAll(env, w, i, a + b) == ObserveAll(env, ObserveAll(env, w, i, a), i, b)
    decreases a
  {
    hide Perform, InTime;
    if a == [] {
      assert a + b == b;
    } else {
      assert (a + b)[1..] == a[1..] + b;
      StepKeepsWired(env, w.c, a[0].action, a[0].now);
      TimelyAppend(env, Observe(env, w, i, a[0]), i, p, q, a[1..], b);
    }
  }

  lemma OneEvent(env: Env, w: Watch, i: nat, p: real, q: real, e: Tick)
    requires Wired(w.c) && i < |w.c.chans| && InTime(w, p, q, e.now)
    ensures Timely(env, w, i, p, q, [e]) && ObserveAll(env, w, i, [e]) == Observe(env, w, i, e)
  {
    hide Perform, InTime;
    StepKeepsWired(env, w.c, e.action, e.now);
    assert [e][1..] == [];
    assert Timely(env, Observe(env, w, i, e), i, p, q, []);
    assert ObserveAll(env, Observe(env, w, i, e), i, []) == Observe(env, w, i, e);
  }

  // ---- A driven chassis ----------------------------------------------------------------------------

  /** Channel 0 drives a new cell at constant current within its limits. */
  ghost predicate Driving(c: Chassis, kickedAt: real, chassisKickedAt: real) {
    && Ready(c, 0) && CHASSIS_WATCHDOG_KICK in c.regs && c.kick == Kick(chassisKickedAt, false)
    && var ch := c.chans[0];
    && Known(ch.cell.chem) && ch.cell == NewCell(ch.cell.chem)
    && ch.mode == CC && ch.latched == NoError && ch.vMax == ch.cell.chem.vMaxMv && ch.tMax == 600
    && ch.lastKick == kickedAt
  }

  const KICK_CHANNEL := WriteRegs(WATCHDOG_KICK, [1])
  const KICK_CHASSIS := WriteRegs(CHASSIS_WATCHDOG_KICK, [1])

  lemma NewCellReads(chem: Chem)
    requires Known(chem) && Sound(chem)
    ensures var s := ReadState(NewCell(chem));
            && Trunc(s.voltage * 1000.0) <= chem.vMaxMv && Trunc(s.tempC * 10.0) <= 600 && s.latched == NoError
  {
    var s := ReadState(NewCell(chem));
    assert (0.5 * 10.0).Floor == 5;
    assert s.voltage == 3.78 || s.voltage == 3.85;
    assert s.tempC == 25.0;
  }

  lemma ChannelKickDrives(env: Env, c: Chassis, k: real, ck: real, t: real)
    requires Driving(c, k, ck)
    ensures Driving(Perform(env, c, KICK_CHANNEL, t), t, ck)
  {
    assert Reg(0, WATCHDOG_KICK) == WATCHDOG_KICK && Reg(0, WATCHDOG_KICK) in c.regs;
    ReadyStays(env, c, KICK_CHANNEL, t, 0);
    KeysStay(env, c, KICK_CHANNEL, t);
    KickResetsTimer(env, c, 0, t);
    hide Perform, NewCell, Ready;
    assert CHASSIS_WATCHDOG_KICK in c.regs.Keys;
  }

  lemma ChassisKickDrives(env: Env, c: Chassis, k: real, ck: real, t: real)
    requires Driving(c, k, ck)
    ensures Driving(Perform(env, c, KICK_CHASSIS, t), k, t)
  {
    hide NewCell;
    ReadyStays(env, c, KICK_CHASSIS, t, 0);
    KeysStay(env, c, KICK_CHASSIS, t);
    assert CHASSIS_WATCHDOG_KICK in c.regs.Keys;
    var stored := c.(regs := Store(c.regs, CHASSIS_WATCHDOG_KICK, [1]));
    assert DispatchAll(env.f, stored, CHASSIS_WATCHDOG_KICK, 1, t) == Dispatch(env.f, stored, CHASSIS_WATCHDOG_KICK, t);
  }

  lemma SafetyTickDrives(env: Env, c: Chassis, k: real, ck: real, t: real)
    requires Driving(c, k, ck) && t - k <= env.channelThreshold
    ensures Perform(env, c, SafetyTick(0), t) == c
  {
    KnownAreSound(c.chans[0].cell.chem);
    NewCellReads(c.chans[0].cell.chem);
    hide NewCell, ReadState;
    assert c.chans[0 := c.chans[0]] == c.chans;
  }

  lemma ChassisTickDrives(env: Env, c: Chassis, k: real, ck: real, t: real)
    requires Driving(c, k, ck) && t - ck <= env.chassisThreshold
    ensures Perform(env, c, ChassisTick, t) == c
  {
  }

  // ---- Beats ---------------------------------------------------------------------------------------

  /** What happens at each beat besides the safety body. */
  datatype Beat = Beat(kicksChannel: bool, kicksChassis: bool, ticksChassis: bool)

  function BeatAt(b: Beat, t: real): seq<Tick> {
    (if b.kicksChannel then [Tick(KICK_CHANNEL, t)] else [])
    + (if b.kicksChassis then [Tick(KICK_CHASSIS, t)] else [])
    + [Tick(SafetyTick(0), t)]
    + (if b.ticksChassis then [Tick(ChassisTick, t)] else [])
  }

  /** The times of a driven chassis and of the bodies that watch it. */
  ghost predicate Watched(w: Watch, k: real, ck: real, safety: real, chassis: real, since: real) {
    && Driving(w.c, k, ck) && w.now == w.safetyAt == safety && w.chassisAt == chassis && w.activeSince == since
  }

  lemma DrivenIsWired(c: Chassis, k: real, ck: real)
    requires Driving(c, k, ck)
    ensures Wired(c) && 0 < |c.chans| && c.chans[0].mode == CC
  {
  }

  lemma BeatRuns(env: Env, w: Watch, b: Beat, t: real, k: real, ck: real, p: real, q: real)
    requires Driving(w.c, k, ck) && InTime(w, p, q, t) && p >= 0.0 && q >= 0.0
    requires env.channelThreshold >= 0.0 && env.chassisThreshold >= 0.0
    requires b.kicksChannel || t - k <= env.channelThreshold
    requires b.ticksChassis ==> b.kicksChassis || t - ck <= env.chassisThreshold
    ensures Wired(w.c) && 0 < |w.c.chans| && Timely(env, w, 0, p, q, BeatAt(b, t))
    ensures Watched(ObserveAll(env, w, 0, BeatAt(b, t)),
                    if b.kicksChannel then t else k, if b.kicksChassis then t else ck,
                    t, if b.ticksChassis then t else w.chassisAt, w.activeSince)
  {
    hide Driving, Perform, Timely, ObserveAll;
    DrivenIsWired(w.c, k, ck);
    var e0 := if b.kicksChannel then [Tick(KICK_CHANNEL, t)] else [];
    var k1, w1 := ChannelPart(env, w, b, t, k, ck, p, q);
    var e1 := if b.kicksChassis then [Tick(KICK_CHASSIS, t)] else [];
    var ck1, w2 := ChassisPart(env, w1, b, t, k1, ck, p, q);
    var e2 := [Tick(SafetyTick(0), t)];
    DrivenIsWired(w1.c, k1, ck);
    DrivenIsWired(w2.c, k1, ck1);
    SafetyTickDrives(env, w2.c, k1, ck1, t);
    OneEvent(env, w2, 0, p, q, Tick(SafetyTick(0), t));
    var w3 := Observe(env, w2, 0, Tick(SafetyTick(0), t));
    var e3 := if b.ticksChassis then [Tick(ChassisTick, t)] else [];
    TickPart(env, w3, b, t, k1, ck1, p, q);
    TimelyAppend(env, w, 0, p, q, e0, e1);
    TimelyAppend(env, w, 0, p, q, e0 + e1, e2);
    TimelyAppend(env, w, 0, p, q, e0 + e1 + e2, e3);
  }

  lemma ChannelPart(env: Env, w: Watch, b: Beat, t: real, k: real, ck: real, p: real, q: real)
      returns (k1: real, v: Watch)
    requires Driving(w.c, k, ck) && InTime(w, p, q, t)
    ensures Wired(w.c) && 0 < |w.c.chans| && k1 == if b.kicksChannel then t else k
    ensures var es := if b.kicksChannel then [Tick(KICK_CHANNEL, t)] else [];
            && Timely(env, w, 0, p, q, es) && v == ObserveAll(env, w, 0, es)
            && Driving(v.c, k1, ck) && InTime(v, p, q, t)
            && v.safetyAt == w.safetyAt && v.chassisAt == w.chassisAt && v.activeSince == w.activeSince
  {
    hide Driving, Perform;
    DrivenIsWired(w.c, k, ck);
    k1, v := k, w;
    if b.kicksChannel {
      ChannelKickDrives(env, w.c, k, ck, t);
      OneEvent(env, w, 0, p, q, Tick(KICK_CHANNEL, t));
      k1, v := t, Observe(env, w, 0, Tick(KICK_CHANNEL, t));
      DrivenIsWired(v.c, t, ck);
    }
  }

  lemma ChassisPart(env: Env, w: Watch, b: Beat, t: real, k: real, ck: real, p: real, q: real)
      returns (ck1: real, v: Watch)
    requires Driving(w.c, k, ck) && InTime(w, p, q, t)
    ensures Wired(w.c) && 0 < |w.c.chans| && ck1 == if b.kicksChassis then t else ck
    ensures var es := if b.kicksChassis then [Tick(KICK_CHASSIS, t)] else [];
            && Timely(env, w, 0, p, q, es) && v == ObserveAll(env, w, 0, es)
            && Driving(v.c, k, ck1) && InTime(v, p, q, t)
            && v.safetyAt == w.safetyAt && v.chassisAt == w.chassisAt && v.activeSince == w.activeSince
  {
    hide Driving, Perform;
    DrivenIsWired(w.c, k, ck);
    ck1, v := ck, w;
    if b.kicksChassis {
      ChassisKickDrives(env, w.c, k, ck, t);
      OneEvent(env, w, 0, p, q, Tick(KICK_CHASSIS, t));
      ck1, v := t, Observe(env, w, 0, Tick(KICK_CHASSIS, t));
      DrivenIsWired(v.c, k, t);
    }
  }

  lemma TickPart(env: Env, w: Watch, b: Beat, t: real, k: real, ck: real, p: real, q: real)
    requires Driving(w.c, k, ck) && InTime(w, p, q, t) && w.now == w.safetyAt == t
    requires b.ticksChassis ==> t - ck <= env.chassisThreshold
    ensures Wired(w.c) && 0 < |w.c.chans|
    ensures var es := if b.ticksChassis then [Tick(ChassisTick, t)] else [];
            && Timely(env, w, 0, p, q, es)
            && Watched(ObserveAll(env, w, 0, es), k, ck, t, if b.ticksChassis then t else w.chassisAt, w.activeSince)
  {
    hide Driving, Perform;
    DrivenIsWired(w.c, k, ck);
    if b.ticksChassis {
      ChassisTickDrives(env, w.c, k, ck, t);
      OneEvent(env, w, 0, p, q, Tick(ChassisTick, t));
    }
  }

  /** n beats, d apart. */
  function Beats(b: Beat, start: real, d: real, n: nat): seq<Tick>
    decreases n
  {
    if n == 0 then [] else BeatAt(b, start + d) + Beats(b, start + d, d, n - 1)
  }

  /** No body is overdue and no timer expires while beats go on for that long. */
  ghost predicate Room(env: Env, w: Watch, b: Beat, total: real, k: real, ck: real, p: real, q: real) {
    && Watched(w, k, ck, w.now, w.chassisAt, w.activeSince) && 0.0 < p <= q && 0.0 <= total
    && env.channelThreshold >= 0.0 && env.chassisThreshold >= 0.0
    && (if b.ticksChassis then w.chassisAt == w.now else w.now + total <= w.chassisAt + q)
    && (b.kicksChannel || w.now + total - k <= env.channelThreshold)
    && (b.ticksChassis ==> b.kicksChassis || w.now + total - ck <= env.chassisThreshold)
  }

  lemma FirstBeat(env: Env, w: Watch, b: Beat, d: real, rest: real, k: real, ck: real, p: real, q: real)
    requires Room(env, w, b, d + rest, k, ck, p, q) && 0.0 <= d <= p && 0.0 <= rest
    ensures Wired(w.c) && 0 < |w.c.chans| && Timely(env, w, 0, p, q, BeatAt(b, w.now + d))
    ensures var t, v := w.now + d, ObserveAll(env, w, 0, BeatAt(b, w.now + d));
            && v.now == t && v.activeSince == w.activeSince
            && v.chassisAt == (if b.ticksChassis then t else w.chassisAt)
            && Room(env, v, b, rest, if b.kicksChannel then t else k, if b.kicksChassis then t else ck, p, q)
  {
    hide Driving, Timely, ObserveAll, BeatAt;
    BeatRuns(env, w, b, w.now + d, k, ck, p, q);
  }

  lemma {:induction false} BeatsRun(env: Env, w: Watch, b: Beat, d: real, n: nat, k: real, ck: real, p: real, q: real)
    requires Room(env, w, b, Part(d, n as real), k, ck, p, q) && 0.0 <= d <= p && n > 0
    ensures Wired(w.c) && 0 < |w.c.chans| && Timely(env, w, 0, p, q, Beats(b, w.now, d, n))
    ensures var last := w.now + Part(d, n as real);
            Watched(ObserveAll(env, w, 0, Beats(b, w.now, d, n)),
                    if b.kicksChannel then last else k, if b.kicksChassis then last else ck,
                    last, if b.ticksChassis then last else w.chassisAt, w.activeSince)
    decreases n
  {
    hide *;
    var t, rest := w.now + d, Part(d, (n - 1) as real);
    BeatsFrom(b, w.now, d, n);
    PartNonNegative(d, (n - 1) as real);
    FirstBeat(env, w, b, d, rest, k, ck, p, q);
    var v := ObserveAll(env, w, 0, BeatAt(b, t));
    var k1, ck1 := if b.kicksChannel then t else k, if b.kicksChassis then t else ck;
    if n == 1 {
      RoomIsWatched(env, v, b, rest, k1, ck1, p, q);
    } else {
      BeatsRun(env, v, b, d, n - 1, k1, ck1, p, q);
      TimelyAppend(env, w, 0, p, q, BeatAt(b, t), Beats(b, t, d, n - 1));
    }
  }

  lemma RoomIsWatched(env: Env, w: Watch, b: Beat, total: real, k: real, ck: real, p: real, q: real)
    requires Room(env, w, b, total, k, ck, p, q)
    ensures Watched(w, k, ck, w.now, w.chassisAt, w.activeSince)
  {
  }

  lemma BeatsFrom(b: Beat, start: real, d: real, n: nat)
    requires n > 0
    ensures Part(d, n as real) == d + Part(d, (n - 1) as real)
    ensures Beats(b, start, d, n) == BeatAt(b, start + d) + Beats(b, start + d, d, n - 1)
    ensures n == 1 ==> Part(d, (n - 1) as real) == 0.0 && Beats(b, start, d, n) == BeatAt(b, start + d)
  {
  }

  lemma Slices(p: real, total: real, n: int)
    requires 0.0 < p && 0.0 <= total && n == (total / p).Floor + 1
    ensures n > 0 && 0.0 <= total / n as real <= p && Part(total / n as real, n as real) == total
  {
    var r := total / p;
    assert total == p * r;
    DivideMonotone(0.0, total, p);
    assert n as real > r;
    ScaleStrictly(p, r, n as real);
    QuotientBound(total, n as real, p);
    DivideMonotone(0.0, total, n as real);
  }

  /** Beats for that long, one safety period apart or closer. */
  lemma BeatFor(env: Env, w: Watch, b: Beat, total: real, k: real, ck: real, p: real, q: real) returns (es: seq<Tick>)
    requires Room(env, w, b, total, k, ck, p, q)
    ensures Wired(w.c) && 0 < |w.c.chans| && Timely(env, w, 0, p, q, es)
    ensures var last := w.now + total;
            Watched(ObserveAll(env, w, 0, es), if b.kicksChannel then last else k, if b.kicksChassis then last else ck,
                    last, if b.ticksChassis then last else w.chassisAt, w.activeSince)
  {
    hide Driving, Part, Timely, ObserveAll;
    var n := (total / p).Floor + 1;
    Slices(p, total, n);
    BeatsRun(env, w, b, total / n as real, n, k, ck, p, q);
    es := Beats(b, w.now, total / n as real, n);
  }

  // ---- From boot to a driven channel -----------------------------------------------------------------

  /** Writes to one channel leave its cell, its latch and the chassis kick alone, and date a drive. */
  lemma {:induction false} BurstFrame(env: Env, c: Chassis, cmd: Command, now: real, n: nat)
    requires Ready(c, 0) && env.f.Lawful() && n <= 4 && (c.chans[0].mode != Idle ==> c.chans[0].lastKick == now)
    ensures var v := Run(env, c, Burst(env.f, 0, cmd, _ => now, n));
            && Ready(v, 0) && v.regs.Keys == c.regs.Keys && v.kick == c.kick
            && v.chans[0].cell == c.chans[0].cell && v.chans[0].latched == c.chans[0].latched
            && (v.chans[0].mode != Idle ==> v.chans[0].lastKick == now)
    decreases n
  {
    hide Perform, Ready, WriteNo;
    ReadyIsWired(c, 0);
    if n > 0 {
      BurstFrame(env, c, cmd, now, n - 1);
      var before := Burst(env.f, 0, cmd, _ => now, n - 1);
      var a := WriteNo(env.f, 0, cmd, n - 1);
      assert Burst(env.f, 0, cmd, _ => now, n) == before + [Tick(a, now)];
      RunOneMore(env, c, before, Tick(a, now));
      OneWriteFrame(env, Run(env, c, before), cmd, n - 1, now);
    }
  }

  lemma OneWriteFrame(env: Env, c: Chassis, cmd: Command, k: nat, now: real)
    requires Ready(c, 0) && k < 4
    ensures var v := Perform(env, c, WriteNo(env.f, 0, cmd, k), now);
            && Ready(v, 0) && v.regs.Keys == c.regs.Keys && v.kick == c.kick
            && v.chans[0].cell == c.chans[0].cell && v.chans[0].latched == c.chans[0].latched
            && KickedSince(c.chans[0], v.chans[0], now)
  {
    var a := WriteNo(env.f, 0, cmd, k);
    ReadyStays(env, c, a, now, 0);
    KeysStay(env, c, a, now);
    NeighboursUntouched(env, c, cmd, k, now, 0);
    WriteLatch(env.f, c, a.addr, a.values, now, 0);
    StepKicks(env, c, a, now, 0);
  }

  /** At boot the client puts channel 0 at constant current. */
  function Start(env: Env, c: Chassis, now: real): seq<Tick>
    requires |c.chans| > 0
  {
    Burst(env.f, 0, Command(CC, 1.0, c.chans[0].cell.chem.vMaxMv, 600), _ => now, 4)
  }

  lemma StartDrives(env: Env, c: Chassis, chem: Chem, now: real)
    requires Booted(c, chem, now) && |c.chans| > 0 && env.f.Lawful()
    ensures Wired(c) && Driving(Run(env, c, Start(env, c, now)), now, now)
  {
    assert NewCell(chem).chem == chem;
    hide Run, Follows, NewCell, Ready;
    BootIsReady(c, chem, now, 0);
    ReadyIsWired(c, 0);
    var cmd := Command(CC, 1.0, c.chans[0].cell.chem.vMaxMv, 600);
    var es := Start(env, c, now);
    BurstFrame(env, c, cmd, now, 4);
    BurstFollows(env.f, es, 0, cmd, 0, 4);
    assert env.f.Round(0.0) == 0.0;
    ReachedAtStart(env.f, c, 0, cmd);
    SendRefinesCommand(env, c, es, 0, cmd, 0, 4);
    assert CHASSIS_WATCHDOG_KICK in c.regs.Keys;
    assert Reached(env.f, DeskOf(env.f, Run(env, c, es), 0), cmd, 4);
  }

  lemma {:induction false} AllAtOnce(env: Env, w: Watch, i: nat, p: real, q: real, es: seq<Tick>)
    requires Wired(w.c) && i < |w.c.chans| && p >= 0.0 && q >= 0.0 && w.safetyAt == w.chassisAt == w.now
    requires forall k | 0 <= k < |es| :: es[k].now == w.now && es[k].action.WriteRegs?
    ensures Timely(env, w, i, p, q, es)
    ensures var v := ObserveAll(env, w, i, es);
            && v.now == v.safetyAt == v.chassisAt == w.now && v.c == Run(env, w.c, es)
            && (w.activeSince == w.now ==> v.activeSince == w.now)
    decreases es
  {
    hide Perform;
    if es != [] {
      StepKeepsWired(env, w.c, es[0].action, es[0].now);
      AllAtOnce(env, Observe(env, w, i, es[0]), i, p, q, es[1..]);
    }
  }

  lemma StartRuns(env: Env, c: Chassis, chem: Chem, now: real, p: real, q: real)
    requires Booted(c, chem, now) && |c.chans| > 0 && env.f.Lawful() && p >= 0.0 && q >= 0.0
    ensures Wired(c) && Timely(env, BootWatch(c, now), 0, p, q, Start(env, c, now))
    ensures Watched(ObserveAll(env, BootWatch(c, now), 0, Start(env, c, now)), now, now, now, now, now)
  {
    hide Run, Driving, Booted;
    StartDrives(env, c, chem, now);
    AllAtOnce(env, BootWatch(c, now), 0, p, q, Start(env, c, now));
  }

  // ---- The bounds are attained ---------------------------------------------------------------------

  /** From every boot: a channel can be driven with a kick exactly one threshold and one safety
      period old, although the safety body has run in time throughout. */
  lemma ChannelBoundIsAttained(env: Env, c: Chassis, chem: Chem, now: real, p: real, q: real)
      returns (es: seq<Tick>, t: real)
    requires Booted(c, chem, now) && |c.chans| > 0 && env.f.Lawful()
    requires 0.0 < p <= q && env.channelThreshold >= 0.0 && env.chassisThreshold >= 0.0
    ensures Wired(c) && Timely(env, BootWatch(c, now), 0, p, q, es)
    ensures var end := ObserveAll(env, BootWatch(c, now), 0, es);
            && InTime(end, p, q, t) && end.c.chans[0].mode != Idle
            && t - end.c.chans[0].lastKick == env.channelThreshold + p
  {
    hide Driving, Booted, Start, Timely, ObserveAll;
    StartRuns(env, c, chem, now, p, q);
    var w := ObserveAll(env, BootWatch(c, now), 0, Start(env, c, now));
    var beats := BeatFor(env, w, Beat(false, true, true), env.channelThreshold, now, now, p, q);
    TimelyAppend(env, BootWatch(c, now), 0, p, q, Start(env, c, now), beats);
    es, t := Start(env, c, now) + beats, now + env.channelThreshold + p;
    DrivenKick(ObserveAll(env, BootWatch(c, now), 0, es).c, now, now + env.channelThreshold);
  }

  lemma DrivenKick(c: Chassis, k: real, ck: real)
    requires Driving(c, k, ck)
    ensures 0 < |c.chans| && c.chans[0].mode != Idle && c.chans[0].lastKick == k && c.kick.last == ck
  {
  }

  /** From every boot: a channel can be driven for a whole chassis period after its chassis kick has
      gone stale, although both bodies have run in time throughout. */
  lemma ChassisBoundIsAttained(env: Env, c: Chassis, chem: Chem, now: real, p: real, q: real)
      returns (es: seq<Tick>, t: real)
    requires Booted(c, chem, now) && |c.chans| > 0 && env.f.Lawful()
    requires 0.0 < p <= q && env.channelThreshold >= 0.0 && env.chassisThreshold >= 0.0
    ensures Wired(c) && Timely(env, BootWatch(c, now), 0, p, q, es)
    ensures var end := ObserveAll(env, BootWatch(c, now), 0, es);
            && InTime(end, p, q, t) && end.c.chans[0].mode != Idle
            && t - Max(end.activeSince, end.c.kick.last + env.chassisThreshold) == q
  {
    hide Driving, Booted, Start, Timely, ObserveAll;
    StartRuns(env, c, chem, now, p, q);
    var w := ObserveAll(env, BootWatch(c, now), 0, Start(env, c, now));
    var beats := BeatFor(env, w, Beat(true, false, true), env.chassisThreshold, now, now, p, q);
    TimelyAppend(env, BootWatch(c, now), 0, p, q, Start(env, c, now), beats);
    var first, stale := Start(env, c, now) + beats, now + env.chassisThreshold;
    var v := ObserveAll(env, BootWatch(c, now), 0, first);
    var alone := BeatFor(env, v, Beat(true, false, false), q, stale, now, p, q);
    TimelyAppend(env, BootWatch(c, now), 0, p, q, first, alone);
    es, t := first + alone, stale + q;
    DrivenKick(ObserveAll(env, BootWatch(c, now), 0, es).c, t, now);
  }

  // ---- The code's own numbers ------------------------------------------------------------------------

  const THRESHOLD := 5.0
  const SAFETY_PERIOD := 0.01   // simulated seconds
  const CHASSIS_PERIOD := 0.1   // simulated seconds

  lemma QuotientBound(x: real, f: real, y: real)
    requires f > 0.0 && y > 0.0
    ensures x / f <= y <==> x <= y * f
  {
    var r := x / f;
    assert x == r * f;
    if r <= y {
      assert r * f <= y * f;
    } else {
      assert (r - y) * f > 0.0;
      assert (r - y) * f == r * f - y * f;
    }
  }

  predicate WithinHalfASecond(w: Watch, i: nat, t: real)
    requires i < |w.c.chans|
  {
    w.c.chans[i].mode != Idle ==>
      t - w.c.chans[i].lastKick <= 5.5 && t - Max(w.activeSince, w.c.kick.last + 5.0) <= 0.5
  }

  ghost predicate BootedAt(c: Chassis, now: real) {
    exists chem :: Booted(c, chem, now)
  }

  /** Whatever the chassis that boots, the timely run and the moment: a driven channel was kicked at
      most 5.5 s ago, and driven under a chassis kick more than 5 s old for at most half a second. */
  ghost predicate Prompt(env: Env, p: real, q: real) {
    forall c: Chassis, now: real, i: nat, es: seq<Tick>, t: real |
      Reaches(env, c, now, i, p, q, es, t) :: WithinHalfASecond(ObserveAll(env, BootWatch(c, now), i, es), i, t)
  }

  ghost predicate Reaches(env: Env, c: Chassis, now: real, i: nat, p: real, q: real, es: seq<Tick>, t: real) {
    && BootedAt(c, now) && Wired(c) && i < |c.chans|
    && Timely(env, BootWatch(c, now), i, p, q, es)
    && InTime(ObserveAll(env, BootWatch(c, now), i, es), p, q, t)
  }

  /** With the code's thresholds and periods the dead-man is prompt in every run from every boot if
      and only if simulated time runs at a fifth of real time or faster. */
  lemma PromptExactly(env: Env, timeFactor: real)
    requires timeFactor > 0.0 && env.f.Lawful() && env.channelThreshold == THRESHOLD == env.chassisThreshold
    ensures Prompt(env, SAFETY_PERIOD / timeFactor, CHASSIS_PERIOD / timeFactor) <==> timeFactor >= 0.2
  {
    hide Prompt;
    var p, q := SAFETY_PERIOD / timeFactor, CHASSIS_PERIOD / timeFactor;
    PeriodsOf(timeFactor, p, q);
    if timeFactor >= 0.2 {
      PromptWhenFast(env, p, q);
    } else {
      NotPromptWhenSlow(env, p, q);
    }
  }

  lemma NotPromptWhenSlow(env: Env, p: real, q: real)
    requires env.f.Lawful() && env.channelThreshold == THRESHOLD == env.chassisThreshold && 0.0 < p <= q && q > 0.5
    ensures !Prompt(env, p, q)
  {
    hide Reaches, WithinHalfASecond, ObserveAll;
    var c, es, t := LateWhenSlow(env, p, q);
    ReachesIsTyped(env, c, 0.0, 0, p, q, es, t);
    assert !WithinHalfASecond(ObserveAll(env, BootWatch(c, 0.0), 0, es), 0, t);
  }

  lemma ReachesIsTyped(env: Env, c: Chassis, now: real, i: nat, p: real, q: real, es: seq<Tick>, t: real)
    requires Reaches(env, c, now, i, p, q, es, t)
    ensures Wired(c) && i < |c.chans|
  {
  }

  lemma LateWhenSlow(env: Env, p: real, q: real) returns (c: Chassis, es: seq<Tick>, t: real)
    requires env.f.Lawful() && env.channelThreshold == THRESHOLD == env.chassisThreshold && 0.0 < p <= q && q > 0.5
    ensures Reaches(env, c, 0.0, 0, p, q, es, t)
    ensures !WithinHalfASecond(ObserveAll(env, BootWatch(c, 0.0), 0, es), 0, t)
  {
    hide Booted, Timely, ObserveAll, SmallChassis;
    c := SmallChassis(0.0);
    SmallChassisBoots(0.0);
    es, t := ChassisBoundIsAttained(env, c, NMC, 0.0, p, q);
  }

  lemma PeriodsOf(f: real, p: real, q: real)
    requires f > 0.0 && p == SAFETY_PERIOD / f && q == CHASSIS_PERIOD / f
    ensures 0.0 < p <= q && (q <= 0.5 <==> f >= 0.2)
  {
    QuotientBound(CHASSIS_PERIOD, f, 0.5);
    DivideMonotone(SAFETY_PERIOD, CHASSIS_PERIOD, f);
    assert p * f == SAFETY_PERIOD;
  }

  lemma PromptWhenFast(env: Env, p: real, q: real)
    requires env.channelThreshold == THRESHOLD == env.chassisThreshold && 0.0 < p <= q <= 0.5
    ensures Prompt(env, p, q)
  {
    hide ObserveAll, Timely, Booted;
    forall c: Chassis, now: real, i: nat, es: seq<Tick>, t: real | Reaches(env, c, now, i, p, q, es, t)
      ensures WithinHalfASecond(ObserveAll(env, BootWatch(c, now), i, es), i, t)
    {
      BootIsFreshHere(env, c, now, i);
      DeadManBound(env, BootWatch(c, now), i, p, q, es, t);
    }
  }

  lemma BootIsFreshHere(env: Env, c: Chassis, now: real, i: nat)
    requires BootedAt(c, now) && Wired(c) && i < |c.chans|
    ensures Fresh(env, BootWatch(c, now), i)
  {
    hide NewCell;
    BootIsFresh(env, c, now, i);
  }
}
