/**
 The two dead-man timers in wall time: how stale the last kick of a driven channel can get when
 the safety body runs at least every p seconds and the chassis body at least every q seconds,
 over every interleaving with everything else that happens on the chassis.
 */
module DeadMan {
  import opened Prelude
  import opened Models
  import opened Chemistry
  import opened CellModel
  import opened Registers
  import opened ChassisModel
  import opened ChassisProofs

  /** A chassis with the times its two watch bodies last ran, and when channel i last left idle. */
  datatype Watch = Watch(c: Chassis, now: real, safetyAt: real, chassisAt: real, activeSince: real)

  /** Neither body is overdue at time t. */
  predicate InTime(w: Watch, p: real, q: real, t: real) {
    w.now <= t <= w.safetyAt + p && t <= w.chassisAt + q
  }

  function Observe(env: Env, w: Watch, i: nat, e: Tick): Watch
    requires Wired(w.c) && i < |w.c.chans|
  {
    StepKeepsWired(env, w.c, e.action, e.now);
    var next := Perform(env, w.c, e.action, e.now);
    Watch(next, e.now,
          if e.action == SafetyTick(i) then e.now else w.safetyAt,
          if e.action == ChassisTick then e.now else w.chassisAt,
          if w.c.chans[i].mode == Idle && next.chans[i].mode != Idle then e.now else w.activeSince)
  }

  function ObserveAll(env: Env, w: Watch, i: nat, es: seq<Tick>): (end: Watch)
    requires Wired(w.c) && i < |w.c.chans|
    ensures Wired(end.c) && |end.c.chans| == |w.c.chans|
    decreases es
  {
    if es == [] then w
    else
      StepKeepsWired(env, w.c, es[0].action, es[0].now);
      ObserveAll(env, Observe(env, w, i, es[0]), i, es[1..])
  }

  ghost predicate Timely(env: Env, w: Watch, i: nat, p: real, q: real, es: seq<Tick>)
    requires Wired(w.c) && i < |w.c.chans|
    decreases es
  {
    es != [] ==>
      && InTime(w, p, q, es[0].now)
      && (StepKeepsWired(env, w.c, es[0].action, es[0].now);
          Timely(env, Observe(env, w, i, es[0]), i, p, q, es[1..]))
  }

  // ---- The invariant ----------------------------------------------------------------------------

  ghost predicate Fresh(env: Env, w: Watch, i: nat) {
    && Orderly(w.c) && i < |w.c.chans|
    && w.safetyAt <= w.now && w.chassisAt <= w.now
    && var ch := w.c.chans[i];
    && (ch.mode != Idle ==> ch.lastKick >= w.safetyAt - env.channelThreshold)
    && (ch.mode != Idle ==> w.c.kick.last >= w.chassisAt - env.chassisThreshold || w.activeSince >= w.chassisAt)
  }

  /** A driven channel was kicked at `now`, or was driven before with the same last kick. */
  predicate KickedSince(before: Chan, after: Chan, now: real) {
    after.mode != Idle ==>
      after.lastKick == now || (before.mode != Idle && after.lastKick == before.lastKick)
  }

  lemma {:induction false} WriteKicks(f: F32, c: Chassis, addr: nat, n: nat, now: real, i: nat)
    requires Wired(c) && i < |c.chans|
    ensures var v := DispatchAll(f, c, addr, n, now);
            && |v.chans| == |c.chans| && KickedSince(c.chans[i], v.chans[i], now)
            && (v.kick.last == c.kick.last || v.kick.last == now)
    decreases n
  {
    hide DecodeF32;
    if n > 0 {
      DispatchFrame(f, c, addr, now);
      WriteKicks(f, Dispatch(f, c, addr, now), addr + 1, n - 1, now, i);
    }
  }

  lemma StepKicks(env: Env, c: Chassis, a: Action, now: real, i: nat)
    requires Orderly(c) && i < |c.chans|
    ensures |Perform(env, c, a, now).chans| == |c.chans|
    ensures var v := Perform(env, c, a, now);
            && KickedSince(c.chans[i], v.chans[i], now)
            && (v.kick.last == c.kick.last || v.kick.last == now)
            && (a == SafetyTick(i) && v.chans[i].mode != Idle ==> now - v.chans[i].lastKick <= env.channelThreshold)
            && (a == ChassisTick && v.chans[i].mode != Idle ==> now - v.kick.last <= env.chassisThreshold)
  {
    hide ReadState, CellModel.Step, DesiredCurrent;
    StepKeepsWired(env, c, a, now);
    match a
    case WriteRegs(addr, values) =>
      WriteKicks(env.f, c.(regs := Store(c.regs, addr, values)), addr, |values|, now, i);
    case _ =>
  }

  lemma StepKeepsFresh(env: Env, w: Watch, i: nat, p: real, q: real, e: Tick)
    requires Fresh(env, w, i) && InTime(w, p, q, e.now)
    requires env.channelThreshold >= 0.0 && env.chassisThreshold >= 0.0
    ensures Fresh(env, Observe(env, w, i, e), i)
  {
    hide Perform;
    StepKicks(env, w.c, e.action, e.now, i);
    StepKeepsOrder(env, w.c, e.action, e.now);
  }

  /** Over every timely run and at every moment t before the next body is overdue: a driven
      channel was kicked at most threshold + p ago, and it has been driven with a stale chassis
      kick for at most q. */
  lemma {:induction false} DeadManBound(env: Env, w: Watch, i: nat, p: real, q: real, es: seq<Tick>, t: real)
    requires Fresh(env, w, i) && Timely(env, w, i, p, q, es)
    requires env.channelThreshold >= 0.0 && env.chassisThreshold >= 0.0
    requires InTime(ObserveAll(env, w, i, es), p, q, t)
    ensures var end := ObserveAll(env, w, i, es);
            end.c.chans[i].mode != Idle ==>
              && t - end.c.chans[i].lastKick <= env.channelThreshold + p
              && t - Max(end.activeSince, end.c.kick.last + env.chassisThreshold) <= q
    decreases es
  {
    hide Observe, InTime;
    if es == [] {
      AtDeadline(env, w, i, p, q, t);
    } else {
      StepKeepsFresh(env, w, i, p, q, es[0]);
      DeadManBound(env, Observe(env, w, i, es[0]), i, p, q, es[1..], t);
    }
  }

  lemma AtDeadline(env: Env, w: Watch, i: nat, p: real, q: real, t: real)
    requires Fresh(env, w, i) && InTime(w, p, q, t)
    ensures w.c.chans[i].mode != Idle ==>
              && t - w.c.chans[i].lastKick <= env.channelThreshold + p
              && t - Max(w.activeSince, w.c.kick.last + env.chassisThreshold) <= q
  {
  }

  /** At boot every channel is idle and both bodies are about to run. */
  lemma BootIsFresh(env: Env, c: Chassis, now: real, i: nat)
    requires Orderly(c) && i < |c.chans| && c.chans[i].mode == Idle
    ensures Fresh(env, Watch(c, now, now, now, now), i)
  {
  }

  // ---- An orchestrator that is gone ----------------------------------------------------------------

  /** No register is written after that moment. */
  ghost predicate SilentAfter(es: seq<Tick>, gone: real) {
    forall k | 0 <= k < |es| && es[k].action.WriteRegs? :: es[k].now <= gone
  }

  lemma {:induction false} TimerStands(env: Env, w: Watch, i: nat, es: seq<Tick>, gone: real)
    requires Wired(w.c) && i < |w.c.chans| && w.c.chans[i].lastKick <= gone && SilentAfter(es, gone)
    ensures ObserveAll(env, w, i, es).c.chans[i].lastKick <= gone
    decreases es
  {
    hide Perform;
    if es != [] {
      StepMovesTimer(env, w.c, es[0].action, es[0].now, i);
      StepKeepsWired(env, w.c, es[0].action, es[0].now);
      TimerStands(env, Observe(env, w, i, es[0]), i, es[1..], gone);
    }
  }

  /** The last resort: whatever the channel was doing when the last register write arrived, it is idle
      and at 0 A a threshold and a safety period later, over every timely run. */
  lemma OrchestratorGone(env: Env, w: Watch, i: nat, p: real, q: real, es: seq<Tick>, gone: real, t: real)
    requires Fresh(env, w, i) && Timely(env, w, i, p, q, es)
    requires env.channelThreshold >= 0.0 && env.chassisThreshold >= 0.0
    requires w.c.chans[i].lastKick <= gone && SilentAfter(es, gone)
    requires InTime(ObserveAll(env, w, i, es), p, q, t) && t > gone + env.channelThreshold + p
    ensures var ch := ObserveAll(env, w, i, es).c.chans[i];
            ch.mode == Idle && Undriven(ch)
  {
    hide ObserveAll, Timely, InTime;
    DeadManBound(env, w, i, p, q, es, t);
    TimerStands(env, w, i, es, gone);
  }

  // ---- Limits ------------------------------------------------------------------------------------

  /** What makes a safety body halt a channel apart from the dead-man. */
  predicate OverLimits(ch: Chan)
    requires Sound(ch.cell.chem)
  {
    var s := ReadState(ch.cell);
    Trunc(s.voltage * 1000.0) > ch.vMax || Trunc(s.tempC * 10.0) > ch.tMax || s.latched != NoError
  }

  /** As long as channel i is unlatched, its reading is over the limits in force. */
  ghost predicate OverThroughout(env: Env, w: Watch, i: nat, es: seq<Tick>)
    requires Wired(w.c) && i < |w.c.chans|
    decreases es
  {
    && (w.c.chans[i].latched == NoError ==> OverLimits(w.c.chans[i]))
    && (es != [] ==>
          (StepKeepsWired(env, w.c, es[0].action, es[0].now);
           OverThroughout(env, Observe(env, w, i, es[0]), i, es[1..])))
  }

  lemma LatchStays(env: Env, c: Chassis, a: Action, now: real, i: nat)
    requires Orderly(c) && i < |c.chans| && c.chans[i].latched != NoError && !SwapsChemistry(c, a)
    ensures |Perform(env, c, a, now).chans| == |c.chans| && Perform(env, c, a, now).chans[i].latched != NoError
  {
    hide ReadState, CellModel.Step;
    StepKeepsWired(env, c, a, now);
    if a.WriteRegs? {
      WriteLatch(env.f, c, a.addr, a.values, now, i);
    }
  }

  lemma SafetyTickTrips(env: Env, c: Chassis, now: real, i: nat)
    requires Wired(c) && i < |c.chans| && (c.chans[i].latched == NoError ==> OverLimits(c.chans[i]))
    ensures Perform(env, c, SafetyTick(i), now).chans[i].latched != NoError
  {
    if c.chans[i].latched == NoError {
      SafetyBodyExactly(c.chans[i], now, env.channelThreshold);
    }
  }

  /** A breach of the limits never outlasts one period: over every timely run in which the reading of
      channel i stays over the limits in force for longer than p, the channel ends latched - parked
      and at 0 A - unless its cell was swapped. */
  lemma {:induction false} BreachTrips(env: Env, w: Watch, i: nat, p: real, q: real, es: seq<Tick>,
                                       since: real, t: real)
    requires Orderly(w.c) && i < |w.c.chans| && Timely(env, w, i, p, q, es)
    requires w.c.chans[i].latched != NoError || w.safetyAt <= since
    requires OverThroughout(env, w, i, es) && !SwapsIn(env, w.c, es)
    requires InTime(ObserveAll(env, w, i, es), p, q, t) && t > since + p
    ensures var ch := ObserveAll(env, w, i, es).c.chans[i];
            ch.latched != NoError && ch.mode == Idle && forall voltage: real :: DesiredCurrent(ch, voltage) == 0.0
    decreases es
  {
    hide Perform, SwapsChemistry, OverLimits;
    if es != [] {
      var a, now := es[0].action, es[0].now;
      StepKeepsOrder(env, w.c, a, now);
      if a == SafetyTick(i) {
        SafetyTickTrips(env, w.c, now, i);
      } else if w.c.chans[i].latched != NoError {
        LatchStays(env, w.c, a, now, i);
      }
      BreachTrips(env, Observe(env, w, i, es[0]), i, p, q, es[1..], since, t);
    }
  }
}
