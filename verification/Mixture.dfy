/**
 A command replaced by another, write by write: when is a channel ever active with a mixture of
 the two, such as the new setpoint in the old mode or under the old limits?
 */
module Mixture {
  import opened Prelude
  import opened Models
  import opened Registers
  import opened ChassisModel
  import opened ChassisProofs
  import opened SendCommand
  import opened Glitch

  /** The registers say what the channel does. */
  predicate Coherent(d: Desk) {
    d.rMode == ModeWord(d.mode) && d.rSp == d.sp && d.rV == d.vMax && d.rT == d.tMax
  }

  predicate Active(d: Desk) {
    d.latched == NoError && !Quiet(d.mode)
  }

  function Present(d: Desk): Command {
    Command(d.mode, d.sp, d.vMax, d.tMax)
  }

  function Requested(f: F32, cmd: Command): Command {
    cmd.(setpoint := f.Round(cmd.setpoint))
  }

  predicate SameSetpoint(x: real, y: real) {
    Abs(x - y) <= TOLERANCE
  }

  /** The channel runs this command as a whole. */
  predicate InForce(d: Desk, cmd: Command) {
    d.mode == cmd.mode && SameSetpoint(d.sp, cmd.setpoint) && d.vMax == cmd.vMax && d.tMax == cmd.tMax
  }

  /** In how many of its four parts one command differs from another. */
  function Changes(a: Command, b: Command): nat {
    (if a.mode != b.mode then 1 else 0) + (if SameSetpoint(a.setpoint, b.setpoint) then 0 else 1)
    + (if a.vMax != b.vMax then 1 else 0) + (if a.tMax != b.tMax then 1 else 0)
  }

  /** Whatever is interleaved and however far the writes have got: if the channel is active, it
      runs the whole old command or the whole new one. */
  ghost predicate NeverMixed(env: Env, c: Chassis, i: nat, cmd: Command)
    requires Ready(c, i)
  {
    forall es: seq<Tick>, upTo: nat | Follows(env.f, es, i, cmd, 0, upTo) ::
      WholeOrParked(DeskOf(env.f, Run(env, c, es), i), Present(DeskOf(env.f, c, i)), Requested(env.f, cmd))
  }

  predicate WholeOrParked(v: Desk, was: Command, wanted: Command) {
    Active(v) ==> InForce(v, was) || InForce(v, wanted)
  }

  // ---- One change at a time ----------------------------------------------------------------------

  /** Each part, in the channel and in its registers, is the old one or the new one. */
  predicate Between(v: Desk, a: Command, b: Command) {
    v.latched == NoError ==>
      && (v.mode == a.mode || v.mode == b.mode) && (v.sp == a.setpoint || v.sp == b.setpoint)
      && (v.vMax == a.vMax || v.vMax == b.vMax) && (v.tMax == a.tMax || v.tMax == b.tMax)
      && (v.rMode == ModeWord(a.mode) || v.rMode == ModeWord(b.mode)) && (v.rSp == a.setpoint || v.rSp == b.setpoint)
      && (v.rV == a.vMax || v.rV == b.vMax) && (v.rT == a.tMax || v.rT == b.tMax)
  }

  lemma StaysBetween(f: F32, d: Desk, v: Desk, a: Command, cmd: Command, k: nat)
    requires v == d || v == MirroredDesk(f, d) || HaltedFrom(d, v) || v == Written(f, d, cmd, k)
    requires f.Round(a.setpoint) == a.setpoint && f.Round(f.Round(cmd.setpoint)) == f.Round(cmd.setpoint)
    requires Between(d, a, Requested(f, cmd))
    ensures Between(v, a, Requested(f, cmd))
  {
    hide F32.Round;
  }

  lemma {:induction false} RunStaysBetween(env: Env, c: Chassis, es: seq<Tick>, i: nat, a: Command, cmd: Command,
                                           k: nat, upTo: nat)
    requires Ready(c, i) && env.f.Lawful() && Follows(env.f, es, i, cmd, k, upTo)
    requires env.f.Round(a.setpoint) == a.setpoint
    requires Between(DeskOf(env.f, c, i), a, Requested(env.f, cmd))
    ensures Between(DeskOf(env.f, Run(env, c, es), i), a, Requested(env.f, cmd))
    decreases es
  {
    hide Perform, WriteNo, Noise, MirroredDesk, Written, Between, F32.Round, DecodeF32;
    SetpointWords(env.f, cmd.setpoint, 0, 0);
    if es != [] {
      var e := es[0];
      var next := Perform(env, c, e.action, e.now);
      if Noise(i, e.action) && Follows(env.f, es[1..], i, cmd, k, upTo) {
        NoiseMoves(env, c, e.action, e.now, i);
        StaysBetween(env.f, DeskOf(env.f, c, i), DeskOf(env.f, next, i), a, cmd, k);
        RunStaysBetween(env, next, es[1..], i, a, cmd, k, upTo);
      } else {
        WriteMoves(env, c, cmd, k, e.now, i);
        StaysBetween(env.f, DeskOf(env.f, c, i), DeskOf(env.f, next, i), a, cmd, k);
        RunStaysBetween(env, next, es[1..], i, a, cmd, k + 1, upTo);
      }
    }
  }

  lemma OneChangeIsWhole(v: Desk, a: Command, b: Command)
    requires Between(v, a, b) && Changes(a, b) <= 1
    ensures WholeOrParked(v, a, b)
  {
  }

  // ---- More than one change ----------------------------------------------------------------------

  /** After how many writes an old and a new part are first in force together. */
  function FirstMixture(a: Command, b: Command): nat {
    if !SameSetpoint(a.setpoint, b.setpoint) then 1 else if a.vMax != b.vMax then 2 else 3
  }

  lemma TwoChangesMix(f: F32, d: Desk, cmd: Command)
    requires Coherent(d) && Active(d) && Changes(Present(d), Requested(f, cmd)) >= 2
    ensures var n := FirstMixture(Present(d), Requested(f, cmd));
            !WholeOrParked(WrittenAll(f, d, cmd, n), Present(d), Requested(f, cmd))
  {
    hide F32.Round;
    var d1 := Written(f, d, cmd, 0);
    var d2 := Written(f, d1, cmd, 1);
    var d3 := Written(f, d2, cmd, 2);
    assert WrittenAll(f, d, cmd, 0) == d && WrittenAll(f, d, cmd, 1) == d1;
    assert WrittenAll(f, d, cmd, 2) == d2 && WrittenAll(f, d, cmd, 3) == d3;
  }

  /** The new setpoint is in force at once, in the old mode and under the old limits: at constant
      current an unlatched channel drives it before any other part of the command arrives. */
  lemma NewSetpointUnderOldModeAndLimits(env: Env, c: Chassis, i: nat, cmd: Command, now: real)
    requires Ready(c, i) && env.f.Lawful() && Coherent(DeskOf(env.f, c, i)) && c.chans[i].latched == NoError
    ensures var v := Perform(env, c, WriteNo(env.f, i, cmd, 0), now);
            && Ready(v, i)
            && var ch, was, goal := v.chans[i], c.chans[i], env.f.Round(cmd.setpoint);
            && ch.mode == was.mode && ch.vMax == was.vMax && ch.tMax == was.tMax
            && ch.setpoint == (if SameSetpoint(was.setpoint, goal) then was.setpoint else goal)
            && (was.mode == CC ==> forall voltage: real :: DesiredCurrent(ch, voltage) == ch.setpoint)
  {
    hide F32.Round, DecodeF32, WriteNo, Perform;
    WriteMoves(env, c, cmd, 0, now, i);
    var v := DeskOf(env.f, Perform(env, c, WriteNo(env.f, i, cmd, 0), now), i);
    assert v == Written(env.f, DeskOf(env.f, c, i), cmd, 0);
  }

  /** From coherent registers: no interleaving ever runs a mixture of the old and the new command
      on an active channel if and only if the channel is latched, idle or at rest, or the two
      commands differ in at most one part. */
  lemma NeverMixedExactly(env: Env, c: Chassis, i: nat, cmd: Command)
    requires Ready(c, i) && env.f.Lawful() && Representable(env.f, c) && Coherent(DeskOf(env.f, c, i))
    ensures var d := DeskOf(env.f, c, i);
            NeverMixed(env, c, i, cmd) <==> !Active(d) || Changes(Present(d), Requested(env.f, cmd)) <= 1
  {
    hide F32.Round, DecodeF32, Run, Follows, Changes, WholeOrParked, Ready;
    ReadyIsWired(c, i);
    var d := DeskOf(env.f, c, i);
    if Active(d) && Changes(Present(d), Requested(env.f, cmd)) >= 2 {
      var n := FirstMixture(Present(d), Requested(env.f, cmd));
      var es := Burst(env.f, i, cmd, k => 0.0, n);
      BurstFollows(env.f, es, i, cmd, 0, n);
      BurstMoves(env, c, i, cmd, k => 0.0, n);
      TwoChangesMix(env.f, d, cmd);
    } else {
      forall es: seq<Tick>, upTo: nat | Follows(env.f, es, i, cmd, 0, upTo)
        ensures WholeOrParked(DeskOf(env.f, Run(env, c, es), i), Present(d), Requested(env.f, cmd))
      {
        if Active(d) {
          RunStaysBetween(env, c, es, i, Present(d), cmd, 0, upTo);
          OneChangeIsWhole(DeskOf(env.f, Run(env, c, es), i), Present(d), Requested(env.f, cmd));
        } else {
          ParkedStaysWhole(env, c, es, i, cmd, upTo);
        }
      }
    }
  }

  /** A channel that is not active is parked until the mode write, which completes the command. */
  lemma ParkedStaysWhole(env: Env, c: Chassis, es: seq<Tick>, i: nat, cmd: Command, upTo: nat)
    requires Ready(c, i) && env.f.Lawful() && Representable(env.f, c) && Follows(env.f, es, i, cmd, 0, upTo)
    requires Coherent(DeskOf(env.f, c, i)) && !Active(DeskOf(env.f, c, i))
    ensures WholeOrParked(DeskOf(env.f, Run(env, c, es), i), Present(DeskOf(env.f, c, i)), Requested(env.f, cmd))
  {
    hide F32.Round, DecodeF32, Run, Follows, Ready, Representable;
    ReadyIsWired(c, i);
    AtMostFour(env.f, es, i, cmd, 0, upTo);
    if upTo < 4 {
      CalmUntilMode(env, c, es, i, cmd, 0, upTo);
    } else if Run(env, c, es).chans[i].latched == NoError {
      ReachedAtStart(env.f, c, i, cmd);
      SendRefinesCommand(env, c, es, i, cmd, 0, upTo);
    }
  }
}
