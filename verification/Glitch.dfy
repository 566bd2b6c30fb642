/** Activation without a glitch: when the control law is silent while a command is being sent. */
module Glitch {
  import opened Prelude
  import opened Models
  import opened Registers
  import opened ChassisModel
  import opened ChassisProofs
  import opened SendCommand

  predicate Quiet(m: Mode) {
    m == Idle || m == Rest
  }

  /** Latched, or at idle or rest with a MODE register that says idle or rest too. */
  predicate Calm(d: Desk) {
    d.latched != NoError || (Quiet(d.mode) && Quiet(WordMode(d.rMode)))
  }

  lemma CalmStays(f: F32, d: Desk, v: Desk, cmd: Command, k: nat)
    requires v == d || v == MirroredDesk(f, d) || HaltedFrom(d, v) || (k < 3 && v == Written(f, d, cmd, k))
    requires Calm(d)
    ensures Calm(v)
  {
    hide F32.Round;
  }

  lemma {:induction false} CalmUntilMode(env: Env, c: Chassis, es: seq<Tick>, i: nat, cmd: Command, k: nat, upTo: nat)
    requires Ready(c, i) && env.f.Lawful() && Follows(env.f, es, i, cmd, k, upTo) && upTo < 4
    requires Calm(DeskOf(env.f, c, i))
    ensures Calm(DeskOf(env.f, Run(env, c, es), i))
    decreases es
  {
    hide Perform, WriteNo, Noise, MirroredDesk, Written, Calm;
    if es != [] {
      var e := es[0];
      var next := Perform(env, c, e.action, e.now);
      if Noise(i, e.action) && Follows(env.f, es[1..], i, cmd, k, upTo) {
        NoiseMoves(env, c, e.action, e.now, i);
        CalmStays(env.f, DeskOf(env.f, c, i), DeskOf(env.f, next, i), cmd, k);
        CalmUntilMode(env, next, es[1..], i, cmd, k, upTo);
      } else {
        FollowsForward(env.f, es[1..], i, cmd, k + 1, upTo);
        WriteMoves(env, c, cmd, k, e.now, i);
        CalmStays(env.f, DeskOf(env.f, c, i), DeskOf(env.f, next, i), cmd, k);
        CalmUntilMode(env, next, es[1..], i, cmd, k + 1, upTo);
      }
    }
  }

  lemma {:induction false} FollowsForward(f: F32, es: seq<Tick>, i: nat, cmd: Command, k: nat, upTo: nat)
    requires Follows(f, es, i, cmd, k, upTo)
    ensures k <= upTo
    decreases es
  {
    hide WriteNo, Noise;
    if es != [] {
      if Noise(i, es[0].action) && Follows(f, es[1..], i, cmd, k, upTo) {
        FollowsForward(f, es[1..], i, cmd, k, upTo);
      } else {
        FollowsForward(f, es[1..], i, cmd, k + 1, upTo);
      }
    }
  }

  /** From idle or rest: 0 A in every intermediate state, and once the channel is driven at all it
      is driven with the requested mode, setpoint and both limits. */
  lemma ActivationIsGlitchFree(env: Env, c: Chassis, es: seq<Tick>, i: nat, cmd: Command, upTo: nat)
    requires Ready(c, i) && env.f.Lawful() && Representable(env.f, c) && Follows(env.f, es, i, cmd, 0, upTo)
    requires Calm(DeskOf(env.f, c, i))
    ensures !Undriven(Run(env, c, es).chans[i]) ==>
              upTo == 4 && Reached(env.f, DeskOf(env.f, Run(env, c, es), i), cmd, 4)
  {
    hide Run, Follows, Reached, Representable;
    var end := Run(env, c, es).chans[i];
    if upTo < 4 {
      CalmUntilMode(env, c, es, i, cmd, 0, upTo);
    } else if end.latched == NoError {
      AtMostFour(env.f, es, i, cmd, 0, upTo);
      ReachedAtStart(env.f, c, i, cmd);
      SendRefinesCommand(env, c, es, i, cmd, 0, upTo);
    }
  }

  lemma {:induction false} AtMostFour(f: F32, es: seq<Tick>, i: nat, cmd: Command, k: nat, upTo: nat)
    requires Follows(f, es, i, cmd, k, upTo) && k <= 4
    ensures upTo <= 4
    decreases es
  {
    hide WriteNo, Noise;
    if es != [] {
      if Noise(i, es[0].action) && Follows(f, es[1..], i, cmd, k, upTo) {
        AtMostFour(f, es[1..], i, cmd, k, upTo);
      } else {
        AtMostFour(f, es[1..], i, cmd, k + 1, upTo);
      }
    }
  }

  // ---- Only from idle or rest ------------------------------------------------------------------------

  /** From the first write on, no interleaving of the writes before the mode drives the channel. */
  ghost predicate Silent(env: Env, c: Chassis, i: nat, cmd: Command)
    requires Ready(c, i)
  {
    forall es: seq<Tick>, upTo: nat | Follows(env.f, es, i, cmd, 0, upTo) && 0 < upTo < 4 ::
      Undriven(Run(env, c, es).chans[i])
  }

  lemma DrivesWith(ch: Chan)
    requires ch.latched == NoError && !Quiet(ch.mode) && (ch.mode == CV || ch.setpoint != 0.0)
    ensures !Undriven(ch)
  {
    if ch.mode == CV {
      assert DesiredCurrent(ch, ch.setpoint + 1.0) == 6.0;
    } else {
      assert DesiredCurrent(ch, 1.0) != 0.0;
    }
  }

  lemma FirstWriteDrives(f: F32, d: Desk, cmd: Command)
    requires !Calm(d) && f.Round(d.sp) == d.sp && Abs(f.Round(cmd.setpoint)) > TOLERANCE
    ensures var v := Written(f, if Quiet(d.mode) then d else MirroredDesk(f, d), cmd, 0);
            && v.latched == NoError && !Quiet(v.mode) && v.sp != 0.0
            && v.mode == (if Quiet(d.mode) then WordMode(d.rMode) else d.mode)
            && Abs(v.sp - f.Round(cmd.setpoint)) <= TOLERANCE
  {
    hide F32.Round;
  }

  /** The new setpoint under the old mode: one mirror tick and the first write, nothing else. */
  lemma OldModeDrivesNewSetpoint(env: Env, c: Chassis, i: nat, cmd: Command) returns (es: seq<Tick>)
    requires Ready(c, i) && env.f.Lawful() && Representable(env.f, c)
    requires !Calm(DeskOf(env.f, c, i)) && Abs(env.f.Round(cmd.setpoint)) > TOLERANCE
    ensures Follows(env.f, es, i, cmd, 0, 1) && !Undriven(Run(env, c, es).chans[i])
    ensures var d, v := DeskOf(env.f, c, i), DeskOf(env.f, Run(env, c, es), i);
            && v.mode == (if Quiet(d.mode) then WordMode(d.rMode) else d.mode)
            && Abs(v.sp - env.f.Round(cmd.setpoint)) <= TOLERANCE
  {
    hide F32.Round, Follows, DecodeF32, Written, Perform, Run;
    var f := env.f;
    var first := Tick(WriteNo(f, i, cmd, 0), 0.0);
    FirstWriteDrives(f, DeskOf(f, c, i), cmd);
    if Quiet(c.chans[i].mode) {
      es := [first];
      FirstWrite(env, c, i, cmd);
      WriteMoves(env, c, cmd, 0, 0.0, i);
    } else {
      es := [Tick(MirrorTick, 0.0), first];
      AfterMirror(env, c, i);
      var next := Perform(env, c, MirrorTick, 0.0);
      FirstWrite(env, next, i, cmd);
      MirrorFirst(env, c, i, cmd);
      WriteMoves(env, next, cmd, 0, 0.0, i);
    }
    DrivesWith(Run(env, c, es).chans[i]);
  }

  lemma AfterMirror(env: Env, c: Chassis, i: nat)
    requires Ready(c, i) && env.f.Lawful()
    ensures var next := Perform(env, c, MirrorTick, 0.0);
            Ready(next, i) && DeskOf(env.f, next, i) == MirroredDesk(env.f, DeskOf(env.f, c, i))
  {
    ReadyStays(env, c, MirrorTick, 0.0, i);
    MirrorDesk(env.f, c, i);
  }

  lemma FirstWrite(env: Env, c: Chassis, i: nat, cmd: Command)
    requires Wired(c)
    ensures var es := [Tick(WriteNo(env.f, i, cmd, 0), 0.0)];
            && Follows(env.f, es, i, cmd, 0, 1)
            && Run(env, c, es) == Perform(env, c, WriteNo(env.f, i, cmd, 0), 0.0)
  {
    hide WriteNo, Perform;
    var es := [Tick(WriteNo(env.f, i, cmd, 0), 0.0)];
    assert es[1..] == [];
    assert Follows(env.f, es[1..], i, cmd, 1, 1);
    StepKeepsWired(env, c, es[0].action, es[0].now);
    assert Run(env, Perform(env, c, es[0].action, es[0].now), es[1..]) == Perform(env, c, es[0].action, es[0].now);
  }

  lemma MirrorFirst(env: Env, c: Chassis, i: nat, cmd: Command)
    requires Ready(c, i) && env.f.Lawful()
    ensures var first := Tick(WriteNo(env.f, i, cmd, 0), 0.0);
            var es := [Tick(MirrorTick, 0.0), first];
            && Wired(Perform(env, c, MirrorTick, 0.0))
            && Follows(env.f, es, i, cmd, 0, 1)
            && Run(env, c, es) == Run(env, Perform(env, c, MirrorTick, 0.0), [first])
  {
    hide Perform, WriteNo;
    var first := Tick(WriteNo(env.f, i, cmd, 0), 0.0);
    var es := [Tick(MirrorTick, 0.0), first];
    AfterMirror(env, c, i);
    FirstWrite(env, Perform(env, c, MirrorTick, 0.0), i, cmd);
    assert es[1..] == [first];
  }

  /** Sending any non-zero setpoint is silent up to the mode write exactly from a calm desk. */
  lemma SilentExactlyWhenCalm(env: Env, c: Chassis, i: nat, cmd: Command)
    requires Ready(c, i) && env.f.Lawful() && Representable(env.f, c)
    requires Abs(env.f.Round(cmd.setpoint)) > TOLERANCE
    ensures Silent(env, c, i, cmd) <==> Calm(DeskOf(env.f, c, i))
  {
    hide F32.Round, Follows, Representable, Reached, Undriven, Run;
    if Calm(DeskOf(env.f, c, i)) {
      forall es: seq<Tick>, upTo: nat | Follows(env.f, es, i, cmd, 0, upTo) && 0 < upTo < 4
        ensures Undriven(Run(env, c, es).chans[i])
      {
        ActivationIsGlitchFree(env, c, es, i, cmd, upTo);
      }
    } else {
      var es := OldModeDrivesNewSetpoint(env, c, i, cmd);
    }
  }
}
