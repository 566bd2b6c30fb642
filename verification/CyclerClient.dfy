/** The client's side of a command: four writes in a row, any of which may fail to arrive. */
module CyclerClient {
  import opened Models
  import opened Registers
  import opened ChassisModel
  import opened ChassisProofs
  import opened SendCommand
  import Cycler

  class CyclerClient {
    const block: Cycler.ChassisDataBlock

    constructor (b: Cycler.ChassisDataBlock)
      ensures block == b
    {
      block := b;
    }

    /** Writes go out until one fails.  If all arrive and the channel is not latched, the command
        is in force. */
    method SendCommand(i: nat, cmd: Command, at: nat -> real, reaches: nat) returns (sent: nat)
      requires block.Valid()
      modifies block`store, block.channels, block.kick
      ensures block.Valid() && sent == if reaches < 4 then reaches else 4
      ensures block.View() == Run(block.env, old(block.View()), Burst(block.env.f, i, cmd, at, sent))
      ensures var c, f := old(block.View()), block.env.f;
              Ready(c, i) && f.Lawful() && Representable(f, c) && sent == 4
              && i < |block.View().chans| && block.View().chans[i].latched == NoError
              ==> Reached(f, DeskOf(f, block.View(), i), cmd, 4)
    {
      hide Run, Reached, Follows, Representable, Ready;
      ghost var c := block.View();
      ghost var f := block.env.f;
      NoWrites(block.env, c, i, cmd, at);
      sent := 0;
      while sent < 4 && sent < reaches
        invariant sent <= 4 && sent <= reaches && block.Valid()
        invariant block.View() == Run(block.env, c, Burst(f, i, cmd, at, sent))
      {
        ghost var w := WriteNo(f, i, cmd, sent);
        RunOneMore(block.env, c, Burst(f, i, cmd, at, sent), Tick(w, at(sent)));
        assert Burst(f, i, cmd, at, sent + 1) == Burst(f, i, cmd, at, sent) + [Tick(w, at(sent))];
        if sent == 0 {
          var hi, lo := EncodeHi(block.env.f, cmd.setpoint), EncodeLo(block.env.f, cmd.setpoint);
          block.SetValues(Reg(i, SETPOINT_HI), [hi, lo], at(0));
        } else if sent == 1 {
          block.SetValues(Reg(i, SAFETY_V_MAX_MV), [cmd.vMax], at(1));
        } else if sent == 2 {
          block.SetValues(Reg(i, SAFETY_T_MAX_DC), [cmd.tMax], at(2));
        } else {
          block.SetValues(Reg(i, MODE), [ModeWord(cmd.mode)], at(3));
        }
        sent := sent + 1;
      }
      CommandInForce(block.env, c, i, cmd, at, sent);
    }
  }

  lemma NoWrites(env: Env, c: Chassis, i: nat, cmd: Command, at: nat -> real)
    requires Wired(c)
    ensures Run(env, c, Burst(env.f, i, cmd, at, 0)) == c
  {
  }

  lemma CommandInForce(env: Env, c: Chassis, i: nat, cmd: Command, at: nat -> real, sent: nat)
    requires Wired(c)
    ensures var end := Run(env, c, Burst(env.f, i, cmd, at, sent));
            Ready(c, i) && env.f.Lawful() && Representable(env.f, c) && sent == 4
            && i < |end.chans| && end.chans[i].latched == NoError
            ==> Reached(env.f, DeskOf(env.f, end, i), cmd, 4)
  {
    hide Run, Reached, Follows, Representable;
    var es := Burst(env.f, i, cmd, at, sent);
    var end := Run(env, c, es);
    if Ready(c, i) && env.f.Lawful() && Representable(env.f, c) && sent == 4 && end.chans[i].latched == NoError {
      BurstFollows(env.f, es, i, cmd, 0, 4);
      ReachedAtStart(env.f, c, i, cmd);
      SendRefinesCommand(env, c, es, i, cmd, 0, 4);
    }
  }
}
