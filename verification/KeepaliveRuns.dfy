/** The keepalive and the chassis together: a run that receives the sweeps' kicks is never halted by
    the channel's dead-man. */
module KeepaliveRuns {
  import opened Prelude
  import opened Models
  import opened CellModel
  import opened Registers
  import opened ChassisModel
  import opened ChassisProofs
  import opened SendCommand
  import K = Keepalive

  /** Wall time does not run backwards. */
  ghost predicate InOrder(es: seq<Tick>, start: real) {
    && (forall k | 0 <= k < |es| :: start <= es[k].now)
    && (forall j, k | 0 <= j < k < |es| :: es[j].now <= es[k].now)
  }

  function KickOf(i: nat): Action {
    WriteRegs(Reg(i, WATCHDOG_KICK), [1])
  }

  lemma {:induction false} TimerNotBefore(env: Env, c: Chassis, es: seq<Tick>, i: nat, start: real)
    requires Wired(c) && i < |c.chans| && c.chans[i].lastKick >= start && InOrder(es, start)
    ensures Run(env, c, es).chans[i].lastKick >= start
    decreases es
  {
    hide Perform;
    if es != [] {
      StepMovesTimer(env, c, es[0].action, es[0].now, i);
      StepKeepsWired(env, c, es[0].action, es[0].now);
      TimerNotBefore(env, Perform(env, c, es[0].action, es[0].now), es[1..], i, start);
    }
  }

  /** A kick in a run counts from its time on. */
  lemma {:induction false} KickCounts(env: Env, c: Chassis, es: seq<Tick>, i: nat, j: nat, start: real)
    requires Ready(c, i) && InOrder(es, start) && j < |es| && es[j].action == KickOf(i)
    ensures Wired(c) && Run(env, c, es).chans[i].lastKick >= es[j].now
    decreases j
  {
    hide Perform, Ready;
    ReadyIsWired(c, i);
    var next := Perform(env, c, es[0].action, es[0].now);
    ReadyStays(env, c, es[0].action, es[0].now, i);
    ReadyIsWired(next, i);
    if j == 0 {
      KickIsTaken(env, c, i, es[0].now);
      TimerNotBefore(env, next, es[1..], i, es[0].now);
    } else {
      KickCounts(env, next, es[1..], i, j - 1, start);
    }
  }

  lemma KickIsTaken(env: Env, c: Chassis, i: nat, now: real)
    requires Ready(c, i)
    ensures i < |Perform(env, c, KickOf(i), now).chans| && Perform(env, c, KickOf(i), now).chans[i].lastKick == now
  {
    KickResetsTimer(env, c, i, now);
  }

  // ---- The sweeps' kicks in a run ------------------------------------------------------------------

  function KickIn(s: K.Sweep, e: K.Exp): Option<real> {
    if e.chassis in s.kicks then K.KickTime(s.kicks[e.chassis], e.channel) else None
  }

  /** Every kick that these sweeps have landed by the time of event k is among the events before it. */
  ghost predicate Delivered(es: seq<Tick>, k: nat, i: nat, sweeps: seq<K.Sweep>, e: K.Exp)
    requires k < |es|
  {
    forall s | s in sweeps && KickIn(s, e).Some? && KickIn(s, e).value <= es[k].now ::
      Tick(KickOf(i), KickIn(s, e).value) in es[..k]
  }

  lemma {:induction false} LastKickIs(sweeps: seq<K.Sweep>, e: K.Exp, last: real, t: real)
    ensures var at := K.LastKick(sweeps, e, last, t);
            at == last || exists s | s in sweeps :: KickIn(s, e) == Some(at) && at <= t
    decreases sweeps
  {
    if sweeps != [] {
      var at := KickIn(sweeps[0], e);
      var next := if at.Some? && at.value <= t then at.value else last;
      LastKickIs(sweeps[1..], e, next, t);
      assert sweeps[0] in sweeps && forall s | s in sweeps[1..] :: s in sweeps;
    }
  }

  lemma TimerKeepsUp(env: Env, c: Chassis, es: seq<Tick>, k: nat, i: nat, sweeps: seq<K.Sweep>, e: K.Exp, last: real)
    requires Ready(c, i) && InOrder(es, last) && c.chans[i].lastKick >= last
    requires k < |es| && Delivered(es, k, i, sweeps, e)
    ensures Wired(c) && Run(env, c, es[..k]).chans[i].lastKick >= K.LastKick(sweeps, e, last, es[k].now)
  {
    hide Ready, Run;
    ReadyIsWired(c, i);
    var at := K.LastKick(sweeps, e, last, es[k].now);
    LastKickIs(sweeps, e, last, es[k].now);
    if at == last {
      TimerNotBefore(env, c, es[..k], i, last);
    } else {
      var s :| s in sweeps && KickIn(s, e) == Some(at) && at <= es[k].now;
      var j :| 0 <= j < k && es[..k][j] == Tick(KickOf(i), at);
      KickCounts(env, c, es[..k], i, j, last);
    }
  }

  /** No false trips, on the chassis: in any run that receives the kicks of the sweeps, mixed with
      anything else, no safety body ever finds the channel's dead-man expired, so none halts it with a
      watchdog timeout. */
  lemma NoFalseTripInRun(env: Env, c: Chassis, es: seq<Tick>, i: nat, sweeps: seq<K.Sweep>, known: set<int>, e: K.Exp,
                         n: nat, l: real, pause: real, last: real, joined: real, delay: real, k: nat)
    requires l >= 0.0 && pause >= 0.0 && K.Swept(e, known) && K.Cadence(sweeps, known, Part(l, n as real), pause)
    requires sweeps != [] && sweeps[0].start < joined && last <= joined <= last + delay
    requires forall j | K.FirstAfter(sweeps, joined) <= j < |sweeps| :: K.Reaches(sweeps[j], e)
    requires delay + 2.0 * Part(l, n as real) + pause <= env.channelThreshold
    requires Ready(c, i) && c.chans[i].lastKick >= last && InOrder(es, last)
    requires k < |es| && es[k].action == SafetyTick(i) && es[k].now <= sweeps[|sweeps| - 1].end + pause
    requires Delivered(es, k, i, sweeps[K.FirstAfter(sweeps, joined)..], e)
    ensures Wired(c)
    ensures var before, after := Run(env, c, es[..k]).chans[i], Run(env, c, es[..k + 1]).chans[i];
            && !WatchdogExpired(before, es[k].now, env.channelThreshold)
            && (after.latched == WatchdogTimeout ==>
                  before.latched == WatchdogTimeout || before.cell.latched == WatchdogTimeout)
  {
    hide Ready, K.Cadence, K.FirstAfter, Delivered, K.Reaches, Part, Run, SafetyBody, K.LastKick;
    ReadyIsWired(c, i);
    var mine := sweeps[K.FirstAfter(sweeps, joined)..];
    var was := Run(env, c, es[..k]);
    TimerKeepsUp(env, c, es, k, i, mine, e, last);
    K.NoFalseTrip(sweeps, known, e, n, l, pause, last, joined, delay, es[k].now, was.chans[i], env.channelThreshold);
    assert es[..k + 1] == es[..k] + [es[k]];
    RunOneMore(env, c, es[..k], es[k]);
    NoTimeout(env, was, es[k].now, i);
  }

  lemma NoTimeout(env: Env, c: Chassis, now: real, i: nat)
    requires Wired(c) && i < |c.chans| && !WatchdogExpired(c.chans[i], now, env.channelThreshold)
    ensures var before, after := c.chans[i], Perform(env, c, SafetyTick(i), now).chans[i];
            after.latched == WatchdogTimeout ==>
              before.latched == WatchdogTimeout || before.cell.latched == WatchdogTimeout
  {
    var ch := c.chans[i];
    if ch.latched == NoError {
      SafetyBodyExactly(ch, now, env.channelThreshold);
      CellSays(ch.cell);
    }
  }

  lemma CellSays(cell: Cell)
    requires CellOk(cell)
    ensures ReadState(cell).latched == cell.latched
  {
  }
}
