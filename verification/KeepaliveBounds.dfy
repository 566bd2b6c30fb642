/**
 The keepalive's bound is sharp on a live chassis: for every smaller threshold there are sweeps,
 no slower than the bound assumes, under which a channel's dead-man halts it.
 */
module KeepaliveBounds {
  import opened Prelude
  import opened Models
  import opened Chemistry
  import opened CellModel
  import opened Registers
  import opened ChassisModel
  import opened ChassisProofs
  import opened ChassisBoot
  import opened SendCommand
  import opened DeadManBounds
  import opened KeepaliveRuns
  import K = Keepalive

  ghost predicate OnChassis(landings: seq<K.Landing>, n: nat) {
    forall k | 0 <= k < |landings| :: 0 <= landings[k].channel < n
  }

  /** What a chassis receives of these kicks by time t. */
  function KicksBy(landings: seq<K.Landing>, n: nat, t: real): seq<Tick>
    requires OnChassis(landings, n)
    decreases landings
  {
    if landings == [] then []
    else
      var x := landings[0];
      (if x.ok && x.at <= t then [Tick(KickOf(x.channel), x.at)] else []) + KicksBy(landings[1..], n, t)
  }

  ghost predicate Ascending(landings: seq<K.Landing>, lo: real) {
    && (forall k | 0 <= k < |landings| :: lo <= landings[k].at)
    && (forall j, k | 0 <= j < k < |landings| :: landings[j].at <= landings[k].at)
  }

  lemma {:induction false} KicksInOrder(landings: seq<K.Landing>, n: nat, lo: real, t: real)
    requires OnChassis(landings, n) && Ascending(landings, lo)
    ensures InOrder(KicksBy(landings, n, t), lo) && forall e | e in KicksBy(landings, n, t) :: e.now <= t
    decreases landings
  {
    if landings != [] {
      KicksInOrder(landings[1..], n, landings[0].at, t);
    }
  }

  lemma {:induction false} KickIsReceived(landings: seq<K.Landing>, n: nat, channel: nat, t: real)
    requires OnChassis(landings, n)
    requires K.KickTime(landings, channel).Some? && K.KickTime(landings, channel).value <= t
    ensures Tick(KickOf(channel), K.KickTime(landings, channel).value) in KicksBy(landings, n, t)
    decreases landings
  {
    if landings[0].channel != channel || !landings[0].ok {
      KickIsReceived(landings[1..], n, channel, t);
    }
  }

  lemma OrderedConcat(a: seq<Tick>, b: seq<Tick>, start: real, mid: real)
    requires InOrder(a, start) && InOrder(b, mid) && start <= mid && forall e | e in a :: e.now <= mid
    ensures InOrder(a + b, start)
  {
    forall j, k | 0 <= j < k < |a + b| ensures (a + b)[j].now <= (a + b)[k].now {
      if j < |a| <= k { assert a[j] in a; }
    }
  }

  lemma {:induction false} ReceivedIsKick(landings: seq<K.Landing>, n: nat, t: real, e: Tick)
    requires OnChassis(landings, n) && e in KicksBy(landings, n, t)
    ensures exists x | x in landings :: x.ok && x.channel >= 0 && e == Tick(KickOf(x.channel), x.at)
    decreases landings
  {
    var x := landings[0];
    assert x in landings && forall y | y in landings[1..] :: y in landings;
    if !(x.ok && x.at <= t && e == Tick(KickOf(x.channel), x.at)) {
      ReceivedIsKick(landings[1..], n, t, e);
    }
  }

  /** A rack's kicks: in order, one for each channel, the last for channel 0. */
  ghost predicate RackKicks(landings: seq<K.Landing>, n: nat, start: real) {
    && OnChassis(landings, n) && Ascending(landings, start)
    && (forall x | x in landings :: K.KickTime(landings, x.channel) == Some(x.at))
  }

  lemma RackLands(a: K.Attempt, n: nat, start: real)
    requires a.ok && 0.0 <= a.lands <= a.took
    ensures RackKicks(K.Lands(K.Downto(n), K.Copies(a, n), start), n, start)
  {
    hide Part, K.KickTime, K.Took;
    var landings := K.Lands(K.Downto(n), K.Copies(a, n), start);
    forall j, k | 0 <= j <= k < n
      ensures start <= landings[j].at <= landings[k].at && landings[k].channel == n - 1 - k
    {
      K.LandsInOrder(a, n, start, j, k);
    }
    forall x | x in landings ensures K.KickTime(landings, x.channel) == Some(x.at) {
      var k :| 0 <= k < n && landings[k] == x;
      K.KickTimeAt(landings, x.channel, k);
    }
  }

  // ---- The chassis under these kicks ---------------------------------------------------------------

  ghost predicate AllReady(c: Chassis, n: nat) {
    forall i | 0 <= i < n :: Ready(c, i)
  }

  lemma KickDrives(env: Env, c: Chassis, n: nat, i: nat, k: real, ck: real, t: real)
    requires Driving(c, k, ck) && AllReady(c, n) && i < n
    ensures Wired(c)
    ensures var v := Perform(env, c, KickOf(i), t);
            Driving(v, if i == 0 then t else k, ck) && AllReady(v, n)
  {
    hide Perform, NewCell;
    ReadyIsWired(c, 0);
    var v := Perform(env, c, KickOf(i), t);
    forall j | 0 <= j < n ensures Ready(v, j) { ReadyStays(env, c, KickOf(i), t, j); }
    ReadyStays(env, c, KickOf(i), t, 0);
    KeysStay(env, c, KickOf(i), t);
    KickHits(env, c, i, t);
    assert CHASSIS_WATCHDOG_KICK in c.regs.Keys;
  }

  lemma KickHits(env: Env, c: Chassis, i: nat, t: real)
    requires Ready(c, i)
    ensures Wired(c)
    ensures var v := Perform(env, c, KickOf(i), t);
            v.chans == c.chans[i := c.chans[i].(lastKick := t)] && v.kick == c.kick
  {
    KickResetsTimer(env, c, i, t);
  }

  lemma {:induction false} KicksDrive(env: Env, c: Chassis, n: nat, landings: seq<K.Landing>,
                                      k: real, ck: real, t: real)
    requires Driving(c, k, ck) && AllReady(c, n) && OnChassis(landings, n)
    requires forall j | 0 <= j < |landings| && landings[j].channel == 0 && landings[j].at <= t :: landings[j].at == k
    ensures Wired(c)
    ensures var v := Run(env, c, KicksBy(landings, n, t)); Driving(v, k, ck) && AllReady(v, n)
    decreases landings
  {
    hide Driving, AllReady, Perform, Wired;
    DrivenIsWired(c, k, ck);
    if landings != [] {
      var x := landings[0];
      if x.ok && x.at <= t {
        KickDrives(env, c, n, x.channel, k, ck, x.at);
        var v := Perform(env, c, KickOf(x.channel), x.at);
        DrivenIsWired(v, k, ck);
        KicksDrive(env, v, n, landings[1..], k, ck, t);
        assert KicksBy(landings, n, t)[1..] == KicksBy(landings[1..], n, t);
      } else {
        KicksDrive(env, c, n, landings[1..], k, ck, t);
        assert KicksBy(landings, n, t) == KicksBy(landings[1..], n, t);
      }
    }
  }

  /** A channel within its limits whose kick is too old is halted for just that. */
  lemma StaleTrips(env: Env, c: Chassis, k: real, ck: real, t: real)
    requires Driving(c, k, ck) && t - k > env.channelThreshold
    ensures Wired(c) && c.chans[0].latched == NoError
    ensures Perform(env, c, SafetyTick(0), t).chans[0].latched == WatchdogTimeout
  {
    KnownAreSound(c.chans[0].cell.chem);
    NewCellReads(c.chans[0].cell.chem);
    hide NewCell, ReadState;
    SafetyBodyExactly(c.chans[0], t, env.channelThreshold);
  }

  // ---- The witness ---------------------------------------------------------------------------------

  lemma {:induction false} RunConcat(env: Env, c: Chassis, a: seq<Tick>, b: seq<Tick>)
    requires Wired(c)
    ensures Run(env, c, a + b) == Run(env, Run(env, c, a), b)
    decreases a
  {
    hide Perform;
    if a == [] {
      assert a + b == b;
    } else {
      StepKeepsWired(env, c, a[0].action, a[0].now);
      assert (a + b)[1..] == a[1..] + b;
      RunConcat(env, Perform(env, c, a[0].action, a[0].now), a[1..], b);
    }
  }

  lemma {:induction false} StaysReady(env: Env, c: Chassis, es: seq<Tick>, i: nat)
    requires Ready(c, i)
    ensures Wired(c) && Ready(Run(env, c, es), i)
    decreases es
  {
    hide Perform, Ready;
    ReadyIsWired(c, i);
    if es != [] {
      ReadyStays(env, c, es[0].action, es[0].now, i);
      StaysReady(env, Perform(env, c, es[0].action, es[0].now), es[1..], i);
    }
  }

  lemma StartReadies(env: Env, c: Chassis, chem: Chem, n: nat)
    requires Booted(c, chem, 0.0) && 0 < n <= |c.chans| && env.f.Lawful()
    ensures Wired(c)
    ensures var v := Run(env, c, Start(env, c, 0.0)); Driving(v, 0.0, 0.0) && AllReady(v, n)
  {
    hide Ready, Driving, Start, Run, Booted;
    StartDrives(env, c, chem, 0.0);
    forall i | 0 <= i < n ensures Ready(Run(env, c, Start(env, c, 0.0)), i) {
      BootIsReady(c, chem, 0.0, i);
      StaysReady(env, c, Start(env, c, 0.0), i);
    }
  }

  /** The channel is put to work at 0.0, the kicks that have landed by t arrive, and the safety body
      runs. */
  function Received(env: Env, c: Chassis, a: seq<K.Landing>, b: seq<K.Landing>, n: nat, t: real): seq<Tick>
    requires |c.chans| > 0 && OnChassis(a, n) && OnChassis(b, n)
  {
    Start(env, c, 0.0) + KicksBy(a, n, t) + KicksBy(b, n, t) + [Tick(SafetyTick(0), t)]
  }

  lemma ReceivedTrips(env: Env, c: Chassis, chem: Chem, a: seq<K.Landing>, b: seq<K.Landing>, n: nat, t: real)
    requires Booted(c, chem, 0.0) && 0 < n <= |c.chans| && env.f.Lawful() && OnChassis(a, n) && OnChassis(b, n)
    requires forall x | x in a + b && x.channel == 0 && x.at <= t :: x.at == 0.0
    requires t > env.channelThreshold
    ensures Wired(c)
    ensures var es := Received(env, c, a, b, n, t);
            && Run(env, c, es[..|es| - 1]).chans[0].latched == NoError
            && Run(env, c, es).chans[0].latched == WatchdogTimeout
  {
    hide Booted, Driving, AllReady, Run, KicksBy, Start, Perform;
    StartReadies(env, c, chem, n);
    var s0, s1, s2 := Start(env, c, 0.0), KicksBy(a, n, t), KicksBy(b, n, t);
    assert forall k | 0 <= k < |a| :: a[k] in a + b;
    assert forall k | 0 <= k < |b| :: b[k] in a + b;
    RunConcat(env, c, s0, s1);
    RunConcat(env, c, s0 + s1, s2);
    KicksDrive(env, Run(env, c, s0), n, a, 0.0, 0.0, t);
    KicksDrive(env, Run(env, c, s0 + s1), n, b, 0.0, 0.0, t);
    var last := Tick(SafetyTick(0), t);
    RunOneMore(env, c, s0 + s1 + s2, last);
    StaleTrips(env, Run(env, c, s0 + s1 + s2), 0.0, 0.0, t);
    assert (s0 + s1 + s2 + [last])[..|s0 + s1 + s2|] == s0 + s1 + s2;
  }

  lemma StartInOrder(env: Env, c: Chassis)
    requires |c.chans| > 0
    ensures InOrder(Start(env, c, 0.0), 0.0) && forall e | e in Start(env, c, 0.0) :: e.now <= 0.0
    ensures forall e, i: nat | e in Start(env, c, 0.0) :: e.action != KickOf(i)
  {
  }

  lemma ReceivedInOrder(env: Env, c: Chassis, a: seq<K.Landing>, b: seq<K.Landing>, n: nat, mid: real, t: real)
    requires |c.chans| > 0 && OnChassis(a, n) && OnChassis(b, n) && Ascending(a, 0.0) && Ascending(b, mid)
    requires (forall x | x in a :: x.at == 0.0) && 0.0 <= mid && 0.0 <= t
    ensures InOrder(Received(env, c, a, b, n, t), 0.0)
  {
    hide Start, KicksBy, InOrder, Ascending;
    var s0, s1, s2 := Start(env, c, 0.0), KicksBy(a, n, t), KicksBy(b, n, t);
    StartInOrder(env, c);
    KicksInOrder(a, n, 0.0, t);
    KicksInOrder(b, n, mid, t);
    forall e | e in s1 ensures e.now <= 0.0 { ReceivedIsKick(a, n, t, e); }
    OrderedConcat(s0, s1, 0.0, 0.0);
    OrderedFrom(s2, 0.0, mid);
    OrderedConcat(s0 + s1, s2, 0.0, 0.0);
    OrderedOne(Tick(SafetyTick(0), t));
    OrderedConcat(s0 + s1 + s2, [Tick(SafetyTick(0), t)], 0.0, t);
  }

  lemma OrderedFrom(es: seq<Tick>, start: real, mid: real)
    requires InOrder(es, mid) && start <= mid
    ensures InOrder(es, start)
  {
  }

  lemma OrderedOne(e: Tick)
    ensures InOrder([e], e.now)
  {
  }

  /** The run receives the kicks of these sweeps that have landed by its last event, and no others. */
  ghost predicate ReceivesExactly(es: seq<Tick>, i: nat, sweeps: seq<K.Sweep>, e: K.Exp) {
    && es != [] && Delivered(es, |es| - 1, i, sweeps, e)
    && forall k | 0 <= k < |es| && es[k].action == KickOf(i) ::
         exists s | s in sweeps :: KickIn(s, e) == Some(es[k].now)
  }

  lemma ReceivedExactly(env: Env, c: Chassis, sweeps: seq<K.Sweep>, e: K.Exp, n: nat, mid: real, t: real, i: nat)
    requires |c.chans| > 0 && |sweeps| == 2 && e.chassis in sweeps[0].kicks && e.chassis in sweeps[1].kicks
    requires RackKicks(sweeps[0].kicks[e.chassis], n, 0.0) && RackKicks(sweeps[1].kicks[e.chassis], n, mid)
    requires e.channel == i < n
    ensures var es := Received(env, c, sweeps[0].kicks[e.chassis], sweeps[1].kicks[e.chassis], n, t);
            ReceivesExactly(es, i, sweeps, e)
  {
    hide Start, KicksBy, K.KickTime, Ascending;
    var a, b := sweeps[0].kicks[e.chassis], sweeps[1].kicks[e.chassis];
    var s0, s1, s2 := Start(env, c, 0.0), KicksBy(a, n, t), KicksBy(b, n, t);
    var es := Received(env, c, a, b, n, t);
    assert es[..|es| - 1] == s0 + s1 + s2;
    if K.KickTime(a, i).Some? && K.KickTime(a, i).value <= t { KickIsReceived(a, n, i, t); }
    if K.KickTime(b, i).Some? && K.KickTime(b, i).value <= t { KickIsReceived(b, n, i, t); }
    StartInOrder(env, c);
    assert sweeps[0] in sweeps && sweeps[1] in sweeps;
    forall k | 0 <= k < |es| && es[k].action == KickOf(i)
      ensures exists s | s in sweeps :: KickIn(s, e) == Some(es[k].now)
    {
      assert es[k] in s0 || es[k] in s1 || es[k] in s2;
      if es[k] in s1 { KickIsItsOwn(a, n, t, es[k], i); }
      if es[k] in s2 { KickIsItsOwn(b, n, t, es[k], i); }
    }
  }

  lemma KickIsItsOwn(landings: seq<K.Landing>, n: nat, t: real, e: Tick, i: nat)
    requires OnChassis(landings, n) && e in KicksBy(landings, n, t) && e.action == KickOf(i)
    requires forall x | x in landings :: K.KickTime(landings, x.channel) == Some(x.at)
    ensures K.KickTime(landings, i) == Some(e.now)
  {
    ReceivedIsKick(landings, n, t, e);
    var x :| x in landings && x.ok && x.channel >= 0 && e == Tick(KickOf(x.channel), x.at);
    assert Reg(x.channel, WATCHDOG_KICK) == Reg(i, WATCHDOG_KICK);
  }

  /** The bound is sharp: whatever the chassis that boots and however little its threshold is below two
      sweeps and a pause, there are two sweeps of n running channels a chassis, with kicks of at most l
      and a whole pause between, and a run of that chassis that receives exactly their kicks, whose
      safety body halts channel 0 for its dead-man. */
  lemma AnySmallerThresholdTrips(env: Env, chassis: Chassis, chem: Chem, known: set<int>, c: int, d: int,
                                 n: nat, l: real, pause: real)
      returns (sweeps: seq<K.Sweep>, going: seq<map<int, seq<K.Attempt>>>, es: seq<Tick>)
    requires Booted(chassis, chem, 0.0) && 0 < n <= |chassis.chans| && env.f.Lawful()
    requires c != d && c in known && d in known && l >= 0.0 && pause >= 0.0
    requires 0.0 <= env.channelThreshold < 2.0 * Part(l, n as real) + pause
    ensures |sweeps| == |going| == 2 && K.Cadence(sweeps, known, Part(l, n as real), pause)
    ensures forall k | 0 <= k < 2 ::
              && K.SweepOf(sweeps[k], known, going[k]) && K.Paced(sweeps[k].exps, known, going[k], n, l)
              && K.Reaches(sweeps[k], K.Exp(c, 0, true))
    ensures InOrder(es, 0.0) && sweeps[0].start == 0.0
    ensures forall i: nat | i < n :: ReceivesExactly(es, i, sweeps, K.Exp(c, i, true))
    ensures Wired(chassis) && es != [] && es[|es| - 1].action == SafetyTick(0) && es[|es| - 1].now <= sweeps[1].end
    ensures Run(env, chassis, es[..|es| - 1]).chans[0].latched == NoError
    ensures Run(env, chassis, es).chans[0].latched == WatchdogTimeout
  {
    hide Part, Booted, Run, InOrder, ReceivesExactly, Received, RackKicks, K.Lands, K.Cadence, K.SweepOf, K.Paced,
         K.Reaches, K.KickTime;
    var span := Part(l, n as real);
    PartNonNegative(l, n as real);
    sweeps, going := K.LateSweeps(c, d, n, l, pause), K.LateGoing(c, d, n, l);
    var t := (env.channelThreshold + 2.0 * span + pause) / 2.0;
    var a, b := sweeps[0].kicks[c], sweeps[1].kicks[c];
    K.KickComesLate(known, c, d, n, l, pause);
    RackLands(K.QUICK, n, 0.0);
    RackLands(K.Slow(l), n, span + pause);
    RackFacts(a, n, 0.0);
    RackFacts(b, n, span + pause);
    QuickLands(n);
    es := Received(env, chassis, a, b, n, t);
    ReceivedTrips(env, chassis, chem, a, b, n, t);
    ReceivedInOrder(env, chassis, a, b, n, span + pause, t);
    forall i: nat | i < n ensures ReceivesExactly(es, i, sweeps, K.Exp(c, i, true)) {
      ReceivedExactly(env, chassis, sweeps, K.Exp(c, i, true), n, span + pause, t, i);
    }
    ReceivedEnds(env, chassis, a, b, n, t);
  }

  lemma RackFacts(landings: seq<K.Landing>, n: nat, start: real)
    requires RackKicks(landings, n, start)
    ensures OnChassis(landings, n) && Ascending(landings, start)
    ensures forall x | x in landings && x.channel == 0 :: K.KickTime(landings, 0) == Some(x.at)
  {
  }

  lemma QuickLands(n: nat)
    ensures forall x | x in K.Lands(K.Downto(n), K.Copies(K.QUICK, n), 0.0) :: x.at == 0.0
  {
    forall k | 0 <= k < n ensures K.Lands(K.Downto(n), K.Copies(K.QUICK, n), 0.0)[k].at == 0.0 {
      K.LandsInOrder(K.QUICK, n, 0.0, k, k);
      K.NoTime(k);
    }
  }

  lemma ReceivedEnds(env: Env, c: Chassis, a: seq<K.Landing>, b: seq<K.Landing>, n: nat, t: real)
    requires |c.chans| > 0 && OnChassis(a, n) && OnChassis(b, n)
    ensures var es := Received(env, c, a, b, n, t); es != [] && es[|es| - 1] == Tick(SafetyTick(0), t)
  {
  }
}
