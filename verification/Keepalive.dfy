/**
 The keepalive path: sweeps that kick the dead-man of every running channel, chassis in parallel
 and channels of one chassis in turn, and why a channel they look after never trips.
 */
module Keepalive {
  import opened Prelude
  import opened ChassisModel
  import Models

  datatype Exp = Exp(chassis: int, channel: int, running: bool)

  /** How one kick went: when it reached the cycler and how long the client waited for it;
      a failed kick reaches nothing but still takes its time. */
  datatype Attempt = Attempt(ok: bool, lands: real, took: real)

  datatype Landing = Landing(channel: int, at: real, ok: bool)

  predicate Within(a: Attempt, l: real) {
    0.0 <= a.lands <= a.took <= l
  }

  // ---- Grouping -----------------------------------------------------------------------------------

  predicate Swept(e: Exp, known: set<int>) {
    e.running && e.chassis in known
  }

  /** The channels of one chassis a sweep has to kick, in the order of the experiments. */
  function Members(exps: seq<Exp>, known: set<int>, chassis: int): seq<int>
    decreases exps
  {
    if exps == [] then []
    else
      var init, e := exps[..|exps| - 1], exps[|exps| - 1];
      Members(init, known, chassis) + if Swept(e, known) && e.chassis == chassis then [e.channel] else []
  }

  lemma {:induction false} MembersComplete(exps: seq<Exp>, known: set<int>, e: Exp)
    requires e in exps && Swept(e, known)
    ensures e.channel in Members(exps, known, e.chassis)
    decreases exps
  {
    var init := exps[..|exps| - 1];
    if e != exps[|exps| - 1] {
      assert exps == init + [exps[|exps| - 1]];
      MembersComplete(init, known, e);
    }
  }

  /** Exactly the channels with a running experiment on that chassis, if it is reachable. */
  lemma {:induction false} MembersAreRunning(exps: seq<Exp>, known: set<int>, chassis: int, channel: int)
    ensures channel in Members(exps, known, chassis) <==> chassis in known && Exp(chassis, channel, true) in exps
    decreases exps
  {
    if exps != [] {
      MembersAreRunning(exps[..|exps| - 1], known, chassis, channel);
      assert exps == exps[..|exps| - 1] + [exps[|exps| - 1]];
    }
  }

  function RunningOn(exps: seq<Exp>, chassis: int): set<int> {
    set k | 0 <= k < |exps| && exps[k].running && exps[k].chassis == chassis
  }

  /** One kick for each of them. */
  lemma {:induction false} MembersCount(exps: seq<Exp>, known: set<int>, chassis: int)
    requires chassis in known
    ensures |Members(exps, known, chassis)| == |RunningOn(exps, chassis)|
    decreases exps
  {
    if exps == [] {
      assert RunningOn(exps, chassis) == {};
    } else {
      var n := |exps| - 1;
      MembersCount(exps[..n], known, chassis);
      assert RunningOn(exps, chassis)
             == RunningOn(exps[..n], chassis) + if exps[n].running && exps[n].chassis == chassis then {n} else {};
    }
  }

  ghost predicate Grouped(exps: seq<Exp>, known: set<int>, ids: seq<int>, groups: map<int, seq<int>>) {
    && (forall c: int :: c in groups <==> Members(exps, known, c) != [])
    && (forall c: int | c in groups :: groups[c] == Members(exps, known, c))
    && (forall c: int :: c in ids <==> c in groups)
    && forall j, k | 0 <= j < k < |ids| :: ids[j] != ids[k]
  }

  lemma MembersStep(exps: seq<Exp>, known: set<int>, k: nat, c: int)
    requires k < |exps|
    ensures Members(exps[..k + 1], known, c)
            == Members(exps[..k], known, c)
               + if Swept(exps[k], known) && exps[k].chassis == c then [exps[k].channel] else []
  {
    assert exps[..k + 1][..k] == exps[..k];
  }

  lemma GroupStep(exps: seq<Exp>, known: set<int>, k: nat, ids: seq<int>, groups: map<int, seq<int>>)
    requires k < |exps| && Grouped(exps[..k], known, ids, groups)
    ensures var e := exps[k];
            var joined := if e.chassis in groups then groups[e.chassis] + [e.channel] else [e.channel];
            if Swept(e, known) then
              Grouped(exps[..k + 1], known, if e.chassis in groups then ids else ids + [e.chassis],
                      groups[e.chassis := joined])
            else Grouped(exps[..k + 1], known, ids, groups)
  {
    hide Members;
    forall c: int { MembersStep(exps, known, k, c); }
  }

  /** The groups, and the chassis in the order they were first met. */
  method GroupByChassis(exps: seq<Exp>, known: set<int>) returns (ids: seq<int>, groups: map<int, seq<int>>)
    ensures Grouped(exps, known, ids, groups)
  {
    hide Grouped;
    ids, groups := [], map[];
    assert Grouped(exps[..0], known, ids, groups) by { NothingGrouped(exps, known); }
    for k := 0 to |exps|
      invariant Grouped(exps[..k], known, ids, groups)
    {
      var e := exps[k];
      GroupStep(exps, known, k, ids, groups);
      if e.running {
        if e.chassis in known {
          if e.chassis in groups {
            groups := groups[e.chassis := groups[e.chassis] + [e.channel]];
          } else {
            ids, groups := ids + [e.chassis], groups[e.chassis := [e.channel]];
          }
        }
      }
    }
    assert exps[..|exps|] == exps;
  }

  lemma NothingGrouped(exps: seq<Exp>, known: set<int>)
    ensures Grouped(exps[..0], known, [], map[])
  {
  }

  // ---- One chassis, one sweep ---------------------------------------------------------------------

  function Took(attempts: seq<Attempt>): real
    decreases attempts
  {
    if attempts == [] then 0.0 else Took(attempts[..|attempts| - 1]) + attempts[|attempts| - 1].took
  }

  /** Each kick starts when the one before it is over. */
  function Lands(channels: seq<int>, attempts: seq<Attempt>, start: real): seq<Landing>
    requires |channels| == |attempts|
  {
    seq(|channels|, k requires 0 <= k < |channels| =>
      Landing(channels[k], start + Took(attempts[..k]) + attempts[k].lands, attempts[k].ok))
  }

  /** Kick after kick; a failed one is skipped over. */
  method KickChassis(channels: seq<int>, start: real, attempts: seq<Attempt>)
      returns (landings: seq<Landing>, end: real)
    requires |attempts| == |channels|
    ensures landings == Lands(channels, attempts, start) && end == start + Took(attempts)
  {
    landings, end := [], start;
    for k := 0 to |channels|
      invariant landings == Lands(channels[..k], attempts[..k], start) && end == start + Took(attempts[..k])
    {
      var a := attempts[k];
      assert attempts[..k + 1][..k] == attempts[..k];
      assert forall j | 0 <= j < k :: attempts[..k + 1][..j] == attempts[..k][..j];
      landings := landings + [Landing(channels[k], end + a.lands, a.ok)];
      end := end + a.took;
    }
    assert channels[..|channels|] == channels && attempts[..|channels|] == attempts;
  }

  lemma {:induction false} TookBounds(attempts: seq<Attempt>, l: real)
    requires forall a | a in attempts :: Within(a, l)
    ensures 0.0 <= Took(attempts) <= Part(l, |attempts| as real)
    decreases attempts
  {
    var n := |attempts|;
    if n > 0 {
      var front := attempts[..n - 1];
      assert attempts[n - 1] in attempts && forall a | a in front :: a in attempts;
      TookBounds(front, l);
      assert Part(l, n as real) == Part(l, (n - 1) as real) + l;
    }
  }

  lemma {:induction false} TookGrows(attempts: seq<Attempt>, l: real, k: nat)
    requires k <= |attempts| && forall a | a in attempts :: Within(a, l)
    ensures Took(attempts[..k]) <= Took(attempts)
    decreases |attempts|
  {
    var n := |attempts|;
    if k < n {
      var front := attempts[..n - 1];
      assert attempts[n - 1] in attempts && forall a | a in front :: a in attempts;
      TookGrows(front, l, k);
      assert front[..k] == attempts[..k];
    } else {
      assert attempts[..k] == attempts;
    }
  }

  /** On one chassis every kick lands between the start and the end of its kicks. */
  lemma LandsWithin(channels: seq<int>, attempts: seq<Attempt>, start: real, l: real, k: nat)
    requires |channels| == |attempts| && k < |channels| && forall a | a in attempts :: Within(a, l)
    ensures start <= Lands(channels, attempts, start)[k].at <= start + Took(attempts)
  {
    assert attempts[k] in attempts && forall a | a in attempts[..k] :: a in attempts;
    TookBounds(attempts[..k], l);
    TookGrows(attempts, l, k + 1);
    assert attempts[..k + 1][..k] == attempts[..k];
  }

  /** All kicks of a sweep: by whom, when, and when the slowest chassis was through. */
  datatype Sweep = Sweep(exps: seq<Exp>, start: real, kicks: map<int, seq<Landing>>, end: real)

  /** What a sweep comes to, given how its kicks go: the chassis start together, and the sweep ends
      with the last of them. */
  ghost predicate SweepOf(s: Sweep, known: set<int>, attempts: map<int, seq<Attempt>>) {
    && (forall c: int :: c in s.kicks <==> Members(s.exps, known, c) != [])
    && (forall c: int | c in s.kicks ::
          && c in attempts && |attempts[c]| == |Members(s.exps, known, c)|
          && s.kicks[c] == Lands(Members(s.exps, known, c), attempts[c], s.start)
          && s.start + Took(attempts[c]) <= s.end)
    && (s.end == s.start || exists c: int :: c in s.kicks && s.end == s.start + Took(attempts[c]))
  }

  /** At most n channels a chassis, at most l a kick. */
  ghost predicate Paced(exps: seq<Exp>, known: set<int>, attempts: map<int, seq<Attempt>>, n: nat, l: real) {
    && l >= 0.0
    && forall c: int ::
         && |Members(exps, known, c)| <= n
         && (Members(exps, known, c) != [] ==>
               && c in attempts && |attempts[c]| == |Members(exps, known, c)|
               && forall a | a in attempts[c] :: Within(a, l))
  }

  ghost predicate Done(s: Sweep, known: set<int>, span: real) {
    && s.start <= s.end <= s.start + span
    && (forall c: int | c in s.kicks :: forall x | x in s.kicks[c] :: s.start <= x.at <= s.end)
    && forall e | e in s.exps && Swept(e, known) ::
         e.chassis in s.kicks && exists x | x in s.kicks[e.chassis] :: x.channel == e.channel
  }

  /** A sweep takes at most as long as the largest chassis at l a kick, and reaches every running
      channel in between. */
  lemma SweepIsDone(s: Sweep, known: set<int>, attempts: map<int, seq<Attempt>>, n: nat, l: real)
    requires SweepOf(s, known, attempts) && Paced(s.exps, known, attempts, n, l)
    ensures Done(s, known, Part(l, n as real))
  {
    hide Members, Part, Took, Lands;
    PartNonNegative(l, n as real);
    forall c: int | c in s.kicks
      ensures 0.0 <= Took(attempts[c]) <= Part(l, n as real)
      ensures forall x | x in s.kicks[c] :: s.start <= x.at <= s.end
    {
      ChassisIsDone(Members(s.exps, known, c), attempts[c], s.start, n, l);
    }
    forall e | e in s.exps && Swept(e, known)
      ensures e.chassis in s.kicks && exists x | x in s.kicks[e.chassis] :: x.channel == e.channel
    {
      MembersComplete(s.exps, known, e);
      LandsOn(Members(s.exps, known, e.chassis), attempts[e.chassis], s.start, e.channel);
    }
  }

  /** Whose dead-man a sweep feeds: every kick goes to a channel whose experiment is running, on its own
      chassis, and on each reachable chassis there are as many kicks as running experiments. */
  lemma SweepKicksRunning(s: Sweep, known: set<int>, attempts: map<int, seq<Attempt>>, c: int)
    requires SweepOf(s, known, attempts)
    ensures c in s.kicks <==> c in known && exists e | e in s.exps :: e.running && e.chassis == c
    ensures c in s.kicks ==>
              && |s.kicks[c]| == |RunningOn(s.exps, c)|
              && forall x | x in s.kicks[c] :: Exp(c, x.channel, true) in s.exps
  {
    hide Members, Took;
    forall channel: int { MembersAreRunning(s.exps, known, c, channel); }
    var group := Members(s.exps, known, c);
    if group != [] {
      MembersAreRunning(s.exps, known, c, group[0]);
      MembersCount(s.exps, known, c);
    }
    forall e | e in s.exps && e.running && e.chassis == c && c in known ensures c in s.kicks {
      assert e == Exp(c, e.channel, true);
    }
    if c in s.kicks {
      forall k | 0 <= k < |s.kicks[c]| ensures Exp(c, s.kicks[c][k].channel, true) in s.exps {
        assert group[k] in group;
      }
    }
  }

  lemma ChassisIsDone(channels: seq<int>, attempts: seq<Attempt>, start: real, n: nat, l: real)
    requires |channels| == |attempts| <= n && l >= 0.0 && forall a | a in attempts :: Within(a, l)
    ensures 0.0 <= Took(attempts) <= Part(l, n as real)
    ensures forall x | x in Lands(channels, attempts, start) :: start <= x.at <= start + Took(attempts)
  {
    hide Part, Took;
    TookBounds(attempts, l);
    PartMonotone(|attempts| as real, n as real, l);
    forall k | 0 <= k < |channels|
      ensures start <= Lands(channels, attempts, start)[k].at <= start + Took(attempts)
    {
      LandsWithin(channels, attempts, start, l, k);
    }
  }

  lemma LandsOn(channels: seq<int>, attempts: seq<Attempt>, start: real, channel: int)
    requires |channels| == |attempts| && channel in channels
    ensures exists x | x in Lands(channels, attempts, start) :: x.channel == channel
  {
    var k :| 0 <= k < |channels| && channels[k] == channel;
    assert Lands(channels, attempts, start)[k] in Lands(channels, attempts, start);
  }

  /** The chassis are swept from the same start, each on its own connection; the sweep ends with
      the last of them. */
  method SweepOnce(exps: seq<Exp>, known: set<int>, start: real, attempts: map<int, seq<Attempt>>)
      returns (s: Sweep)
    requires forall c: int | Members(exps, known, c) != [] ::
               c in attempts && |attempts[c]| == |Members(exps, known, c)|
    ensures s.exps == exps && s.start == start && SweepOf(s, known, attempts)
  {
    hide Members, Took, Lands;
    var ids, groups := GroupByChassis(exps, known);
    var kicks: map<int, seq<Landing>> := map[];
    var end := start;
    for k := 0 to |ids|
      invariant forall c: int :: c in kicks <==> c in ids[..k]
      invariant SoFar(kicks, groups, attempts, start, end)
    {
      var c := ids[k];
      assert c in groups && groups[c] == Members(exps, known, c);
      var landings, finished := KickChassis(groups[c], start, attempts[c]);
      OneMore(kicks, groups, attempts, start, end, c);
      assert ids[..k + 1] == ids[..k] + [c];
      kicks := kicks[c := landings];
      end := Max(end, finished);
    }
    assert ids[..|ids|] == ids;
    s := Sweep(exps, start, kicks, end);
  }

  ghost predicate SoFar(kicks: map<int, seq<Landing>>, groups: map<int, seq<int>>,
                        attempts: map<int, seq<Attempt>>, start: real, end: real) {
    && (forall c: int | c in kicks ::
          && c in groups && c in attempts && |attempts[c]| == |groups[c]|
          && kicks[c] == Lands(groups[c], attempts[c], start) && start + Took(attempts[c]) <= end)
    && (end == start || exists c: int :: c in kicks && end == start + Took(attempts[c]))
  }

  lemma OneMore(kicks: map<int, seq<Landing>>, groups: map<int, seq<int>>, attempts: map<int, seq<Attempt>>,
                start: real, end: real, c: int)
    requires SoFar(kicks, groups, attempts, start, end) && c in groups && c in attempts
    requires |attempts[c]| == |groups[c]|
    ensures SoFar(kicks[c := Lands(groups[c], attempts[c], start)], groups, attempts, start,
                  Max(end, start + Took(attempts[c])))
  {
    hide Took, Lands;
    var more := kicks[c := Lands(groups[c], attempts[c], start)];
    assert c in more;
    if end != start {
      var d: int :| d in kicks && end == start + Took(attempts[d]);
      assert d in more;
    }
  }

  // ---- Many sweeps --------------------------------------------------------------------------------

  /** Sweeps in a row: each is done within `span`, and the next starts within `pause` of its end. */
  ghost predicate Cadence(sweeps: seq<Sweep>, known: set<int>, span: real, pause: real) {
    && (forall s | s in sweeps :: Done(s, known, span))
    && forall k | 0 <= k < |sweeps| - 1 :: sweeps[k].end <= sweeps[k + 1].start <= sweeps[k].end + pause
  }

  /** When a sweep's kick of a channel reached it. */
  function KickTime(landings: seq<Landing>, channel: int): Option<real>
    decreases landings
  {
    if landings == [] then None
    else if landings[0].channel == channel && landings[0].ok then Some(landings[0].at)
    else KickTime(landings[1..], channel)
  }

  /** The last kick of a channel at time t, if it had last been kicked at `last` before the sweeps. */
  function LastKick(sweeps: seq<Sweep>, e: Exp, last: real, t: real): real
    decreases sweeps
  {
    if sweeps == [] then last
    else
      var at := if e.chassis in sweeps[0].kicks then KickTime(sweeps[0].kicks[e.chassis], e.channel) else None;
      LastKick(sweeps[1..], e, if at.Some? && at.value <= t then at.value else last, t)
  }

  /** In this sweep the experiment is running, and the kicks of its chassis succeed. */
  predicate Reaches(s: Sweep, e: Exp) {
    e in s.exps && (e.chassis in s.kicks ==> forall x | x in s.kicks[e.chassis] :: x.ok)
  }

  lemma {:induction false} KickIsFound(landings: seq<Landing>, channel: int, lo: real, hi: real)
    requires forall x | x in landings :: x.ok && lo <= x.at <= hi
    requires exists x | x in landings :: x.channel == channel
    ensures KickTime(landings, channel).Some? && lo <= KickTime(landings, channel).value <= hi
    decreases landings
  {
    assert landings[0] in landings;
    if landings[0].channel != channel {
      assert forall x | x in landings[1..] :: x in landings;
      var x :| x in landings && x.channel == channel;
      assert landings == [landings[0]] + landings[1..];
      assert x in landings[1..];
      KickIsFound(landings[1..], channel, lo, hi);
    }
  }

  lemma CadenceTail(sweeps: seq<Sweep>, known: set<int>, span: real, pause: real, j: nat)
    requires Cadence(sweeps, known, span, pause) && j <= |sweeps|
    ensures Cadence(sweeps[j..], known, span, pause)
  {
    hide Done;
    var tail := sweeps[j..];
    assert forall x | x in tail :: x in sweeps;
    forall k | 0 <= k < |tail| - 1 ensures tail[k].end <= tail[k + 1].start <= tail[k].end + pause {
      assert tail[k] == sweeps[j + k] && tail[k + 1] == sweeps[j + k + 1];
    }
  }

  lemma SweepSpan(sweeps: seq<Sweep>, known: set<int>, span: real, pause: real, j: nat)
    requires Cadence(sweeps, known, span, pause) && j < |sweeps|
    ensures sweeps[j].start <= sweeps[j].end <= sweeps[j].start + span
  {
    assert sweeps[j] in sweeps;
  }

  lemma LastIs(sweeps: seq<Sweep>, j: nat)
    requires j < |sweeps|
    ensures sweeps[j..][|sweeps| - j - 1] == sweeps[|sweeps| - 1]
  {
  }

  lemma KickIsNotEarly(landings: seq<Landing>, channel: int, lo: real)
    requires forall x | x in landings :: lo <= x.at
    ensures KickTime(landings, channel).Some? ==> lo <= KickTime(landings, channel).value
  {
  }

  lemma {:induction false} NothingLater(sweeps: seq<Sweep>, known: set<int>, e: Exp, span: real, pause: real,
                                        last: real, t: real)
    requires Cadence(sweeps, known, span, pause) && (sweeps != [] ==> t < sweeps[0].start)
    ensures LastKick(sweeps, e, last, t) == last
    decreases sweeps
  {
    if sweeps != [] {
      var s, rest := sweeps[0], sweeps[1..];
      assert s in sweeps && Done(s, known, span);
      CadenceTail(sweeps, known, span, pause, 1);
      assert forall x | x in rest :: x in sweeps;
      if e.chassis in s.kicks {
        KickIsNotEarly(s.kicks[e.chassis], e.channel, s.start);
      }
      if rest != [] { assert sweeps[0].end <= sweeps[1].start; }
      NothingLater(rest, known, e, span, pause, last, t);
    }
  }

  /** Every sweep that includes the channel kicks it, so no two kicks are further apart than two
      sweeps and a pause: seen from any moment t the last kick is at most that old. */
  lemma {:induction false} KicksKeepComing(sweeps: seq<Sweep>, known: set<int>, e: Exp,
      span: real, pause: real, last: real, slack: real, t: real)
    requires Cadence(sweeps, known, span, pause) && Swept(e, known)
    requires forall s | s in sweeps :: Reaches(s, e)
    requires span >= 0.0 && pause >= 0.0 && slack >= 0.0 && last <= t
    requires if sweeps == [] then t <= last + slack + 2.0 * span + pause
             else last <= sweeps[0].start <= last + slack + span + pause
                  && t <= sweeps[|sweeps| - 1].end + pause
    ensures last <= LastKick(sweeps, e, last, t) <= t
    ensures t - LastKick(sweeps, e, last, t) <= slack + 2.0 * span + pause
    decreases sweeps
  {
    if sweeps != [] {
      var s := sweeps[0];
      assert s in sweeps && Done(s, known, span) && Reaches(s, e);
      KickIsFound(s.kicks[e.chassis], e.channel, s.start, s.end);
      var at := KickTime(s.kicks[e.chassis], e.channel).value;
      var rest := sweeps[1..];
      CadenceTail(sweeps, known, span, pause, 1);
      assert forall x | x in rest :: x in sweeps;
      if at <= t {
        if rest != [] { assert sweeps[0].end <= sweeps[1].start; }
        KicksKeepComing(rest, known, e, span, pause, at, 0.0, t);
      } else {
        NothingLater(rest, known, e, span, pause, last, t);
      }
    }
  }

  /** The first sweep that starts at or after a moment. */
  function FirstAfter(sweeps: seq<Sweep>, at: real): (j: nat)
    ensures j <= |sweeps|
    decreases sweeps
  {
    if sweeps == [] || sweeps[0].start >= at then 0 else 1 + FirstAfter(sweeps[1..], at)
  }

  lemma {:induction false} FirstAfterIsSoon(sweeps: seq<Sweep>, known: set<int>, span: real, pause: real, at: real)
    requires Cadence(sweeps, known, span, pause) && span >= 0.0 && pause >= 0.0
    requires sweeps != [] && sweeps[0].start < at
    ensures var j := FirstAfter(sweeps, at);
            && 0 < j <= |sweeps| && sweeps[j - 1].start < at
            && (j < |sweeps| ==> at <= sweeps[j].start <= at + span + pause)
    decreases sweeps
  {
    var rest := sweeps[1..];
    assert sweeps[0] in sweeps && Done(sweeps[0], known, span);
    CadenceTail(sweeps, known, span, pause, 1);
    if rest != [] {
      assert sweeps[0].end <= sweeps[1].start <= sweeps[0].end + pause;
      if rest[0].start < at {
        FirstAfterIsSoon(rest, known, span, pause, at);
      }
    }
  }

  /** No false trips.  A channel last kicked at `last` joins the experiments within `delay`, in the
      middle of whatever sweep is under way, and from then on every sweep includes it.  With at most
      n channels a chassis, kicks of at most l and pauses of at most `pause`, its dead-man never
      expires if delay + 2 n l + pause is at most the threshold. */
  lemma NoFalseTrip(sweeps: seq<Sweep>, known: set<int>, e: Exp, n: nat, l: real, pause: real,
                    last: real, joined: real, delay: real, t: real, ch: Chan, threshold: real)
    requires l >= 0.0 && pause >= 0.0 && Swept(e, known)
    requires Cadence(sweeps, known, Part(l, n as real), pause)
    requires sweeps != [] && sweeps[0].start < joined && last <= joined <= last + delay
    requires forall k | FirstAfter(sweeps, joined) <= k < |sweeps| :: Reaches(sweeps[k], e)
    requires last <= t <= sweeps[|sweeps| - 1].end + pause
    requires delay + 2.0 * Part(l, n as real) + pause <= threshold
    ensures !WatchdogExpired(ch.(lastKick := LastKick(sweeps[FirstAfter(sweeps, joined)..], e, last, t)), t, threshold)
  {
    hide Done, Cadence, FirstAfter, Reaches, LastKick;
    var span := Part(l, n as real);
    PartNonNegative(l, n as real);
    FirstAfterIsSoon(sweeps, known, span, pause, joined);
    var j := FirstAfter(sweeps, joined);
    var mine := sweeps[j..];
    SweepSpan(sweeps, known, span, pause, j - 1);
    CadenceTail(sweeps, known, span, pause, j);
    forall s | s in mine ensures Reaches(s, e) {
      var k :| 0 <= k < |mine| && mine[k] == s;
      assert mine[k] == sweeps[j + k];
    }
    if j < |sweeps| { LastIs(sweeps, j); }
    KicksKeepComing(mine, known, e, span, pause, last, delay, t);
  }

  // ---- The bound is sharp --------------------------------------------------------------------------

  /** A bench of two chassis, c and d, with n running channels each. */
  function Bench(c: int, d: int, n: nat): seq<Exp> {
    Rack(c, n) + Rack(d, n)
  }

  /** The highest channel is listed first. */
  function Rack(c: int, n: nat): seq<Exp> {
    seq(n, k => Exp(c, n - 1 - k, true))
  }

  function Downto(n: nat): (channels: seq<int>)
    ensures |channels| == n
  {
    seq(n, k => n - 1 - k)
  }

  function Copies(a: Attempt, n: nat): seq<Attempt> {
    seq(n, _ => a)
  }

  lemma {:induction false} MembersOfChassis(exps: seq<Exp>, c: int, known: set<int>, x: int)
    requires forall k | 0 <= k < |exps| :: exps[k].chassis == c && exps[k].running
    ensures Members(exps, known, x)
            == if x == c && c in known then seq(|exps|, k requires 0 <= k < |exps| => exps[k].channel) else []
    decreases exps
  {
    if exps != [] {
      MembersOfChassis(exps[..|exps| - 1], c, known, x);
    }
  }

  lemma MembersOfRack(c: int, n: nat, known: set<int>, x: int)
    ensures Members(Rack(c, n), known, x) == if x == c && c in known then Downto(n) else []
  {
    MembersOfChassis(Rack(c, n), c, known, x);
  }

  lemma {:induction false} MembersConcat(a: seq<Exp>, b: seq<Exp>, known: set<int>, x: int)
    ensures Members(a + b, known, x) == Members(a, known, x) + Members(b, known, x)
    decreases b
  {
    if b == [] {
      assert a + b == a;
    } else {
      assert (a + b)[..|a + b| - 1] == a + b[..|b| - 1];
      MembersConcat(a, b[..|b| - 1], known, x);
    }
  }

  lemma MembersOfBench(c: int, d: int, n: nat, known: set<int>, x: int)
    requires c != d && c in known && d in known
    ensures Members(Bench(c, d, n), known, x) == if x == c || x == d then Downto(n) else []
  {
    hide Members, Rack, Downto;
    MembersConcat(Rack(c, n), Rack(d, n), known, x);
    MembersOfRack(c, n, known, x);
    MembersOfRack(d, n, known, x);
  }

  lemma {:induction false} TookCopies(a: Attempt, n: nat)
    ensures Took(Copies(a, n)) == Part(a.took, n as real)
    decreases n
  {
    if n > 0 {
      assert Copies(a, n)[..n - 1] == Copies(a, n - 1);
      TookCopies(a, n - 1);
      assert Part(a.took, n as real) == Part(a.took, (n - 1) as real) + a.took;
    }
  }

  /** How the kicks go when those of c are like a and those of d like b. */
  function Going(c: int, d: int, a: Attempt, b: Attempt, n: nat): map<int, seq<Attempt>> {
    map[c := Copies(a, n), d := Copies(b, n)]
  }

  /** The sweep of the bench that starts then. */
  function BenchSweep(c: int, d: int, a: Attempt, b: Attempt, n: nat, start: real): Sweep {
    Sweep(Bench(c, d, n), start,
          map[c := Lands(Downto(n), Copies(a, n), start), d := Lands(Downto(n), Copies(b, n), start)],
          start + Part(b.took, n as real))
  }

  lemma BenchIsSwept(c: int, d: int, a: Attempt, b: Attempt, n: nat, start: real, known: set<int>, l: real)
    requires c != d && c in known && d in known && n > 0
    requires Within(a, l) && Within(b, l) && a.took <= b.took
    ensures var s, attempts := BenchSweep(c, d, a, b, n, start), Going(c, d, a, b, n);
            SweepOf(s, known, attempts) && Paced(s.exps, known, attempts, n, l)
  {
    hide Members, Lands, Bench, Part, Took;
    forall x: int { MembersOfBench(c, d, n, known, x); }
    TookCopies(a, n);
    TookCopies(b, n);
    PartMonotone(a.took, b.took, n as real);
    assert d in BenchSweep(c, d, a, b, n, start).kicks;
  }

  lemma {:induction false} KickTimeAt(landings: seq<Landing>, channel: int, k: nat)
    requires k < |landings| && landings[k].channel == channel && landings[k].ok
    requires forall j | 0 <= j < k :: landings[j].channel != channel
    ensures KickTime(landings, channel) == Some(landings[k].at)
    decreases k
  {
    if k > 0 {
      KickTimeAt(landings[1..], channel, k - 1);
    }
  }

  lemma LastIsKickedLast(a: Attempt, n: nat, start: real)
    requires n > 0 && a.ok && a.lands == a.took
    ensures KickTime(Lands(Downto(n), Copies(a, n), start), 0) == Some(start + Part(a.took, n as real))
    ensures forall x | x in Lands(Downto(n), Copies(a, n), start) :: x.ok
  {
    var landings := Lands(Downto(n), Copies(a, n), start);
    assert Copies(a, n)[..n - 1] == Copies(a, n - 1);
    TookCopies(a, n - 1);
    assert Part(a.took, n as real) == Part(a.took, (n - 1) as real) + a.took;
    KickTimeAt(landings, 0, n - 1);
  }

  const QUICK := Attempt(true, 0.0, 0.0)

  function Slow(l: real): Attempt {
    Attempt(true, l, l)
  }

  /** Two sweeps: in the first, chassis c answers at once and d takes l a kick; in the second every
      kick takes l, with a whole pause between. */
  function LateSweeps(c: int, d: int, n: nat, l: real, pause: real): seq<Sweep> {
    [BenchSweep(c, d, QUICK, Slow(l), n, 0.0), BenchSweep(c, d, Slow(l), Slow(l), n, Part(l, n as real) + pause)]
  }

  function LateGoing(c: int, d: int, n: nat, l: real): seq<map<int, seq<Attempt>>> {
    [Going(c, d, QUICK, Slow(l), n), Going(c, d, Slow(l), Slow(l), n)]
  }

  /** The sweeps are as Paced allows, and yet the last channel of chassis c waits for two whole sweeps
      and a pause between its kicks. */
  lemma KickComesLate(known: set<int>, c: int, d: int, n: nat, l: real, pause: real)
    requires c != d && c in known && d in known && n > 0 && l >= 0.0 && pause >= 0.0
    ensures var sweeps, going := LateSweeps(c, d, n, l, pause), LateGoing(c, d, n, l);
            && Cadence(sweeps, known, Part(l, n as real), pause)
            && (forall k | 0 <= k < 2 ::
                  SweepOf(sweeps[k], known, going[k]) && Paced(sweeps[k].exps, known, going[k], n, l)
                  && Reaches(sweeps[k], Exp(c, 0, true)))
            && KickTime(sweeps[0].kicks[c], 0) == Some(0.0)
            && KickTime(sweeps[1].kicks[c], 0) == Some(2.0 * Part(l, n as real) + pause)
  {
    hide Part, Lands, Members, Bench, Done, SweepOf, Paced, Took, KickTime, Downto, Copies;
    var span, sweeps, going := Part(l, n as real), LateSweeps(c, d, n, l, pause), LateGoing(c, d, n, l);
    PartNonNegative(l, n as real);
    BenchIsSwept(c, d, QUICK, Slow(l), n, 0.0, known, l);
    BenchIsSwept(c, d, Slow(l), Slow(l), n, span + pause, known, l);
    SweepIsDone(sweeps[0], known, going[0], n, l);
    SweepIsDone(sweeps[1], known, going[1], n, l);
    LastIsKickedLast(QUICK, n, 0.0);
    LastIsKickedLast(Slow(l), n, span + pause);
    NoTime(n);
    BenchHas(c, d, n);
  }

  lemma NoTime(n: nat)
    ensures Part(0.0, n as real) == 0.0
  {
  }

  lemma BenchHas(c: int, d: int, n: nat)
    requires n > 0
    ensures Exp(c, 0, true) in Bench(c, d, n)
  {
    assert Bench(c, d, n)[n - 1] == Exp(c, 0, true);
  }

  /** Kicks that all go alike land in their order, none before the start. */
  lemma LandsInOrder(a: Attempt, n: nat, start: real, j: nat, k: nat)
    requires j <= k < n && 0.0 <= a.lands <= a.took
    ensures var landings := Lands(Downto(n), Copies(a, n), start);
            && start <= landings[j].at <= landings[k].at
            && landings[k].channel == n - 1 - k && landings[k].at == start + Part(a.took, k as real) + a.lands
  {
    hide Part;
    assert Copies(a, n)[..j] == Copies(a, j) && Copies(a, n)[..k] == Copies(a, k);
    TookCopies(a, j);
    TookCopies(a, k);
    PartNonNegative(a.took, j as real);
    PartMonotone(j as real, k as real, a.took);
  }
}
