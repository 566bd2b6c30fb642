/**
 The boundary of the invariant is the boundary of loss: after an unsafe step some continuation of
 ordinary steps loses a row, after a safe one none does.
 */
module ExportBoundary {
  import opened HivePath
  import opened Export
  import opened ExportProofs

  /** Objects hold only rows that were ingested. */
  ghost predicate ColdKnown(t: Tiers) {
    forall path | path in t.cold :: t.cold[path] <= t.ingested
  }

  lemma StepKeepsColdKnown(t: Tiers, a: Action)
    requires Inv(t) && ColdKnown(t)
    ensures ColdKnown(Step(t, a))
  {
    if !a.Ingest? && a.p < |t.passes| {
      assert PassOk(t, t.passes[a.p]);
    }
  }

  ghost predicate Gone(t: Tiers, r: Row) {
    && r in t.ingested && r !in t.hot
    && var path := HourPath(t.bucket, r.time.hour); path in t.cold ==> r !in t.cold[path]
  }

  lemma GoneIsLost(t: Tiers, r: Row)
    requires Gone(t, r)
    ensures !Conserved(t)
  {
  }

  ghost predicate SameObject(t: Tiers, v: Tiers, h: Hour) {
    && v.bucket == t.bucket
    && var path := HourPath(t.bucket, h);
    && (path in v.cold <==> path in t.cold)
    && (path in t.cold ==> v.cold[path] == t.cold[path])
  }

  // ---- A pass left to itself -------------------------------------------------------------------

  /** The hours whose objects a pass has still to write. */
  function ToWrite(pass: Pass): set<Hour>
    requires pass.Pass?
  {
    if pass.stage.Written? && pass.todo != [] then set h | h in pass.todo[1..] else set h | h in pass.todo
  }

  /** Steps that bring no rows, leave no partial object and start no pass. */
  ghost predicate Plain(cs: seq<Action>) {
    forall a | a in cs :: !a.Ingest? && !a.FailPartial? && !a.Begin?
  }

  function Rank(pass: Pass): nat {
    if pass.Idle? then 0 else match pass.stage case AtHour => 2 case Opened(_) => 1 case Written(_) => 0
  }

  function NextStep(pass: Pass, p: nat): Action
    requires pass.Pass?
  {
    if pass.todo == [] then Drop(p)
    else match pass.stage case AtHour => OpenCursor(p) case Opened(_) => CloseObject(p) case Written(_) => Record(p)
  }

  lemma NextStepOf(t: Tiers, p: nat)
    requires p < |t.passes| && t.passes[p].Pass? && t.passes[p].todo != []
    ensures var pass, v := t.passes[p], Step(t, NextStep(t.passes[p], p));
            && |v.passes| == |t.passes| && v.passes[p].Pass? && v.passes[p].cutoff == pass.cutoff
            && v.hot == t.hot && v.ingested == t.ingested && v.bucket == t.bucket
            && (if pass.stage.Written? then v.passes[p].todo == pass.todo[1..] && v.passes[p].stage == AtHour
                else v.passes[p].todo == pass.todo && Rank(v.passes[p]) < Rank(pass))
            && v.cold == if pass.stage.Opened?
               then t.cold[HourPath(t.bucket, pass.todo[0]) := pass.stage.snapshot] else t.cold
  {
    hide HourPath, HotRows;
  }

  lemma ToWriteShrinks(before: Pass, after: Pass)
    requires before.Pass? && after.Pass? && before.todo != []
    requires if before.stage.Written? then after.todo == before.todo[1..] && after.stage == AtHour
             else after.todo == before.todo
    ensures ToWrite(after) <= ToWrite(before)
  {
    assert forall h | h in before.todo[1..] :: h in before.todo;
  }

  lemma NextStepFrame(t: Tiers, p: nat, g: Hour)
    requires p < |t.passes| && t.passes[p].Pass? && t.passes[p].todo != [] && g !in ToWrite(t.passes[p])
    ensures SameObject(t, Step(t, NextStep(t.passes[p], p)), g)
  {
    hide HourPath, Step;
    NextStepOf(t, p);
    HourPathInjective(t.bucket, g, t.passes[p].todo[0]);
  }

  lemma SameTwice(t: Tiers, u: Tiers, v: Tiers, g: Hour)
    requires SameObject(t, u, g) && SameObject(u, v, g)
    ensures SameObject(t, v, g)
  {
  }

  /** Left to itself a pass finishes and drops everything below its cutoff, touching no object but
      those it has still to write. */
  lemma {:induction false} Finish(t: Tiers, p: nat) returns (cs: seq<Action>)
    requires p < |t.passes| && t.passes[p].Pass?
    ensures Plain(cs)
    ensures var v := Run(t, cs);
            && v.ingested == t.ingested
            && (forall r | r in v.hot :: r in t.hot && !Before(r.time.hour, t.passes[p].cutoff))
            && forall g | g !in ToWrite(t.passes[p]) :: SameObject(t, v, g)
    decreases |t.passes[p].todo|, Rank(t.passes[p])
  {
    var a := NextStep(t.passes[p], p);
    var v := Step(t, a);
    if t.passes[p].todo == [] {
      cs := [a];
      RunCons(t, a, []);
      assert [a] + [] == [a];
    } else {
      hide SameObject, Step, ToWrite;
      NextStepOf(t, p);
      ToWriteShrinks(t.passes[p], v.passes[p]);
      var rest := Finish(v, p);
      cs := [a] + rest;
      RunCons(t, a, rest);
      forall g | g !in ToWrite(t.passes[p]) ensures SameObject(t, Run(t, cs), g) {
        NextStepFrame(t, p, g);
        SameTwice(t, v, Run(t, cs), g);
      }
    }
  }

  // ---- A recorded hour ---------------------------------------------------------------------------

  lemma {:induction false} AfterAll(hs: set<Hour>) returns (g: Hour)
    ensures forall h | h in hs :: Before(h, g)
    decreases hs
  {
    if hs == {} {
      g := Hour(1, 1, 1, 0);
    } else {
      var x :| x in hs;
      var f := AfterAll(hs - {x});
      g := Hour(x.year + f.year + 1, 1, 1, 0);
      assert forall h | h in hs :: h == x || h in hs - {x};
    }
  }

  lemma PlainIsPolite(cs: seq<Action>, used: set<Hour>)
    requires Plain(cs)
    ensures Polite(cs, used) && NoPartial(cs)
  {
    PoliteNoArrivals(cs, used);
  }

  /** A hot row of a recorded hour that its object lacks is lost as soon as a later hour is
      exported: a row arrives above every cutoff used, one pass runs, and drops. */
  lemma LoseRecorded(t: Tiers, p: nat, r: Row, used: set<Hour>) returns (cs: seq<Action>)
    requires p < |t.passes| && r in t.ingested && r.time.hour in t.ledger
    requires var path := HourPath(t.bucket, r.time.hour); path in t.cold ==> r !in t.cold[path]
    ensures Polite(cs, used) && NoPartial(cs) && !Conserved(Run(t, cs))
  {
    hide HourPath, Conserved, Step, Polite, Plain, NoPartial, Run;
    var g, n := NewRowAboveAll(t, used);
    var cutoff := AfterAll({g});
    var t1 := Step(t, Fail(p));
    var t2 := Step(t1, Ingest(n));
    ArriveIdle(t, p, n);
    BeginsWith(t2, p, n, cutoff);
    var t3 := Step(t2, Begin(p, cutoff));
    LaterStill(r.time.hour, g, cutoff);
    NotToWrite(t3.passes[p], r.time.hour);
    var rest := LoseByFinishing(t3, p, r, used + {cutoff});
    var cs2 := [Begin(p, cutoff)] + rest;
    var cs1 := [Ingest(n)] + cs2;
    cs := [Fail(p)] + cs1;
    RunCons(t, Fail(p), cs1);
    RunCons(t1, Ingest(n), cs2);
    RunCons(t2, Begin(p, cutoff), rest);
    PoliteCons(Begin(p, cutoff), rest, used);
    assert used + {} == used;
    PoliteCons(Ingest(n), cs2, used);
    PoliteCons(Fail(p), cs1, used);
  }

  lemma LaterStill(a: Hour, b: Hour, c: Hour)
    requires Before(a, b) && Before(b, c)
    ensures Before(a, c)
  {
  }

  lemma NotToWrite(pass: Pass, h: Hour)
    requires pass.Pass? && h !in pass.todo
    ensures h !in ToWrite(pass)
  {
  }

  lemma NewRowAboveAll(t: Tiers, used: set<Hour>) returns (g: Hour, n: Row)
    ensures n.time.hour == g && n !in t.ingested && g !in t.ledger
    ensures (forall c | c in used :: !Before(g, c)) && (forall x | x in t.ingested :: Before(x.time.hour, g))
  {
    var hours := set x | x in t.ingested :: x.time.hour;
    g := AfterAll(used + t.ledger.Keys + hours);
    n := Row(Timestamp(g, 0), 0);
    forall x | x in t.ingested ensures Before(x.time.hour, g) {
      assert x.time.hour in hours;
    }
    assert forall h | h in t.ledger.Keys :: Before(h, g);
  }

  lemma ArriveIdle(t: Tiers, p: nat, n: Row)
    requires p < |t.passes| && n !in t.ingested
    ensures var v := Step(Step(t, Fail(p)), Ingest(n));
            && v == t.(hot := t.hot + {n}, ingested := t.ingested + {n}, passes := v.passes)
            && |v.passes| == |t.passes| && v.passes[p].Idle?
  {
  }

  lemma BeginsWith(t: Tiers, p: nat, n: Row, cutoff: Hour)
    requires p < |t.passes| && t.passes[p].Idle? && n in t.hot && Before(n.time.hour, cutoff)
    requires n.time.hour !in t.ledger
    ensures var v := Step(t, Begin(p, cutoff));
            && v == t.(passes := v.passes) && |v.passes| == |t.passes|
            && v.passes[p].Pass? && v.passes[p].cutoff == cutoff && v.passes[p].stage == AtHour
            && forall h | h in v.passes[p].todo :: h !in t.ledger
  {
    assert n.time.hour in PendingHours(t, cutoff);
    assert n.time.hour in Ascending(PendingHours(t, cutoff));
  }

  lemma PoliteCons(a: Action, rest: seq<Action>, used: set<Hour>)
    requires a.Ingest? ==> forall c | c in used :: !Before(a.row.time.hour, c)
    requires Polite(rest, used + if a.Begin? then {a.cutoff} else {}) && NoPartial(rest) && !a.FailPartial?
    ensures Polite([a] + rest, used) && NoPartial([a] + rest)
  {
    assert ([a] + rest)[1..] == rest;
  }

  // ---- Unsafe steps lose rows --------------------------------------------------------------------

  /** If pass i, left to itself, drops the hour of r without writing its object again, and that
      object lacks r, then r is lost. */
  lemma LoseByFinishing(t: Tiers, i: nat, r: Row, used: set<Hour>) returns (cs: seq<Action>)
    requires i < |t.passes| && t.passes[i].Pass? && r in t.ingested && Before(r.time.hour, t.passes[i].cutoff)
    requires r.time.hour !in ToWrite(t.passes[i])
    requires var path := HourPath(t.bucket, r.time.hour); path in t.cold ==> r !in t.cold[path]
    ensures Polite(cs, used) && NoPartial(cs) && !Conserved(Run(t, cs))
  {
    cs := Finish(t, i);
    PlainIsPolite(cs, used);
    assert Gone(Run(t, cs), r);
    GoneIsLost(Run(t, cs), r);
  }

  lemma HeadIsFirst(pass: Pass)
    requires pass.Pass? && pass.todo != []
    requires forall i, j | 0 <= i < j < |pass.todo| :: Before(pass.todo[i], pass.todo[j])
    ensures pass.todo[0] !in pass.todo[1..]
  {
    assert forall k | 0 <= k < |pass.todo| - 1 :: pass.todo[1..][k] == pass.todo[k + 1];
  }

  lemma UnsafeArrivalLoses(t: Tiers, r: Row, used: set<Hour>) returns (cs: seq<Action>)
    requires Inv(t) && ColdKnown(t) && |t.passes| > 0 && r !in t.ingested && !IngestSafe(t, r.time.hour)
    ensures Polite(cs, used) && NoPartial(cs) && !Conserved(Run(Step(t, Ingest(r)), cs))
  {
    var h, v := r.time.hour, Step(t, Ingest(r));
    if h in t.ledger {
      assert Archived(t, h, t.ledger[h]);
      cs := LoseRecorded(v, 0, r, used);
    } else {
      var i :| 0 <= i < |t.passes| && t.passes[i].Pass?
        && !(&& (Before(h, t.passes[i].cutoff) ==> h in t.passes[i].todo)
             && (t.passes[i].stage != AtHour && t.passes[i].todo != [] ==> t.passes[i].todo[0] != h));
      assert PassOk(t, t.passes[i]);
      cs := ArrivalInPassLoses(t, r, i, used);
    }
  }

  lemma ArrivalInPassLoses(t: Tiers, r: Row, i: nat, used: set<Hour>) returns (cs: seq<Action>)
    requires ColdKnown(t) && r !in t.ingested && r.time.hour !in t.ledger
    requires i < |t.passes| && t.passes[i].Pass? && PassOk(t, t.passes[i])
    requires var h, pass := r.time.hour, t.passes[i];
             || (Before(h, pass.cutoff) && h !in pass.todo)
             || (pass.stage != AtHour && pass.todo != [] && pass.todo[0] == h)
    ensures Polite(cs, used) && NoPartial(cs) && !Conserved(Run(Step(t, Ingest(r)), cs))
  {
    var h, v, pass := r.time.hour, Step(t, Ingest(r)), t.passes[i];
    if h in pass.todo {
      HeadIsFirst(pass);
    }
    assert r !in AllRows(t, h);
    if h in pass.todo && pass.stage.Opened? {
      var a := CloseObject(i);
      assert Step(v, a).cold == v.cold[HourPath(v.bucket, h) := pass.stage.snapshot];
      var rest := LoseByFinishing(Step(v, a), i, r, used);
      cs := [a] + rest;
      RunCons(v, a, rest);
      assert used + {} == used;
      PoliteCons(a, rest, used);
    } else {
      cs := LoseByFinishing(v, i, r, used);
    }
  }

  lemma UnsafePartialLoses(t: Tiers, p: nat, part: set<Row>, used: set<Hour>) returns (cs: seq<Action>)
    requires Inv(t) && p < |t.passes| && t.passes[p].Pass? && t.passes[p].todo != []
    requires t.passes[p].stage.Opened? && part < t.passes[p].stage.snapshot
    requires !PartialSafe(t, p, t.passes[p].todo[0])
    ensures Polite(cs, used) && NoPartial(cs) && !Conserved(Run(Step(t, FailPartial(p, part)), cs))
  {
    hide Step, HourPath, Polite, NoPartial, Conserved, Run, Archived;
    var h, v := t.passes[p].todo[0], Step(t, FailPartial(p, part));
    PartialIs(t, p, part);
    assert PassOk(t, t.passes[p]);
    var r :| r in t.passes[p].stage.snapshot && r !in part;
    assert r in AllRows(t, h);
    if h in t.ledger {
      cs := LoseRecorded(v, p, r, used);
    } else {
      var i :| 0 <= i < |t.passes| && i != p && t.passes[i].Pass? && t.passes[i].todo != []
        && t.passes[i].todo[0] == h && t.passes[i].stage.Written?;
      assert PassOk(t, t.passes[i]) && h in t.passes[i].todo;
      HeadIsFirst(t.passes[i]);
      cs := LoseByFinishing(v, i, r, used);
    }
  }

  /** No continuation of polite arrivals and steps without partial objects loses a row. */
  ghost predicate NeverLoses(t: Tiers, used: set<Hour>) {
    forall cs: seq<Action> | Polite(cs, used) && NoPartial(cs) :: Conserved(Run(t, cs))
  }

  lemma BoundedAfter(t: Tiers, a: Action, used: set<Hour>)
    requires Inv(t) && Bounded(t, used)
    ensures Bounded(Step(t, a), used + if a.Begin? then {a.cutoff} else {})
  {
    hide Inv, Bounded, Step;
    assert used + {} == used;
    match a
    case Record(p) => RecordStaysBounded(t, p, used);
    case Begin(p, cutoff) => BeginStaysBounded(t, p, cutoff, used);
    case _ => OtherStaysBounded(t, a, used);
  }

  /** The boundary, exactly, in terms of loss: a step is safe if and only if no polite continuation
      without partial objects, by any of the passes, ever loses a row. */
  lemma StepHarmlessExactly(t: Tiers, a: Action, used: set<Hour>)
    requires Inv(t) && Bounded(t, used) && ColdKnown(t) && |t.passes| > 0
    ensures Safe(t, a) <==> NeverLoses(Step(t, a), used + if a.Begin? then {a.cutoff} else {})
  {
    var later := used + if a.Begin? then {a.cutoff} else {};
    if Safe(t, a) {
      StepKeepsExactly(t, a);
      BoundedAfter(t, a, used);
      forall cs: seq<Action> | Polite(cs, later) && NoPartial(cs) ensures Conserved(Run(Step(t, a), cs)) {
        RunConserves(Step(t, a), cs, later);
      }
    } else if a.Ingest? {
      var cs := UnsafeArrivalLoses(t, a.row, later);
    } else {
      var cs := UnsafePartialLoses(t, a.p, a.part, later);
    }
  }

  // ---- On whole runs -----------------------------------------------------------------------------

  function CutoffsUsed(actions: seq<Action>, used: set<Hour>): set<Hour>
    decreases actions
  {
    if actions == [] then used
    else CutoffsUsed(actions[1..], used + if actions[0].Begin? then {actions[0].cutoff} else {})
  }

  lemma SamePasses(t: Tiers, a: Action)
    ensures |Step(t, a).passes| == |t.passes|
  {
    hide HourPath, HotRows, PendingHours, Ascending;
  }

  /** Everything the boundary is stated for holds along runs with polite arrivals: of one exporter
      whatever fails, and of any number of them without partial objects. */
  lemma {:induction false} RunStaysWithin(t: Tiers, actions: seq<Action>, used: set<Hour>)
    requires Inv(t) && Bounded(t, used) && ColdKnown(t) && Polite(actions, used)
    requires Lone(t) || NoPartial(actions)
    ensures var v := Run(t, actions);
            && Inv(v) && ColdKnown(v) && Bounded(v, CutoffsUsed(actions, used)) && |v.passes| == |t.passes|
            && (Lone(t) ==> Lone(v))
    decreases actions
  {
    hide Inv, Bounded, ColdKnown, Lone, Step;
    if actions != [] {
      var a := actions[0];
      assert a in actions && forall x | x in actions[1..] :: x in actions;
      PoliteStep(t, a, used);
      StepKeepsColdKnown(t, a);
      SamePasses(t, a);
      RunStaysWithin(Step(t, a), actions[1..], used + if a.Begin? then {a.cutoff} else {});
    }
  }

  /** So the boundary is exact at every point of every such run from an empty store. */
  lemma HarmlessExactlyOnRuns(bucket: string, exporters: nat, actions: seq<Action>, a: Action)
    requires exporters > 0 && Polite(actions, {}) && (exporters == 1 || NoPartial(actions))
    ensures var t, used := Run(Empty(bucket, exporters), actions), CutoffsUsed(actions, {});
            Safe(t, a) <==> NeverLoses(Step(t, a), used + if a.Begin? then {a.cutoff} else {})
  {
    hide Inv, Bounded, Lone, Step, Run, Safe, Polite, NoPartial;
    EmptyIsSound(bucket, exporters);
    RunStaysWithin(Empty(bucket, exporters), actions, {});
    StepHarmlessExactly(Run(Empty(bucket, exporters), actions), a, CutoffsUsed(actions, {}));
  }
}
