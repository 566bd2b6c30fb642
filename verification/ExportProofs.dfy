/** Conservation of telemetry under every interleaving of export passes. */
module ExportProofs {
  import opened HivePath
  import opened Export

  lemma SafeIngestKeeps(t: Tiers, r: Row)
    requires Inv(t) && r !in t.ingested && IngestSafe(t, r.time.hour)
    ensures Inv(Step(t, Ingest(r)))
  {
    var h := r.time.hour;
    var v := Step(t, Ingest(r));
    assert forall g | g != h :: AllRows(v, g) == AllRows(t, g);
    assert r in AllRows(v, h);
    assert forall g: Hour, n: nat | g != h :: Archived(v, g, n) <==> Archived(t, g, n);
    forall i | 0 <= i < |v.passes| ensures PassOk(v, v.passes[i]) {
      assert PassOk(t, t.passes[i]);
    }
  }

  lemma UnsafeIngestBreaks(t: Tiers, r: Row)
    requires Inv(t) && r !in t.ingested && !IngestSafe(t, r.time.hour)
    ensures !Inv(Step(t, Ingest(r)))
  {
    hide HourPath;
    var h := r.time.hour;
    var v := Step(t, Ingest(r));
    assert r in AllRows(v, h) && r !in AllRows(t, h);
    if h in t.ledger {
      assert Archived(t, h, t.ledger[h]);
      assert !Archived(v, h, v.ledger[h]);
    } else {
      var i :| 0 <= i < |t.passes| && t.passes[i].Pass?
        && !(&& (Before(h, t.passes[i].cutoff) ==> h in t.passes[i].todo)
             && (t.passes[i].stage != AtHour && t.passes[i].todo != [] ==> t.passes[i].todo[0] != h));
      UnsafeIngestBreaksPass(t, r, t.passes[i]);
      assert v.passes[i] == t.passes[i];
    }
  }

  lemma UnsafeIngestBreaksPass(t: Tiers, r: Row, pass: Pass)
    requires r !in t.ingested && r.time.hour !in t.ledger && pass.Pass? && PassOk(t, pass)
    requires var h := r.time.hour;
             || (Before(h, pass.cutoff) && h !in pass.todo)
             || (pass.stage != AtHour && pass.todo != [] && pass.todo[0] == h)
    ensures !PassOk(Step(t, Ingest(r)), pass)
  {
    hide HourPath;
    var h, v := r.time.hour, Step(t, Ingest(r));
    assert r in AllRows(v, h) && r !in AllRows(t, h);
  }

  // ---- What single steps come to ---------------------------------------------------------------

  lemma BeginIs(t: Tiers, p: nat, cutoff: Hour)
    requires p < |t.passes| && t.passes[p].Idle?
    ensures var todo := Ascending(PendingHours(t, cutoff));
            Step(t, Begin(p, cutoff)) == if todo == [] then t else SetPass(t, p, Pass(cutoff, todo, AtHour))
  {
  }

  lemma OpenIs(t: Tiers, p: nat)
    requires p < |t.passes| && t.passes[p].Pass? && t.passes[p].todo != [] && t.passes[p].stage.AtHour?
    ensures var pass := t.passes[p];
            Step(t, OpenCursor(p)) == SetPass(t, p, pass.(stage := StageOf(HotRows(t, pass.todo[0]))))
  {
  }

  lemma PartialIs(t: Tiers, p: nat, part: set<Row>)
    requires p < |t.passes| && t.passes[p].Pass? && t.passes[p].todo != [] && t.passes[p].stage.Opened?
    requires part <= t.passes[p].stage.snapshot
    ensures Step(t, FailPartial(p, part))
            == SetPass(t.(cold := t.cold[HourPath(t.bucket, t.passes[p].todo[0]) := part]), p, Idle)
  {
  }

  lemma RecordIs(t: Tiers, p: nat)
    requires p < |t.passes| && t.passes[p].Pass? && t.passes[p].todo != [] && t.passes[p].stage.Written?
    ensures var pass := t.passes[p];
            var ledger := if pass.todo[0] in t.ledger then t.ledger else t.ledger[pass.todo[0] := pass.stage.count];
            Step(t, Record(p)) == SetPass(t.(ledger := ledger), p, pass.(todo := pass.todo[1..], stage := AtHour))
  {
  }

  lemma DropIs(t: Tiers, p: nat)
    requires p < |t.passes| && t.passes[p].Pass? && t.passes[p].todo == []
    ensures var cutoff := t.passes[p].cutoff;
            Step(t, Drop(p)) == SetPass(t.(hot := set r | r in t.hot && !Before(r.time.hour, cutoff)), p, Idle)
  {
  }

  /** Nothing that the invariant says of other hours and passes has changed. */
  ghost predicate Steady(t: Tiers, v: Tiers, p: nat) {
    && v.bucket == t.bucket && v.ingested == t.ingested && v.hot == t.hot && v.ledger == t.ledger
    && (forall g: Hour, n: nat | Archived(t, g, n) :: Archived(v, g, n))
    && p < |v.passes| == |t.passes| && forall i | 0 <= i < |t.passes| && i != p :: v.passes[i] == t.passes[i]
  }

  lemma PassOkSteady(t: Tiers, v: Tiers, p: nat, pass: Pass)
    requires Steady(t, v, p) && PassOk(t, pass)
    ensures PassOk(v, pass)
  {
    hide Archived;
    assert forall g :: AllRows(v, g) == AllRows(t, g);
  }

  lemma SteadyKeeps(t: Tiers, v: Tiers, p: nat)
    requires Inv(t) && Steady(t, v, p) && PassOk(v, v.passes[p])
    ensures Inv(v)
  {
    hide Archived, PassOk;
    forall i | 0 <= i < |v.passes| ensures PassOk(v, v.passes[i]) {
      if i != p { PassOkSteady(t, v, p, t.passes[i]); }
    }
  }

  lemma BeginKeeps(t: Tiers, p: nat, cutoff: Hour)
    requires Inv(t)
    ensures Inv(Step(t, Begin(p, cutoff)))
  {
    if p < |t.passes| && t.passes[p].Idle? {
      hide Step, Archived;
      BeginIs(t, p, cutoff);
      var todo := Ascending(PendingHours(t, cutoff));
      if todo != [] {
        ScanIsOk(t, cutoff);
        SteadyKeeps(t, SetPass(t, p, Pass(cutoff, todo, AtHour)), p);
      }
    }
  }

  lemma ScanIsOk(t: Tiers, cutoff: Hour)
    requires t.hot <= t.ingested
    ensures PassOk(t, Pass(cutoff, Ascending(PendingHours(t, cutoff)), AtHour))
    ensures forall p: nat | p < |t.passes| ::
              var pass := Pass(cutoff, Ascending(PendingHours(t, cutoff)), AtHour); PassOk(SetPass(t, p, pass), pass)
  {
    var todo := Ascending(PendingHours(t, cutoff));
    forall h | h in todo ensures AllRows(t, h) != {} {
      var r :| r in t.hot && r.time.hour == h;
      assert r in AllRows(t, h);
    }
    forall p: nat | p < |t.passes|
      ensures PassOk(SetPass(t, p, Pass(cutoff, todo, AtHour)), Pass(cutoff, todo, AtHour))
    {
      assert forall g :: AllRows(SetPass(t, p, Pass(cutoff, todo, AtHour)), g) == AllRows(t, g);
    }
  }

  lemma OpenKeeps(t: Tiers, p: nat)
    requires Inv(t)
    ensures Inv(Step(t, OpenCursor(p)))
  {
    if p < |t.passes| && t.passes[p].Pass? && t.passes[p].todo != [] && t.passes[p].stage.AtHour? {
      hide Step;
      OpenIs(t, p);
      var pass := t.passes[p];
      assert PassOk(t, pass);
      var v := SetPass(t, p, pass.(stage := StageOf(HotRows(t, pass.todo[0]))));
      SnapshotIsWhole(t, pass.todo[0]);
      assert pass.todo[0] in pass.todo;
      assert forall g :: AllRows(v, g) == AllRows(t, g);
      SteadyKeeps(t, v, p);
    }
  }

  /** What the cursor sees of an hour is all of it, or nothing of a recorded hour. */
  lemma SnapshotIsWhole(t: Tiers, h: Hour)
    requires Inv(t) && AllRows(t, h) != {}
    ensures if HotRows(t, h) == {} then h in t.ledger else HotRows(t, h) == AllRows(t, h)
  {
    hide Archived, PassOk;
    if HotRows(t, h) == {} {
      var r :| r in AllRows(t, h);
      assert r !in HotRows(t, h);
    } else {
      var r :| r in HotRows(t, h);
      assert HotRows(t, h) == AllRows(t, h);
    }
  }

  /** Overwriting an object changes what is archived for its own hour only. */
  lemma OverwriteTouchesOneHour(t: Tiers, h: Hour, s: set<Row>, g: Hour, n: nat)
    requires g != h
    ensures Archived(t.(cold := t.cold[HourPath(t.bucket, h) := s]), g, n) <==> Archived(t, g, n)
  {
    HourPathInjective(t.bucket, g, h);
    assert AllRows(t.(cold := t.cold[HourPath(t.bucket, h) := s]), g) == AllRows(t, g);
  }

  lemma CloseKeeps(t: Tiers, p: nat)
    requires Inv(t)
    ensures Inv(Step(t, CloseObject(p)))
  {
    if p < |t.passes| && t.passes[p].Pass? && t.passes[p].todo != [] && t.passes[p].stage.Opened? {
      hide HourPath;
      var h, s := t.passes[p].todo[0], t.passes[p].stage.snapshot;
      var v := Step(t, CloseObject(p));
      assert PassOk(t, t.passes[p]);
      assert forall g :: AllRows(v, g) == AllRows(t, g);
      forall g: Hour, n: nat | Archived(t, g, n) ensures Archived(v, g, n) {
        if g != h { OverwriteTouchesOneHour(t, h, s, g, n); }
      }
      assert Archived(v, h, |s|);
      SteadyKeeps(t, v, p);
    }
  }

  lemma PartialKeepsExactly(t: Tiers, p: nat, part: set<Row>)
    requires Inv(t) && p < |t.passes| && t.passes[p].Pass? && t.passes[p].todo != []
    requires t.passes[p].stage.Opened? && part < t.passes[p].stage.snapshot
    ensures Inv(Step(t, FailPartial(p, part))) <==> PartialSafe(t, p, t.passes[p].todo[0])
  {
    hide Step, HourPath;
    var v := Step(t, FailPartial(p, part));
    var h := t.passes[p].todo[0];
    PartialIs(t, p, part);
    PartialArchives(t, p, part);
    if PartialSafe(t, p, h) {
      SafePartialKeeps(t, v, p, h);
    } else {
      UnsafePartialBreaks(t, v, p, h);
    }
  }

  lemma PartialArchives(t: Tiers, p: nat, part: set<Row>)
    requires Inv(t) && p < |t.passes| && t.passes[p].Pass? && t.passes[p].todo != []
    requires t.passes[p].stage.Opened? && part < t.passes[p].stage.snapshot
    ensures var h := t.passes[p].todo[0];
            var v := SetPass(t.(cold := t.cold[HourPath(t.bucket, h) := part]), p, Idle);
            && (forall g: Hour, n: nat | g != h :: Archived(v, g, n) <==> Archived(t, g, n))
            && (forall n: nat :: !Archived(v, h, n))
            && forall g :: AllRows(v, g) == AllRows(t, g)
  {
    hide HourPath;
    var h := t.passes[p].todo[0];
    var v := SetPass(t.(cold := t.cold[HourPath(t.bucket, h) := part]), p, Idle);
    assert PassOk(t, t.passes[p]);
    assert forall g :: AllRows(v, g) == AllRows(t, g);
    forall g: Hour, n: nat | g != h ensures Archived(v, g, n) <==> Archived(t, g, n) {
      OverwriteTouchesOneHour(t, h, part, g, n);
    }
  }

  lemma SafePartialKeeps(t: Tiers, v: Tiers, p: nat, h: Hour)
    requires Inv(t) && p < |t.passes| && PartialSafe(t, p, h)
    requires v == t.(cold := v.cold, passes := t.passes[p := Idle])
    requires forall g: Hour, n: nat | g != h :: Archived(v, g, n) <==> Archived(t, g, n)
    requires forall g :: AllRows(v, g) == AllRows(t, g)
    ensures Inv(v)
  {
    hide Archived, AllRows;
    forall i | 0 <= i < |v.passes| ensures PassOk(v, v.passes[i]) {
      assert PassOk(t, t.passes[i]);
    }
  }

  lemma UnsafePartialBreaks(t: Tiers, v: Tiers, p: nat, h: Hour)
    requires p < |t.passes| && !PartialSafe(t, p, h)
    requires v == t.(cold := v.cold, passes := t.passes[p := Idle]) && forall n: nat :: !Archived(v, h, n)
    ensures !Inv(v)
  {
    hide Archived, AllRows;
    if h !in t.ledger {
      var i :| 0 <= i < |t.passes| && i != p && t.passes[i].Pass? && t.passes[i].todo != []
        && t.passes[i].todo[0] == h && t.passes[i].stage.Written?;
      assert !PassOk(v, v.passes[i]);
    }
  }

  /** A pass stays as it should be while rows leave the hot tier and hours enter the ledger. */
  lemma PassOkGrown(t: Tiers, v: Tiers, pass: Pass)
    requires v.hot <= t.hot && t.ledger.Keys <= v.ledger.Keys && PassOk(t, pass)
    requires forall g :: AllRows(v, g) == AllRows(t, g)
    requires forall g: Hour, n: nat :: Archived(v, g, n) <==> Archived(t, g, n)
    ensures PassOk(v, pass)
  {
    hide AllRows, Archived;
  }

  lemma TailOk(t: Tiers, v: Tiers, pass: Pass)
    requires PassOk(t, pass) && pass.Pass? && pass.todo != []
    requires v.hot == t.hot && t.ledger.Keys <= v.ledger.Keys && pass.todo[0] in v.ledger
    requires forall g :: AllRows(v, g) == AllRows(t, g)
    ensures PassOk(v, pass.(todo := pass.todo[1..], stage := AtHour))
  {
    hide AllRows, Archived;
    assert pass.todo == [pass.todo[0]] + pass.todo[1..];
  }

  lemma RecordKeeps(t: Tiers, p: nat)
    requires Inv(t)
    ensures Inv(Step(t, Record(p)))
  {
    if p < |t.passes| && t.passes[p].Pass? && t.passes[p].todo != [] && t.passes[p].stage.Written? {
      hide Step, Archived, AllRows, PassOk;
      RecordIs(t, p);
      var v := Step(t, Record(p));
      RecordArchives(t, v);
      WrittenIsArchived(t, t.passes[p]);
      forall i | 0 <= i < |v.passes| ensures PassOk(v, v.passes[i]) {
        if i == p { TailOk(t, v, t.passes[p]); } else { PassOkGrown(t, v, t.passes[i]); }
      }
    }
  }

  lemma WrittenIsArchived(t: Tiers, pass: Pass)
    requires PassOk(t, pass) && pass.Pass? && pass.todo != [] && pass.stage.Written?
    ensures pass.todo[0] in t.ledger || Archived(t, pass.todo[0], pass.stage.count)
  {
  }

  lemma RecordArchives(t: Tiers, v: Tiers)
    requires v.ingested == t.ingested && v.cold == t.cold && v.bucket == t.bucket
    ensures forall g :: AllRows(v, g) == AllRows(t, g)
    ensures forall g: Hour, n: nat :: Archived(v, g, n) <==> Archived(t, g, n)
  {
    hide HourPath;
    assert forall g :: AllRows(v, g) == AllRows(t, g);
  }

  lemma DropKeeps(t: Tiers, p: nat)
    requires Inv(t)
    ensures Inv(Step(t, Drop(p)))
  {
    if p < |t.passes| && t.passes[p].Pass? && t.passes[p].todo == [] {
      DoneCovers(t, t.passes[p]);
      hide Step, Archived, AllRows, PassOk;
      DropIs(t, p);
      var v := Step(t, Drop(p));
      RecordArchives(t, v);
      IdleIsOk(v);
      forall i | 0 <= i < |v.passes| ensures PassOk(v, v.passes[i]) {
        if i != p { PassOkGrown(t, v, t.passes[i]); }
      }
    }
  }

  /** When a pass is through, every hot row below its cutoff is in a recorded hour. */
  lemma DoneCovers(t: Tiers, pass: Pass)
    requires PassOk(t, pass) && pass.Pass? && pass.todo == []
    ensures forall r | r in t.hot && Before(r.time.hour, pass.cutoff) :: r.time.hour in t.ledger
  {
  }

  lemma IdleIsOk(t: Tiers)
    ensures PassOk(t, Idle)
  {
  }

  lemma FailKeeps(t: Tiers, p: nat)
    requires Inv(t)
    ensures Inv(Step(t, Fail(p)))
  {
    var v := Step(t, Fail(p));
    if v != t {
      hide Archived, AllRows, PassOk, Step;
      FailIs(t, p);
      RecordArchives(t, v);
      IdleIsOk(v);
      forall i | 0 <= i < |v.passes| ensures PassOk(v, v.passes[i]) {
        if i != p { PassOkGrown(t, v, t.passes[i]); }
      }
    }
  }

  lemma FailIs(t: Tiers, p: nat)
    requires Step(t, Fail(p)) != t
    ensures p < |t.passes| && Step(t, Fail(p)) == SetPass(t, p, Idle)
  {
  }

  /** The exact boundary: a step keeps the invariant if and only if it is safe. */
  lemma StepKeepsExactly(t: Tiers, a: Action)
    requires Inv(t)
    ensures Inv(Step(t, a)) <==> Safe(t, a)
  {
    hide Inv;
    match a
    case Ingest(r) =>
      if r !in t.ingested {
        if IngestSafe(t, r.time.hour) { SafeIngestKeeps(t, r); } else { UnsafeIngestBreaks(t, r); }
      }
    case Begin(p, cutoff) => BeginKeeps(t, p, cutoff);
    case OpenCursor(p) => OpenKeeps(t, p);
    case CloseObject(p) => CloseKeeps(t, p);
    case Record(p) => RecordKeeps(t, p);
    case Drop(p) => DropKeeps(t, p);
    case Fail(p) => FailKeeps(t, p);
    case FailPartial(p, part) => FailPartialKeepsExactly(t, p, part);
  }

  lemma FailPartialKeepsExactly(t: Tiers, p: nat, part: set<Row>)
    requires Inv(t)
    ensures Inv(Step(t, FailPartial(p, part))) <==> Safe(t, FailPartial(p, part))
  {
    hide Inv, HourPath, PartialSafe;
    if p < |t.passes| && t.passes[p].Pass? && t.passes[p].todo != [] && t.passes[p].stage.Opened? {
      var s := t.passes[p].stage.snapshot;
      if part < s {
        PartialKeepsExactly(t, p, part);
      } else if part == s {
        CloseKeeps(t, p);
        FailKeeps(Step(t, CloseObject(p)), p);
        assert Step(Step(t, CloseObject(p)), Fail(p)) == Step(t, FailPartial(p, part));
      }
    }
  }

  // ---- Whole runs -------------------------------------------------------------------------

  /** Rows arrive only in hours at or above every cutoff that any pass has used so far. */
  ghost predicate Polite(actions: seq<Action>, used: set<Hour>)
    decreases actions
  {
    actions == [] || (
      && (actions[0].Ingest? ==> forall c | c in used :: !Before(actions[0].row.time.hour, c))
      && Polite(actions[1..], used + if actions[0].Begin? then {actions[0].cutoff} else {}))
  }

  ghost predicate NoPartial(actions: seq<Action>) {
    forall a | a in actions :: !a.FailPartial?
  }

  /** What politeness adds to the invariant, and what a lone exporter adds on top. */
  ghost predicate Bounded(t: Tiers, used: set<Hour>) {
    && (forall h | h in t.ledger :: exists c :: c in used && Before(h, c))
    && (forall i | 0 <= i < |t.passes| && t.passes[i].Pass? :: t.passes[i].cutoff in used)
  }

  ghost predicate Lone(t: Tiers) {
    |t.passes| == 1 && (t.passes[0].Pass? ==> forall h | h in t.passes[0].todo :: h !in t.ledger)
  }

  lemma PoliteIsSafe(t: Tiers, a: Action, used: set<Hour>)
    requires Inv(t) && Bounded(t, used)
    requires a.Ingest? ==> forall c | c in used :: !Before(a.row.time.hour, c)
    requires Lone(t) || !a.FailPartial?
    ensures Safe(t, a)
  {
    if a.Ingest? {
      var h := a.row.time.hour;
      forall i | 0 <= i < |t.passes| && t.passes[i].Pass? && t.passes[i].todo != []
        ensures t.passes[i].todo[0] != h
      {
        assert PassOk(t, t.passes[i]) && t.passes[i].todo[0] in t.passes[i].todo;
      }
    }
  }

  lemma RecordStaysBounded(t: Tiers, p: nat, used: set<Hour>)
    requires Inv(t) && Bounded(t, used)
    ensures Bounded(Step(t, Record(p)), used) && (Lone(t) ==> Lone(Step(t, Record(p))))
  {
    if p < |t.passes| && t.passes[p].Pass? && t.passes[p].todo != [] && t.passes[p].stage.Written? {
      var pass := t.passes[p];
      assert PassOk(t, pass) && pass.todo[0] in pass.todo;
      assert Before(pass.todo[0], pass.cutoff);
      forall h | h in pass.todo[1..] ensures h in pass.todo && h != pass.todo[0] {
        var k :| 0 <= k < |pass.todo[1..]| && h == pass.todo[1..][k];
        assert h == pass.todo[k + 1];
      }
    }
  }

  lemma BeginStaysBounded(t: Tiers, p: nat, cutoff: Hour, used: set<Hour>)
    requires Inv(t) && Bounded(t, used)
    ensures Bounded(Step(t, Begin(p, cutoff)), used + {cutoff})
    ensures Lone(t) ==> Lone(Step(t, Begin(p, cutoff)))
  {
  }

  lemma OtherStaysBounded(t: Tiers, a: Action, used: set<Hour>)
    requires Inv(t) && Bounded(t, used) && !a.Record? && !a.Begin?
    ensures Bounded(Step(t, a), used) && (Lone(t) ==> Lone(Step(t, a)))
  {
    OtherKeepsScans(t, a);
  }

  /** Apart from a scan and a record, no step touches the ledger or the hours to come. */
  lemma OtherKeepsScans(t: Tiers, a: Action)
    requires !a.Record? && !a.Begin?
    ensures var v := Step(t, a);
            && v.ledger == t.ledger && |v.passes| == |t.passes|
            && forall i | 0 <= i < |v.passes| && v.passes[i].Pass? ::
                 t.passes[i].Pass? && v.passes[i].cutoff == t.passes[i].cutoff && v.passes[i].todo == t.passes[i].todo
  {
  }

  lemma PoliteStep(t: Tiers, a: Action, used: set<Hour>)
    requires Inv(t) && Bounded(t, used)
    requires a.Ingest? ==> forall c | c in used :: !Before(a.row.time.hour, c)
    requires Lone(t) || !a.FailPartial?
    ensures Inv(Step(t, a)) && (Lone(t) ==> Lone(Step(t, a)))
    ensures Bounded(Step(t, a), used + if a.Begin? then {a.cutoff} else {})
  {
    PoliteIsSafe(t, a, used);
    StepKeepsExactly(t, a);
    match a
    case Record(p) => RecordStaysBounded(t, p, used);
    case Begin(p, cutoff) => BeginStaysBounded(t, p, cutoff, used);
    case _ => OtherStaysBounded(t, a, used);
  }

  /** Nothing is lost on any run with polite arrivals: with one exporter whatever fails, and
      with any number of exporters as long as no failing write publishes part of an hour. */
  lemma {:induction false} RunConserves(t: Tiers, actions: seq<Action>, used: set<Hour>)
    requires Inv(t) && Bounded(t, used) && Polite(actions, used)
    requires Lone(t) || NoPartial(actions)
    ensures Inv(Run(t, actions)) && Conserved(Run(t, actions))
    decreases actions
  {
    if actions == [] {
      InvConserves(t);
    } else {
      assert actions[0] in actions;
      assert forall a | a in actions[1..] :: a in actions;
      PoliteStep(t, actions[0], used);
      RunConserves(Step(t, actions[0]), actions[1..], used + if actions[0].Begin? then {actions[0].cutoff} else {});
    }
  }

  function Empty(bucket: string, exporters: nat): Tiers {
    Tiers(bucket, {}, {}, map[], map[], seq(exporters, _ => Idle))
  }

  lemma EmptyIsSound(bucket: string, exporters: nat)
    ensures Inv(Empty(bucket, exporters)) && Bounded(Empty(bucket, exporters), {})
    ensures exporters == 1 ==> Lone(Empty(bucket, exporters))
  {
  }

  // ---- What goes wrong outside the boundary ------------------------------------------------

  /** Two overlapping exporters and one partial object: rows of that hour are gone as soon
      as the other exporter records the hour and drops its chunk. */
  lemma OverlappingPartialLosesRows(t: Tiers, p: nat, q: nat, part: set<Row>)
    requires Inv(t) && p < |t.passes| && q < |t.passes| && p != q
    requires t.passes[p].Pass? && t.passes[p].todo != [] && t.passes[p].stage.Opened?
    requires part < t.passes[p].stage.snapshot
    requires t.passes[q].Pass? && t.passes[q].stage.Written? && t.passes[q].todo == [t.passes[p].todo[0]]
    ensures !Conserved(Step(Step(Step(t, FailPartial(p, part)), Record(q)), Drop(q)))
  {
    hide Step, HourPath;
    var h := t.passes[p].todo[0];
    assert PassOk(t, t.passes[p]) && PassOk(t, t.passes[q]);
    assert h in t.passes[q].todo;
    var r :| r in t.passes[p].stage.snapshot && r !in part;
    assert r in AllRows(t, h);
    PartialIs(t, p, part);
    var t1 := Step(t, FailPartial(p, part));
    RecordIs(t1, q);
    var t2 := Step(t1, Record(q));
    DropIs(t2, q);
    assert r in Step(t2, Drop(q)).ingested;
  }

  lemma RunCons(t: Tiers, a: Action, rest: seq<Action>)
    ensures Run(t, [a] + rest) == Run(Step(t, a), rest)
  {
    assert ([a] + rest)[1..] == rest;
  }

  function OverlapRun(r: Row, s: Row, cutoff: Hour): seq<Action> {
    [Ingest(r), Ingest(s), Begin(0, cutoff), Begin(1, cutoff), OpenCursor(0), OpenCursor(1), CloseObject(0)]
  }

  lemma RunFive(t: Tiers, a: Action, b: Action, c: Action, d: Action, e: Action)
    ensures Run(t, [a, b, c, d, e]) == Step(Step(Step(Step(Step(t, a), b), c), d), e)
  {
    RunCons(t, a, [b, c, d, e]);
    RunCons(Step(t, a), b, [c, d, e]);
    RunCons(Step(Step(t, a), b), c, [d, e]);
    RunCons(Step(Step(Step(t, a), b), c), d, [e]);
    RunCons(Step(Step(Step(Step(t, a), b), c), d), e, []);
    assert [a, b, c, d, e] == [a] + [b, c, d, e] && [b, c, d, e] == [b] + [c, d, e];
    assert [c, d, e] == [c] + [d, e] && [d, e] == [d] + [e] && [e] == [e] + [];
  }

  lemma BothBegin(t2: Tiers, r: Row, s: Row, cutoff: Hour) returns (t4: Tiers)
    requires r.time.hour == s.time.hour && Before(r.time.hour, cutoff)
    requires t2.hot == {r, s} && t2.ledger == map[] && t2.passes == [Idle, Idle]
    ensures t4 == Step(Step(t2, Begin(0, cutoff)), Begin(1, cutoff)) && t4.hot == {r, s}
    ensures t4.passes == [Pass(cutoff, [r.time.hour], AtHour), Pass(cutoff, [r.time.hour], AtHour)]
  {
    var todo := OneHour(t2, r, s, cutoff);
    var t3 := Step(t2, Begin(0, cutoff));
    var todo3 := OneHour(t3, r, s, cutoff);
    t4 := Step(t3, Begin(1, cutoff));
  }

  lemma BothOpen(t4: Tiers, r: Row, s: Row, cutoff: Hour) returns (t6: Tiers)
    requires r.time.hour == s.time.hour && t4.hot == {r, s}
    requires t4.passes == [Pass(cutoff, [r.time.hour], AtHour), Pass(cutoff, [r.time.hour], AtHour)]
    ensures t6 == Step(Step(t4, OpenCursor(0)), OpenCursor(1))
    ensures t6.passes == [Pass(cutoff, [r.time.hour], Opened({r, s})), Pass(cutoff, [r.time.hour], Opened({r, s}))]
  {
    var h := r.time.hour;
    assert HotRows(t4, h) == {r, s} && r in {r, s};
    var t5 := Step(t4, OpenCursor(0));
    assert HotRows(t5, h) == {r, s};
    t6 := Step(t5, OpenCursor(1));
  }

  lemma AscendingLength(hs: set<Hour>)
    ensures |Ascending(hs)| == |hs|
  {
    if hs != {} {
      AscendingLength(hs - {Ascending(hs)[0]});
    }
  }

  lemma OneHour(t: Tiers, r: Row, s: Row, cutoff: Hour) returns (todo: seq<Hour>)
    requires r.time.hour == s.time.hour && Before(r.time.hour, cutoff)
    requires t.hot == {r, s} && t.ledger == map[]
    ensures todo == [r.time.hour] == Ascending(PendingHours(t, cutoff))
  {
    assert PendingHours(t, cutoff) == {r.time.hour};
    todo := Ascending({r.time.hour});
    AscendingLength({r.time.hour});
    assert r.time.hour in todo;
  }

  lemma TwoRows(bucket: string, r: Row, s: Row) returns (t: Tiers)
    requires r != s
    ensures t == Step(Step(Empty(bucket, 2), Ingest(r)), Ingest(s))
    ensures t.hot == {r, s} && t.ledger == map[] && t.passes == [Idle, Idle]
  {
    t := Step(Step(Empty(bucket, 2), Ingest(r)), Ingest(s));
    assert Empty(bucket, 2).passes == [Idle, Idle];
  }

  lemma OverlapEnds(bucket: string, r: Row, s: Row, cutoff: Hour) returns (t: Tiers)
    requires r != s && r.time.hour == s.time.hour && Before(r.time.hour, cutoff)
    ensures t == Run(Empty(bucket, 2), OverlapRun(r, s, cutoff))
    ensures t.passes == [Pass(cutoff, [r.time.hour], Written(2)), Pass(cutoff, [r.time.hour], Opened({r, s}))]
  {
    hide Step, Empty;
    var t2 := TwoRows(bucket, r, s);
    var t4 := BothBegin(t2, r, s, cutoff);
    var t6 := BothOpen(t4, r, s, cutoff);
    t := CloseFirst(t6, r, s, cutoff);
    var rest := [Begin(0, cutoff), Begin(1, cutoff), OpenCursor(0), OpenCursor(1), CloseObject(0)];
    RunCons(Empty(bucket, 2), Ingest(r), [Ingest(s)] + rest);
    RunCons(Step(Empty(bucket, 2), Ingest(r)), Ingest(s), rest);
    assert OverlapRun(r, s, cutoff) == [Ingest(r)] + ([Ingest(s)] + rest);
    RunFive(t2, Begin(0, cutoff), Begin(1, cutoff), OpenCursor(0), OpenCursor(1), CloseObject(0));
  }

  lemma CloseFirst(t6: Tiers, r: Row, s: Row, cutoff: Hour) returns (t: Tiers)
    requires r != s
    requires t6.passes == [Pass(cutoff, [r.time.hour], Opened({r, s})), Pass(cutoff, [r.time.hour], Opened({r, s}))]
    ensures t == Step(t6, CloseObject(0))
    ensures t.passes == [Pass(cutoff, [r.time.hour], Written(2)), Pass(cutoff, [r.time.hour], Opened({r, s}))]
  {
    t := Step(t6, CloseObject(0));
  }

  /** The situation above is reachable from an empty store, with polite arrivals. */
  lemma OverlapIsReachable(bucket: string, r: Row, s: Row, cutoff: Hour)
    requires r != s && r.time.hour == s.time.hour && Before(r.time.hour, cutoff)
    ensures var actions := OverlapRun(r, s, cutoff);
            var t := Run(Empty(bucket, 2), actions);
            && Polite(actions, {}) && Inv(t)
            && !Conserved(Step(Step(Step(t, FailPartial(1, {r})), Record(0)), Drop(0)))
  {
    var actions := OverlapRun(r, s, cutoff);
    var t := OverlapEnds(bucket, r, s, cutoff);
    PoliteNoArrivals(actions[2..], {});
    assert actions[1..][1..] == actions[2..];
    EmptyIsSound(bucket, 2);
    RunConserves(Empty(bucket, 2), actions, {});
    assert s in {r, s} && s !in {r};
    OverlappingPartialLosesRows(t, 1, 0, {r});
  }

  lemma PoliteNoArrivals(actions: seq<Action>, used: set<Hour>)
    requires forall a | a in actions :: !a.Ingest?
    ensures Polite(actions, used)
    decreases actions
  {
    if actions != [] {
      assert actions[0] in actions;
      PoliteNoArrivals(actions[1..], used + if actions[0].Begin? then {actions[0].cutoff} else {});
    }
  }

  /** A row that arrives late, for an hour already in the ledger, is never exported: no scan
      finds its hour, and a drop above it deletes it. */
  lemma LateRowIsLost(t: Tiers, r: Row, p: nat)
    requires Inv(t) && r !in t.ingested && r.time.hour in t.ledger
    requires p < |t.passes| && t.passes[p].Pass? && t.passes[p].todo == []
    requires Before(r.time.hour, t.passes[p].cutoff)
    ensures var late := Step(t, Ingest(r));
            && (forall cutoff :: r.time.hour !in PendingHours(late, cutoff))
            && !Conserved(Step(late, Drop(p)))
  {
    hide HourPath, PassOk;
    var late := Step(t, Ingest(r));
    assert Archived(t, r.time.hour, t.ledger[r.time.hour]);
    assert r !in AllRows(t, r.time.hour);
    hide Step;
    DropIs(late, p);
    assert r in Step(late, Drop(p)).ingested && r !in Step(late, Drop(p)).hot;
  }
}
