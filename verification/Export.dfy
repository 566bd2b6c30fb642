/**
 Moving telemetry from the hot tier (TimescaleDB) to the cold tier (one parquet object per
 hour) with a ledger of finished hours.  Any number of export passes - the periodic loop and
 `--now` runs - interleave step by step with each other and with arriving rows; a pass may
 fail or die at any step, and a failing write may leave a partial object behind.
 */
module Export {
  import opened HivePath

  datatype Row = Row(time: Timestamp, id: nat)

  datatype Stage =
    | AtHour                       // about to open the cursor on the head of todo
    | Opened(snapshot: set<Row>)   // the cursor sees these rows; the object is being written
    | Written(count: nat)          // object closed, or hour found empty; not yet recorded
  datatype Pass = Idle | Pass(cutoff: Hour, todo: seq<Hour>, stage: Stage)

  datatype Tiers = Tiers(
    bucket: string,
    ingested: set<Row>,            // every row ever inserted
    hot: set<Row>,                 // telemetry
    cold: map<string, set<Row>>,   // object path -> rows in the object
    ledger: map<Hour, nat>,        // parquet_exports: hour_start -> row_count
    passes: seq<Pass>)

  function HotRows(t: Tiers, h: Hour): set<Row> {
    set r | r in t.hot && r.time.hour == h
  }

  function AllRows(t: Tiers, h: Hour): set<Row> {
    set r | r in t.ingested && r.time.hour == h
  }

  // ---- Pending hours, in ascending order -------------------------------------------------

  function PendingHours(t: Tiers, cutoff: Hour): set<Hour> {
    set r | r in t.hot && Before(r.time.hour, cutoff) && r.time.hour !in t.ledger :: r.time.hour
  }

  lemma EarliestExists(hs: set<Hour>)
    requires hs != {}
    ensures exists h :: h in hs && forall g | g in hs :: g == h || Before(h, g)
  {
    var x :| x in hs;
    if hs != {x} {
      var rest := hs - {x};
      EarliestExists(rest);
      var h :| h in rest && forall g | g in rest :: g == h || Before(h, g);
      var first := if Before(x, h) then x else h;
      assert forall g | g in hs :: g == x || g in rest;
      assert first in hs && forall g | g in hs :: g == first || Before(first, g);
    }
  }

  function Ascending(hs: set<Hour>): (s: seq<Hour>)
    ensures forall h :: h in s <==> h in hs
    ensures forall i, j | 0 <= i < j < |s| :: Before(s[i], s[j])
  {
    if hs == {} then []
    else
      EarliestExists(hs);
      var h :| h in hs && forall g | g in hs :: g == h || Before(h, g);
      var rest := Ascending(hs - {h});
      assert forall i | 0 <= i < |rest| :: rest[i] in rest;
      [h] + rest
  }

  // ---- Steps ------------------------------------------------------------------------------

  datatype Action =
    | Ingest(row: Row)
    | Begin(p: nat, cutoff: Hour)       // hour_floor(now - age), find_pending_hours
    | OpenCursor(p: nat)
    | CloseObject(p: nat)
    | Record(p: nat)                    // INSERT ... ON CONFLICT DO NOTHING
    | Drop(p: nat)                      // drop_chunks(older_than => cutoff)
    | Fail(p: nat)                      // the pass ends or dies here, publishing nothing
    | FailPartial(p: nat, part: set<Row>) // ... after `finally` closed a partly written object

  function Step(t: Tiers, a: Action): Tiers {
    match a
    case Ingest(r) =>
      if r in t.ingested then t else t.(ingested := t.ingested + {r}, hot := t.hot + {r})
    case _ => if a.p < |t.passes| then StepPass(t, a, t.passes[a.p]) else t
  }

  /** An hour without rows writes no object. */
  function StageOf(snapshot: set<Row>): Stage {
    if snapshot == {} then Written(0) else Opened(snapshot)
  }

  function StepPass(t: Tiers, a: Action, pass: Pass): Tiers
    requires !a.Ingest? && a.p < |t.passes|
  {
    if pass.Idle? then
      if a.Begin? then
        var todo := Ascending(PendingHours(t, a.cutoff));
        if todo == [] then t else SetPass(t, a.p, Pass(a.cutoff, todo, AtHour))
      else t
    else if a.Fail? then SetPass(t, a.p, Idle)
    else if pass.todo == [] then
      if a.Drop? then
        SetPass(t.(hot := set r | r in t.hot && !Before(r.time.hour, pass.cutoff)), a.p, Idle)
      else t
    else
      var h := pass.todo[0];
      match (a, pass.stage)
      case (OpenCursor(p), AtHour) =>
        var snapshot := HotRows(t, h);
        SetPass(t, p, pass.(stage := StageOf(snapshot)))
      case (CloseObject(p), Opened(s)) =>
        SetPass(t.(cold := t.cold[HourPath(t.bucket, h) := s]), p, pass.(stage := Written(|s|)))
      case (FailPartial(p, part), Opened(s)) =>
        if part <= s then SetPass(t.(cold := t.cold[HourPath(t.bucket, h) := part]), p, Idle) else t
      case (Record(p), Written(n)) =>
        var ledger := if h in t.ledger then t.ledger else t.ledger[h := n];
        SetPass(t.(ledger := ledger), p, pass.(todo := pass.todo[1..], stage := AtHour))
      case _ => t
  }

  function SetPass(t: Tiers, p: nat, pass: Pass): Tiers
    requires p < |t.passes|
  {
    t.(passes := t.passes[p := pass])
  }

  function Run(t: Tiers, actions: seq<Action>): Tiers
    decreases actions
  {
    if actions == [] then t else Run(Step(t, actions[0]), actions[1..])
  }

  // ---- Invariant --------------------------------------------------------------------------

  ghost predicate Archived(t: Tiers, h: Hour, count: nat) {
    && HourPath(t.bucket, h) in t.cold
    && t.cold[HourPath(t.bucket, h)] == AllRows(t, h)
    && count == |AllRows(t, h)|
  }

  ghost predicate PassOk(t: Tiers, pass: Pass) {
    pass.Pass? ==>
      && (forall i, j | 0 <= i < j < |pass.todo| :: Before(pass.todo[i], pass.todo[j]))
      && (forall h | h in pass.todo :: Before(h, pass.cutoff) && AllRows(t, h) != {})
      && (forall r | r in t.hot && Before(r.time.hour, pass.cutoff) ::
            r.time.hour in t.ledger || r.time.hour in pass.todo)
      && match pass.stage
         case AtHour => true
         case Opened(s) => pass.todo != [] && s != {} && s == AllRows(t, pass.todo[0])
         case Written(n) =>
           pass.todo != [] && (pass.todo[0] in t.ledger || Archived(t, pass.todo[0], n))
  }

  ghost predicate Inv(t: Tiers) {
    && t.hot <= t.ingested
    && (forall r | r in t.ingested && r !in t.hot :: r.time.hour in t.ledger)
    && (forall r, s | r in t.hot && s in t.ingested && s.time.hour == r.time.hour :: s in t.hot)
    && (forall h | h in t.ledger :: Archived(t, h, t.ledger[h]))
    && (forall i | 0 <= i < |t.passes| :: PassOk(t, t.passes[i]))
  }

  /** No row is ever lost: each is still hot, or in the object of its hour. */
  ghost predicate Conserved(t: Tiers) {
    forall r | r in t.ingested ::
      || r in t.hot
      || (var path := HourPath(t.bucket, r.time.hour); path in t.cold && r in t.cold[path])
  }

  lemma InvConserves(t: Tiers)
    requires Inv(t)
    ensures Conserved(t)
  {
    forall r | r in t.ingested && r !in t.hot
      ensures var path := HourPath(t.bucket, r.time.hour); path in t.cold && r in t.cold[path]
    {
      assert r in AllRows(t, r.time.hour);
    }
  }

  // ---- Which steps are safe ---------------------------------------------------------------

  ghost predicate IngestSafe(t: Tiers, h: Hour) {
    && h !in t.ledger
    && forall i | 0 <= i < |t.passes| && t.passes[i].Pass? ::
         var pass := t.passes[i];
         && (Before(h, pass.cutoff) ==> h in pass.todo)
         && (pass.stage != AtHour && pass.todo != [] ==> pass.todo[0] != h)
  }

  ghost predicate PartialSafe(t: Tiers, p: nat, h: Hour) {
    && h !in t.ledger
    && forall i | 0 <= i < |t.passes| && i != p && t.passes[i].Pass? && t.passes[i].todo != [] ::
         t.passes[i].todo[0] == h ==> !t.passes[i].stage.Written?
  }

  ghost predicate Safe(t: Tiers, a: Action) {
    match a
    case Ingest(r) => r in t.ingested || IngestSafe(t, r.time.hour)
    case FailPartial(p, part) =>
      (p < |t.passes| && t.passes[p].Pass? && t.passes[p].todo != []
       && t.passes[p].stage.Opened? && part < t.passes[p].stage.snapshot)
      ==> PartialSafe(t, p, t.passes[p].todo[0])
    case _ => true
  }
}
