/**
 The persisted step machine of the orchestrator: one experiment, its rows in
 `experiment_steps`, its status in `experiments`, and the copy the running process holds.

 Everything a tick, a kick-off or a recovery does is written as a list of effects, in the
 order in which the code awaits them.  A process may die after any prefix of that list, and
 any database statement in it may raise; `Step` covers all of these outcomes.
 */
module Orchestrator {
  import opened Prelude

  datatype Schedule = Schedule(steps: nat, repeat: nat) {
    // The schedule schema demands at least one step and at least one cycle.
    predicate Valid() {
      steps >= 1 && repeat >= 1
    }

    predicate HasPosition(p: Pos) {
      p.step < steps && p.cycle < repeat
    }
  }

  datatype Pos = Pos(cycle: nat, step: nat)
  datatype RowState = Open | Closed // 'running' and 'completed'
  datatype Status = Pending | Active | Done | Failed // 'pending', 'running', 'completed', 'failed'
  datatype Mem = Mem(pos: Pos, status: Status)
  datatype World = World(rows: map<Pos, RowState>, status: Status, mem: Option<Mem>, events: seq<nat>)

  const FRESH := World(map[], Pending, None, [])

  predicate Before(p: Pos, q: Pos) {
    p.cycle < q.cycle || (p.cycle == q.cycle && p.step < q.step)
  }

  function Next(sch: Schedule, p: Pos): Pos {
    if p.step + 1 >= sch.steps then Pos(p.cycle + 1, 0) else Pos(p.cycle, p.step + 1)
  }

  // ---- Effects ----------------------------------------------------------------------

  datatype Effect =
    | CloseRow(at: Pos)
    | InsertRow(at: Pos)
    | SetStatus(to: Status)
    | Enqueue(cycle: nat)
    | Remember(mem: Option<Mem>)
  {
    predicate IsStatement() {
      CloseRow? || InsertRow? || SetStatus?
    }
  }

  function Apply(w: World, e: Effect): World {
    match e
    case CloseRow(p) => if p in w.rows then w.(rows := w.rows[p := Closed]) else w
    case InsertRow(p) => if p in w.rows then w else w.(rows := w.rows[p := Open])
    case SetStatus(s) => w.(status := s)
    case Enqueue(c) => w.(events := w.events + [c])
    case Remember(m) => w.(mem := m)
  }

  function ApplyAll(w: World, es: seq<Effect>): World
    decreases es
  {
    if es == [] then w else ApplyAll(Apply(w, es[0]), es[1..])
  }

  lemma ApplyOneMore(w: World, es: seq<Effect>, e: Effect)
    ensures ApplyAll(w, es + [e]) == Apply(ApplyAll(w, es), e)
    decreases es
  {
    if es != [] {
      assert (es + [e])[1..] == es[1..] + [e];
      ApplyOneMore(Apply(w, es[0]), es[1..], e);
    }
  }

  // ---- What the code does, as effects -----------------------------------------------

  datatype Observation =
    | Unreadable // read_channel raised OSError
    | Latched    // last_error != NONE
    | Ended(queueFull: bool) // the end condition holds; a full event queue drops the event
    | Continues

  function TickEffects(sch: Schedule, m: Mem, obs: Observation): seq<Effect> {
    match obs
    case Unreadable => []
    case Continues => []
    case Latched => [Remember(Some(m.(status := Failed))), CloseRow(m.pos), SetStatus(Failed)]
    case Ended(full) =>
      var next := Next(sch, m.pos);
      [CloseRow(m.pos)]
      + (if next.step == 0 && !full then [Enqueue(m.pos.cycle)] else [])
      + Moving(sch, m)
  }

  function Moving(sch: Schedule, m: Mem): seq<Effect> {
    var next := Next(sch, m.pos);
    if next.cycle >= sch.repeat
    then [Remember(Some(Mem(next, Done))), SetStatus(Done)]
    else [Remember(Some(Mem(next, m.status))), InsertRow(next)]
  }

  datatype StartOutcome =
    | Unreachable       // no such chassis, or the schedule does not load
    | Unanswered        // a Modbus call raised OSError: the experiment is not registered
    | Refused           // chemistry read-back differs / channel latched / re-issue failed
    | Accepted

  function KickoffEffects(o: StartOutcome): seq<Effect> {
    var start := [SetStatus(Active), InsertRow(Pos(0, 0))];
    match o
    case Unreachable => [SetStatus(Failed)]
    case Unanswered => start
    case Refused => start + [SetStatus(Failed), Remember(Some(Mem(Pos(0, 0), Failed)))]
    case Accepted => start + [Remember(Some(Mem(Pos(0, 0), Active)))]
  }

  lemma LastRowExists(ps: set<Pos>)
    requires ps != {}
    ensures exists p :: p in ps && forall q | q in ps :: q == p || Before(q, p)
    decreases ps
  {
    var x :| x in ps;
    if ps != {x} {
      var rest := ps - {x};
      LastRowExists(rest);
      var p :| p in rest && forall q | q in rest :: q == p || Before(q, p);
      var top := if Before(p, x) then x else p;
      assert forall q | q in ps :: q == x || q in rest;
      assert top in ps && forall q | q in ps :: q == top || Before(q, top);
    }
  }

  // ORDER BY cycle_index DESC, step_index DESC LIMIT 1
  function LastRow(rows: map<Pos, RowState>): (p: Pos)
    requires rows != map[]
    ensures p in rows && forall q | q in rows :: q == p || Before(q, p)
  {
    LastRowExists(rows.Keys);
    var p :| p in rows && forall q | q in rows :: q == p || Before(q, p);
    p
  }

  function ResumePos(sch: Schedule, rows: map<Pos, RowState>): Pos {
    if rows == map[] then Pos(0, 0)
    else
      var last := LastRow(rows);
      if rows[last] == Open then last else Next(sch, last)
  }

  function ResumeEffects(sch: Schedule, w: World, o: StartOutcome): seq<Effect> {
    var p := ResumePos(sch, w.rows);
    if o.Unreachable? then [SetStatus(Failed)]
    else if p.cycle >= sch.repeat then [SetStatus(Done)]
    else match o
      case Unanswered => []
      case Refused => [SetStatus(Failed)]
      case _ => [InsertRow(p), Remember(Some(Mem(p, Active)))]
  }

  // ---- Runs --------------------------------------------------------------------------

  datatype Act = Kickoff(o: StartOutcome) | Tick(obs: Observation) | Reap | Resume(o: StartOutcome)
  datatype Fate =
    | Completes
    | Dies(after: nat)  // the process is gone after that many effects
    | Raises(at: nat)   // that effect, a database statement, fails; the process lives on
  datatype Op = Op(act: Act, fate: Fate)

  function Effects(sch: Schedule, w: World, a: Act): seq<Effect> {
    match a
    case Kickoff(o) => if w.status == Pending && w.mem.None? then KickoffEffects(o) else []
    case Resume(o) => if w.status == Active && w.mem.None? then ResumeEffects(sch, w, o) else []
    case Tick(obs) =>
      if w.mem.Some? && w.mem.value.status == Active then TickEffects(sch, w.mem.value, obs) else []
    case Reap =>
      if w.mem.Some? && w.mem.value.status in {Done, Failed} then [Remember(None)] else []
  }

  function Upto(es: seq<Effect>, k: nat): seq<Effect> {
    if k < |es| then es[..k] else es
  }

  function Step(sch: Schedule, w: World, op: Op): World {
    var es := Effects(sch, w, op.act);
    match op.fate
    case Completes => ApplyAll(w, es)
    case Dies(k) => ApplyAll(w, Upto(es, k)).(mem := None)
    case Raises(k) => ApplyAll(w, if k < |es| && es[k].IsStatement() then es[..k] else es)
  }

  function Run(sch: Schedule, w: World, ops: seq<Op>): World {
    if ops == [] then w else Step(sch, Run(sch, w, ops[..|ops| - 1]), ops[|ops| - 1])
  }

  // ---- The invariant -----------------------------------------------------------------

  ghost predicate IsPrefix(sch: Schedule, rows: map<Pos, RowState>, end: Pos) {
    && end.step < sch.steps
    && (sch.HasPosition(end) || end == Pos(sch.repeat, 0))
    && forall p: Pos :: p in rows <==> p.step < sch.steps && Before(p, end)
  }

  ghost predicate AllClosed(rows: map<Pos, RowState>) {
    forall p | p in rows :: rows[p] == Closed
  }

  ghost predicate Increasing(xs: seq<nat>) {
    forall i, j | 0 <= i < j < |xs| :: xs[i] < xs[j]
  }

  /** What the database and the event log always look like; `end` is the first missing row. */
  ghost predicate Persisted(sch: Schedule, w: World, end: Pos) {
    && IsPrefix(sch, w.rows, end)
    && (forall p | p in w.rows && w.rows[p] == Open :: Next(sch, p) == end)
    && (w.status == Pending ==> w.rows == map[])
    && (w.status == Done ==> end == Pos(sch.repeat, 0) && AllClosed(w.rows))
    && Increasing(w.events)
    && (forall c | c in w.events ::
          Pos(c, sch.steps - 1) in w.rows && w.rows[Pos(c, sch.steps - 1)] == Closed)
  }

  /** A live copy stands on the last row, and that row is still open. */
  ghost predicate Remembered(sch: Schedule, w: World, end: Pos) {
    match w.mem
    case None => true
    case Some(m) =>
      && m.status != Pending
      && w.status != Pending
      && (m.status == Active ==>
            && w.status == Active
            && m.pos in w.rows && w.rows[m.pos] == Open
            && Next(sch, m.pos) == end)
  }

  ghost predicate Inv(sch: Schedule, w: World) {
    exists end :: Persisted(sch, w, end) && Remembered(sch, w, end)
  }
}
