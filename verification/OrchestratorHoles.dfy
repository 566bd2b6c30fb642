/**
 The one fault of the step machine: a tick that survives the loss of its INSERT.  The hole it
 leads to is there for good, and a run of three operations from a fresh experiment reaches it.
 */
module OrchestratorHoles {
  import opened Prelude
  import opened Orchestrator
  import opened OrchestratorProofs

  /** A position has no row though a later one has, and nothing is about to go back to it. */
  ghost predicate Passed(sch: Schedule, w: World, h: Pos) {
    && sch.HasPosition(h) && h !in w.rows && w.status != Pending
    && (exists p :: p in w.rows && Before(h, p))
    && (w.mem.Some? && w.mem.value.status == Active ==> Before(h, w.mem.value.pos))
  }

  /** The experiment counts as completed though a position has no row. */
  ghost predicate Overlooked(sch: Schedule, w: World, h: Pos) {
    && sch.HasPosition(h) && h !in w.rows && w.status == Done
    && (w.mem.Some? ==> w.mem.value.status != Active)
  }

  ghost predicate Holed(sch: Schedule, w: World, h: Pos) {
    Passed(sch, w, h) || Overlooked(sch, w, h)
  }

  /** Effects that neither fill the hole at h nor go back to it. */
  predicate Forward(h: Pos, e: Effect) {
    match e
    case InsertRow(p) => p != h
    case SetStatus(s) => s != Pending
    case Remember(m) => m.Some? && m.value.status == Active ==> Before(h, m.value.pos)
    case _ => true
  }

  lemma {:induction false} ForwardKeepsPassed(sch: Schedule, w: World, es: seq<Effect>, h: Pos)
    requires Passed(sch, w, h) && forall e | e in es :: Forward(h, e)
    ensures Passed(sch, ApplyAll(w, es), h)
    decreases es
  {
    if es != [] {
      assert es[0] in es && forall e | e in es[1..] :: e in es;
      var p :| p in w.rows && Before(h, p);
      assert p in Apply(w, es[0]).rows;
      ForwardKeepsPassed(sch, Apply(w, es[0]), es[1..], h);
    }
  }

  /** Whatever is done next to such an experiment goes forward. */
  lemma ActsGoForward(sch: Schedule, w: World, a: Act, h: Pos)
    requires Passed(sch, w, h)
    ensures forall e | e in Effects(sch, w, a) :: Forward(h, e)
  {
    if a.Resume? && w.status == Active && w.mem.None? {
      var p :| p in w.rows && Before(h, p);
      assert LastRow(w.rows) == p || Before(p, LastRow(w.rows));
      assert Before(h, ResumePos(sch, w.rows));
    }
  }

  /** A hole is for good: no operation fills it, whatever becomes of the operation. */
  lemma StepKeepsHole(sch: Schedule, w: World, op: Op, h: Pos)
    requires Holed(sch, w, h)
    ensures Holed(sch, Step(sch, w, op), h)
  {
    var es := Effects(sch, w, op.act);
    if Passed(sch, w, h) {
      ActsGoForward(sch, w, op.act, h);
      ForwardKeepsPassed(sch, w, es, h);
      match op.fate
      case Completes =>
      case Dies(k) => ForwardKeepsPassed(sch, w, Upto(es, k), h);
      case Raises(k) => if k < |es| { ForwardKeepsPassed(sch, w, es[..k], h); }
    } else {
      assert es == [] || es == [Remember(None)];
      AtMostOneEffect(w, es, if op.fate.Dies? then op.fate.after else if op.fate.Raises? then op.fate.at else 1);
    }
  }

  lemma AtMostOneEffect(w: World, es: seq<Effect>, k: nat)
    requires es == [] || es == [Remember(None)]
    ensures ApplyAll(w, es) == if es == [] then w else w.(mem := None)
    ensures ApplyAll(w, Upto(es, k)) == if es == [] || k == 0 then w else w.(mem := None)
  {
    assert Upto(es, k) == [] || Upto(es, k) == es;
    assert es != [] ==> es[1..] == [];
  }

  lemma {:induction false} HoleIsForGood(sch: Schedule, w: World, ops: seq<Op>, h: Pos)
    requires Holed(sch, w, h)
    ensures Holed(sch, Run(sch, w, ops), h) && !Inv(sch, Run(sch, w, ops))
    decreases |ops|
  {
    if ops != [] {
      HoleIsForGood(sch, w, ops[..|ops| - 1], h);
      StepKeepsHole(sch, Run(sch, w, ops[..|ops| - 1]), ops[|ops| - 1], h);
    }
    HoleBreaksInv(sch, Run(sch, w, ops), h);
  }

  lemma HoleBreaksInv(sch: Schedule, w: World, h: Pos)
    requires Holed(sch, w, h)
    ensures !Inv(sch, w)
  {
    forall end ensures !Persisted(sch, w, end) {
      if !Before(h, end) && Passed(sch, w, h) {
        var p :| p in w.rows && Before(h, p);
        assert !Before(p, end);
      }
    }
  }

  /** A lost INSERT that the process survives: dying at once repairs it, while the next completed
      step leaves a hole that no later operation, crash or recovery ever mends. */
  lemma LostInsertLeavesHole(sch: Schedule, w: World, op: Op, full: bool, later: seq<Op>)
    requires sch.Valid() && Inv(sch, w) && InsertLost(sch, w, op)
    ensures var lost := Step(sch, w, op);
            && lost.mem.Some? && Inv(sch, lost.(mem := None))
            && var next := Step(sch, lost, Op(Tick(Ended(full)), Completes));
               && Holed(sch, next, lost.mem.value.pos)
               && Holed(sch, Run(sch, next, later), lost.mem.value.pos) && !Inv(sch, Run(sch, next, later))
  {
    var end := LostInsertIs(sch, w, op);
    var lost := Step(sch, w, op);
    var next := Step(sch, lost, Op(Tick(Ended(full)), Completes));
    StepAfterLoss(sch, lost, end, full);
    HoleIsForGood(sch, next, later, end);
  }

  lemma LostInsertIs(sch: Schedule, w: World, op: Op) returns (end: Pos)
    requires sch.Valid() && Inv(sch, w) && InsertLost(sch, w, op)
    ensures var lost := Step(sch, w, op);
            && lost.mem == Some(Mem(end, Active)) && lost.status == Active && end !in lost.rows
            && sch.HasPosition(end) && Inv(sch, lost.(mem := None))
  {
    end :| Persisted(sch, w, end) && Remembered(sch, w, end);
    RaisedTick(sch, w, end, op.act.obs, op.fate.at);
    StepKeepsExactly(sch, w, Op(op.act, Dies(op.fate.at)));
    var lost := Step(sch, w, op);
    assert Inv(sch, lost.(mem := None));
    assert sch.HasPosition(end);
  }

  lemma StepAfterLoss(sch: Schedule, lost: World, end: Pos, full: bool)
    requires sch.Valid() && sch.HasPosition(end)
    requires lost.mem == Some(Mem(end, Active)) && lost.status == Active && end !in lost.rows
    ensures Holed(sch, Step(sch, lost, Op(Tick(Ended(full)), Completes)), end)
  {
    hide ApplyAll, Step;
    var m := lost.mem.value;
    var u := BeforeMoving(sch, lost, m, full);
    MovingMoves(sch, u, m);
    TickCompletes(sch, lost, full);
    var next := ApplyAll(u, Moving(sch, m));
    if Next(sch, end).cycle < sch.repeat {
      assert Next(sch, end) in next.rows && Before(end, Next(sch, end));
    }
  }

  lemma TickCompletes(sch: Schedule, w: World, full: bool)
    requires w.mem.Some? && w.mem.value.status == Active
    ensures Step(sch, w, Op(Tick(Ended(full)), Completes)) == ApplyAll(w, TickEffects(sch, w.mem.value, Ended(full)))
  {
    hide ApplyAll;
  }

  /** The world just before the position moves: a row closed, perhaps an event sent. */
  lemma BeforeMoving(sch: Schedule, w: World, m: Mem, full: bool) returns (u: World)
    ensures ApplyAll(w, TickEffects(sch, m, Ended(full))) == ApplyAll(u, Moving(sch, m))
    ensures u.rows.Keys == w.rows.Keys && u.status == w.status && u.mem == w.mem
  {
    hide ApplyAll, Moving;
    var es := TickEffects(sch, m, Ended(full));
    var e0, e1 := CloseRow(m.pos), Enqueue(m.pos.cycle);
    u := Apply(w, e0);
    if Next(sch, m.pos).step == 0 && !full {
      assert es == [e0] + ([e1] + Moving(sch, m));
      ApplyCons(w, e0, [e1] + Moving(sch, m));
      ApplyCons(u, e1, Moving(sch, m));
      u := Apply(u, e1);
    } else {
      assert es == [e0] + Moving(sch, m);
      ApplyCons(w, e0, Moving(sch, m));
    }
  }

  function Begun(sch: Schedule): World {
    Run(sch, FRESH, [Op(Kickoff(Accepted), Completes)])
  }

  lemma BegunIs(sch: Schedule)
    ensures Begun(sch) == Step(sch, FRESH, Op(Kickoff(Accepted), Completes))
    ensures Begun(sch) == World(map[Pos(0, 0) := Open], Active, Some(Mem(Pos(0, 0), Active)), [])
  {
    var kick := Op(Kickoff(Accepted), Completes);
    assert [kick][..0] == [] && Run(sch, FRESH, []) == FRESH;
    var es := KickoffEffects(Accepted);
    assert es == [es[0]] + [es[1]] + [es[2]];
    ApplyOneMore(FRESH, [es[0]] + [es[1]], es[2]);
    ApplyOneMore(FRESH, [es[0]], es[1]);
    assert ApplyAll(Apply(FRESH, es[0]), [es[0]][1..]) == Apply(FRESH, es[0]);
  }

  /** Such a loss is reachable from a fresh experiment of any schedule with a second position. */
  lemma LostInsertIsReachable(sch: Schedule)
    requires sch.Valid() && (sch.steps > 1 || sch.repeat > 1)
    ensures Inv(sch, Begun(sch))
    ensures InsertLost(sch, Begun(sch), Op(Tick(Ended(false)), Raises(if sch.steps > 1 then 2 else 3)))
  {
    hide Begun, Step;
    BegunIs(sch);
    FreshIsConsistent(sch);
    StepKeepsExactly(sch, FRESH, Op(Kickoff(Accepted), Completes));
  }
}
