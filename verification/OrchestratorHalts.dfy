/**
 How experiments end: what a safety halt, a refused start and a finished step leave in the database,
 that an ended experiment is left alone, and the one halt that a crash turns into a completion.
 */
module OrchestratorHalts {
  import opened Prelude
  import opened Orchestrator
  import opened OrchestratorProofs
  import opened OrchestratorHoles

  /** The experiment has ended, and no live copy of it runs. */
  predicate Over(w: World) {
    w.status in {Done, Failed} && (w.mem.Some? ==> w.mem.value.status in {Done, Failed})
  }

  /** What the database and the event log say. */
  predicate SameRecord(w: World, v: World) {
    v.rows == w.rows && v.status == w.status && v.events == w.events
  }

  lemma StepLeavesOver(sch: Schedule, w: World, op: Op)
    requires Over(w)
    ensures Over(Step(sch, w, op)) && SameRecord(w, Step(sch, w, op))
  {
    hide ApplyAll;
    var es := Effects(sch, w, op.act);
    assert es == [] || es == [Remember(None)];
    AtMostOneEffect(w, es, if op.fate.Dies? then op.fate.after else if op.fate.Raises? then op.fate.at else 1);
  }

  lemma {:induction false} RunLeavesOver(sch: Schedule, w: World, ops: seq<Op>)
    requires Over(w)
    ensures Over(Run(sch, w, ops)) && SameRecord(w, Run(sch, w, ops))
    decreases |ops|
  {
    if ops != [] {
      RunLeavesOver(sch, w, ops[..|ops| - 1]);
      StepLeavesOver(sch, Run(sch, w, ops[..|ops| - 1]), ops[|ops| - 1]);
    }
  }

  /** The experiment has ended as failed, with these rows and events, and nothing that is done or
      goes wrong later changes that. */
  ghost predicate FailedForGood(sch: Schedule, w: World, rows: map<Pos, RowState>, events: seq<nat>) {
    && w.status == Failed && w.rows == rows && w.events == events
    && forall ops: seq<Op> :: SameRecord(w, Run(sch, w, ops))
  }

  lemma OverIsForGood(sch: Schedule, w: World)
    requires Over(w) && w.status == Failed
    ensures FailedForGood(sch, w, w.rows, w.events)
  {
    forall ops: seq<Op> ensures SameRecord(w, Run(sch, w, ops)) { RunLeavesOver(sch, w, ops); }
  }

  // ---- A safety halt ---------------------------------------------------------------------------

  ghost predicate Live(sch: Schedule, w: World, m: Mem) {
    sch.Valid() && Inv(sch, w) && w.mem == Some(m) && m.status == Active
  }

  lemma LiveCopy(sch: Schedule, w: World, m: Mem) returns (end: Pos)
    requires Live(sch, w, m)
    ensures Persisted(sch, w, end) && Remembered(sch, w, end)
    ensures w.status == Active && m.pos in w.rows && w.rows[m.pos] == Open && Next(sch, m.pos) == end
    ensures sch.HasPosition(m.pos)
  {
    end :| Persisted(sch, w, end) && Remembered(sch, w, end);
  }

  lemma ApplyThree(w: World, e0: Effect, e1: Effect, e2: Effect)
    ensures ApplyAll(w, [e0, e1, e2]) == Apply(Apply(Apply(w, e0), e1), e2)
    ensures ApplyAll(w, [e0, e1]) == Apply(Apply(w, e0), e1) && ApplyAll(w, [e0]) == Apply(w, e0)
  {
    hide Apply, ApplyAll;
    assert [e0, e1, e2] == [e0] + ([e1] + ([e2] + [])) && [e0, e1] == [e0] + ([e1] + []) && [e0] == [e0] + [];
    ApplyCons(w, e0, [e1] + ([e2] + []));
    ApplyCons(Apply(w, e0), e1, [e2] + []);
    ApplyCons(Apply(Apply(w, e0), e1), e2, []);
    ApplyCons(w, e0, [e1] + []);
    ApplyCons(Apply(w, e0), e1, []);
    ApplyCons(w, e0, []);
    NoEffects(Apply(Apply(Apply(w, e0), e1), e2));
    NoEffects(Apply(Apply(w, e0), e1));
    NoEffects(Apply(w, e0));
  }

  /** How far an interrupted halt gets: the world after that many of its effects. */
  lemma HaltAfter(sch: Schedule, w: World, m: Mem, k: nat)
    requires Live(sch, w, m)
    ensures var v := ApplyAll(w, Upto(TickEffects(sch, m, Latched), k));
            && v.rows == (if k >= 2 then w.rows[m.pos := Closed] else w.rows) && v.events == w.events
            && v.status == (if k >= 3 then Failed else Active)
            && v.mem == (if k >= 1 then Some(m.(status := Failed)) else w.mem)
  {
    hide ApplyAll, Inv;
    var _ := LiveCopy(sch, w, m);
    var es := TickEffects(sch, m, Latched);
    ApplyThree(w, es[0], es[1], es[2]);
    NoEffects(w);
    if k == 0 {
      assert Upto(es, k) == [];
    } else if k == 1 {
      assert Upto(es, k) == [es[0]];
    } else if k == 2 {
      assert Upto(es, k) == [es[0], es[1]];
    } else {
      assert Upto(es, k) == [es[0], es[1], es[2]];
    }
  }

  /** A tick that finds its channel latched ends the experiment: its open row is closed, no other row
      and no event is written, it is failed, and it stays exactly so for ever. */
  lemma HaltFailsForGood(sch: Schedule, w: World, m: Mem)
    requires Live(sch, w, m)
    ensures m.pos in w.rows && w.rows[m.pos] == Open
    ensures FailedForGood(sch, Step(sch, w, Op(Tick(Latched), Completes)), w.rows[m.pos := Closed], w.events)
  {
    hide ApplyAll, Inv, FailedForGood;
    var _ := LiveCopy(sch, w, m);
    HaltAfter(sch, w, m, 3);
    var es := TickEffects(sch, m, Latched);
    assert Upto(es, 3) == es;
    OverIsForGood(sch, Step(sch, w, Op(Tick(Latched), Completes)));
  }

  /** The halt's last statement, the one that fails the experiment, is lost. */
  predicate VerdictLost(f: Fate) {
    f == Dies(2) || f == Raises(2)
  }

  /** A latched tick that may be interrupted, the copy gone, and a recovery that finds the channel
      still latched. */
  function Recovered(sch: Schedule, w: World, f: Fate): World {
    var halted := Step(sch, w, Op(Tick(Latched), f));
    var alone := Step(sch, halted, Op(Reap, Completes));
    Step(sch, alone, Op(Resume(Refused), Completes))
  }

  /** Recovery reads the channel only when it still has a step to run, so a halt in the very last step
      whose final UPDATE is lost is recorded as a completion; every other halt ends as failed. */
  lemma HaltSurvivesExactly(sch: Schedule, w: World, m: Mem, f: Fate)
    requires Live(sch, w, m)
    ensures var v := Recovered(sch, w, f);
            && Over(v) && v.events == w.events && v.rows.Keys == w.rows.Keys
            && (v.status == Failed
                <==> !(VerdictLost(f) && m.pos == Pos(sch.repeat - 1, sch.steps - 1)))
  {
    hide ApplyAll, Inv;
    var end := LiveCopy(sch, w, m);
    var es := TickEffects(sch, m, Latched);
    var k := if f.Dies? then f.after else if f.Raises? && f.at in {1, 2} then f.at else 3;
    var halted := Step(sch, w, Op(Tick(Latched), f));
    assert halted == ApplyAll(w, Upto(es, k)).(mem := if f.Dies? then None else ApplyAll(w, Upto(es, k)).mem) by {
      assert Upto(es, 3) == es && Upto(es, k) == if k < 3 then es[..k] else es;
    }
    HaltAfter(sch, w, m, k);
    var alone := Step(sch, halted, Op(Reap, Completes));
    AtMostOneEffect(halted, Effects(sch, halted, Reap), 1);
    assert alone == halted.(mem := None);
    if k < 3 {
      ResumesAfterHalt(sch, w, m, end, alone);
    } else {
      NoEffects(alone);
      assert Effects(sch, alone, Resume(Refused)) == [];
    }
  }

  lemma ResumesAfterHalt(sch: Schedule, w: World, m: Mem, end: Pos, alone: World)
    requires sch.Valid() && Persisted(sch, w, end) && m.pos in w.rows && w.rows[m.pos] == Open
    requires Next(sch, m.pos) == end && sch.HasPosition(m.pos) && w.status == Active
    requires alone.mem.None? && alone.status == Active && alone.events == w.events
    requires alone.rows == w.rows || alone.rows == w.rows[m.pos := Closed]
    ensures var v := Step(sch, alone, Op(Resume(Refused), Completes));
            && v == alone.(status := if alone.rows[m.pos] == Closed && end.cycle >= sch.repeat then Done else Failed)
            && (end.cycle >= sch.repeat <==> m.pos == Pos(sch.repeat - 1, sch.steps - 1))
  {
    hide ApplyAll;
    if alone.rows[m.pos] == Closed {
      CloseKeeps(sch, w, end, m.pos);
      SameRows(sch, Apply(w, CloseRow(m.pos)), alone, end);
      ResumeNeitherSkipsNorRepeats(sch, alone, end);
    } else {
      SameRows(sch, w, alone, end);
      assert !AllClosed(alone.rows);
      ResumeEnds(sch, alone, end);
    }
    var es := ResumeEffects(sch, alone, Refused);
    assert es == [es[0]] + [];
    ApplyCons(alone, es[0], []);
    NoEffects(Apply(alone, es[0]));
  }

  lemma SameRows(sch: Schedule, w: World, v: World, end: Pos)
    requires Persisted(sch, w, end) && v.rows == w.rows && v.events == w.events && v.status == w.status
    ensures Persisted(sch, v, end)
  {
  }

  // ---- Starts and recoveries ---------------------------------------------------------------------

  /** What becomes of a pending experiment: out of reach or refused, it is failed for good; accepted,
      its first row is open and a live copy stands on it; without an answer it waits for a recovery. */
  lemma KickoffEnds(sch: Schedule, w: World, o: StartOutcome)
    requires sch.Valid() && Inv(sch, w) && w.status == Pending && w.mem.None?
    ensures w.rows == map[]
    ensures var v, begun := Step(sch, w, Op(Kickoff(o), Completes)), map[Pos(0, 0) := Open];
            && (o.Unreachable? ==> FailedForGood(sch, v, map[], w.events))
            && (o.Refused? ==> FailedForGood(sch, v, begun, w.events))
            && (o.Accepted? ==> v == World(begun, Active, Some(Mem(Pos(0, 0), Active)), w.events))
            && (o.Unanswered? ==> v == World(begun, Active, None, w.events))
  {
    assert w.rows == map[] by { var end :| Persisted(sch, w, end); }
    hide ApplyAll, FailedForGood, Inv;
    var v := Step(sch, w, Op(Kickoff(o), Completes));
    var e0, e1, e2 := SetStatus(Active), InsertRow(Pos(0, 0)), SetStatus(Failed);
    if o.Unreachable? {
      ApplyThree(w, e2, e2, e2);
    } else if o.Unanswered? {
      ApplyThree(w, e0, e1, e1);
    } else if o.Accepted? {
      var e := Remember(Some(Mem(Pos(0, 0), Active)));
      assert KickoffEffects(o) == [e0, e1, e];
      ApplyThree(w, e0, e1, e);
    } else {
      var e := Remember(Some(Mem(Pos(0, 0), Failed)));
      assert KickoffEffects(o) == [e0] + ([e1] + [e2, e]);
      ApplyCons(w, e0, [e1] + [e2, e]);
      ApplyCons(Apply(w, e0), e1, [e2, e]);
      ApplyThree(Apply(Apply(w, e0), e1), e2, e, e);
    }
    if v.status == Failed { OverIsForGood(sch, v); }
  }

  /** What becomes of a running experiment that no process holds: out of reach, it is failed for good;
      past its last step it is completed; refused, it is failed for good with its rows as they are; accepted,
      it goes on at an open row; without an answer nothing changes. */
  lemma ResumeEndsAs(sch: Schedule, w: World, o: StartOutcome)
    requires sch.Valid() && Inv(sch, w) && w.status == Active && w.mem.None?
    ensures var v, p := Step(sch, w, Op(Resume(o), Completes)), ResumePos(sch, w.rows);
            && v.events == w.events
            && (o.Unreachable? ==> FailedForGood(sch, v, w.rows, w.events))
            && (!o.Unreachable? && !sch.HasPosition(p) ==> v == w.(status := Done) && AllClosed(v.rows))
            && (sch.HasPosition(p) ==>
                  && (o.Refused? ==> FailedForGood(sch, v, w.rows, w.events))
                  && (o.Unanswered? ==> v == w)
                  && (o.Accepted? ==>
                        v == w.(rows := w.rows[p := Open], mem := Some(Mem(p, Active))) && Inv(sch, v)))
  {
    hide ApplyAll, FailedForGood, Inv, ResumePos, Step;
    ResumePoint(sch, w, o);
    ResumeIs(sch, w, o);
    var v := Step(sch, w, Op(Resume(o), Completes));
    if v.status == Failed { OverIsForGood(sch, v); }
  }

  lemma ResumePoint(sch: Schedule, w: World, o: StartOutcome)
    requires sch.Valid() && Inv(sch, w) && w.status == Active && w.mem.None?
    ensures var p := ResumePos(sch, w.rows);
            && (sch.HasPosition(p) <==> p.cycle < sch.repeat)
            && (p in w.rows ==> w.rows[p] == Open)
            && (p.cycle >= sch.repeat ==> AllClosed(w.rows))
    ensures Inv(sch, Step(sch, w, Op(Resume(o), Completes)))
  {
    hide ApplyAll, ConsistentThroughout;
    var end :| Persisted(sch, w, end);
    ResumeEnds(sch, w, end);
    hide Persisted;
    ResumeNeitherSkipsNorRepeats(sch, w, end);
    ResumeKeeps(sch, w, end, o);
  }

  lemma ResumeIs(sch: Schedule, w: World, o: StartOutcome)
    requires w.status == Active && w.mem.None?
    requires var p := ResumePos(sch, w.rows); p in w.rows ==> w.rows[p] == Open
    ensures var v, p := Step(sch, w, Op(Resume(o), Completes)), ResumePos(sch, w.rows);
            v == if o.Unreachable? then w.(status := Failed)
                 else if p.cycle >= sch.repeat then w.(status := Done)
                 else if o.Refused? then w.(status := Failed)
                 else if o.Unanswered? then w
                 else w.(rows := w.rows[p := Open], mem := Some(Mem(p, Active)))
  {
    hide ApplyAll, ResumePos;
    var es := ResumeEffects(sch, w, o);
    NoEffects(w);
    if |es| == 1 {
      ApplyThree(w, es[0], es[0], es[0]);
    } else if |es| == 2 {
      ApplyThree(w, es[0], es[1], es[1]);
      var p := ResumePos(sch, w.rows);
      assert p in w.rows ==> w.rows[p := Open] == w.rows;
    }
  }

  // ---- A step that ends ----------------------------------------------------------------------------

  /** A completed tick that sees its step end closes that row and no other, sends the cycle's event if
      the step was the cycle's last and the queue has room, and goes on to the next step, to the first
      of the next cycle, or - after the very last - to completion. */
  lemma StepEndIs(sch: Schedule, w: World, m: Mem, full: bool)
    requires Live(sch, w, m)
    ensures var p, v := m.pos, Step(sch, w, Op(Tick(Ended(full)), Completes));
            var lastStep := p.step + 1 == sch.steps;
            var next := if lastStep then Pos(p.cycle + 1, 0) else Pos(p.cycle, p.step + 1);
            && v.events == w.events + (if lastStep && !full then [p.cycle] else [])
            && if lastStep && p.cycle + 1 == sch.repeat
               then && v.status == Done && v.rows == w.rows[p := Closed] && v.mem == Some(Mem(next, Done))
               else && v.status == Active && v.rows == w.rows[p := Closed][next := Open]
                    && v.mem == Some(Mem(next, Active)) && next !in w.rows
  {
    var end := LiveCopy(sch, w, m);
    NextIsMissing(sch, w, end);
    hide ApplyAll, Inv, Persisted, Remembered, Moving;
    var e0, e1 := CloseRow(m.pos), Enqueue(m.pos.cycle);
    var w1 := Apply(w, e0);
    var es := TickEffects(sch, m, Ended(full));
    if m.pos.step + 1 == sch.steps && !full {
      assert es == [e0] + ([e1] + Moving(sch, m));
      ApplyCons(w, e0, [e1] + Moving(sch, m));
      ApplyCons(w1, e1, Moving(sch, m));
      MovingMoves(sch, Apply(w1, e1), m);
    } else {
      assert es == [e0] + Moving(sch, m);
      ApplyCons(w, e0, Moving(sch, m));
      MovingMoves(sch, w1, m);
    }
  }
}
