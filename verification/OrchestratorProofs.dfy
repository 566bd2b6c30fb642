/**
 Crash safety of the persisted step machine: which outcomes keep the rows an initial
 segment of the schedule, and what recovery may rely on.
 */
module OrchestratorProofs {
  import opened Prelude
  import opened Orchestrator

  // ---- One effect at a time ----------------------------------------------------------

  lemma CloseKeeps(sch: Schedule, w: World, end: Pos, p: Pos)
    requires Persisted(sch, w, end) && w.status == Active
    requires p in w.rows
    ensures Persisted(sch, Apply(w, CloseRow(p)), end)
    ensures Next(sch, p) == end ==> AllClosed(Apply(w, CloseRow(p)).rows)
  {
    if Next(sch, p) == end {
      forall q | q in w.rows && Next(sch, q) == end ensures q == p {}
    }
  }

  lemma InsertKeeps(sch: Schedule, w: World, p: Pos)
    requires sch.Valid() && sch.HasPosition(p)
    requires Persisted(sch, w, p) && w.status == Active && AllClosed(w.rows)
    ensures Persisted(sch, Apply(w, InsertRow(p)), Next(sch, p))
  {
    var rows := Apply(w, InsertRow(p)).rows;
    forall q: Pos ensures q in rows <==> q.step < sch.steps && Before(q, Next(sch, p)) {
      assert q in rows <==> q in w.rows || q == p;
    }
  }

  lemma EnqueueKeeps(sch: Schedule, w: World, end: Pos, c: nat)
    requires sch.Valid() && Persisted(sch, w, end)
    requires end == Pos(c + 1, 0) && AllClosed(w.rows)
    requires c !in w.events
    ensures Persisted(sch, Apply(w, Enqueue(c)), end)
  {
    assert Pos(c, sch.steps - 1) in w.rows;
    forall d | d in w.events ensures d < c {
      assert Before(Pos(d, sch.steps - 1), end);
    }
    assert forall i | 0 <= i < |w.events| :: w.events[i] in w.events;
  }

  // ---- Prefixes of what one call does -------------------------------------------------

  ghost predicate Consistent(sch: Schedule, w: World) {
    exists end :: Persisted(sch, w, end)
  }

  ghost predicate ConsistentThroughout(sch: Schedule, w: World, es: seq<Effect>)
    decreases es
  {
    Consistent(sch, w) && (es != [] ==> ConsistentThroughout(sch, Apply(w, es[0]), es[1..]))
  }

  lemma {:induction false} ConsistentPrefix(sch: Schedule, w: World, es: seq<Effect>, k: nat)
    requires ConsistentThroughout(sch, w, es)
    ensures Consistent(sch, ApplyAll(w, Upto(es, k)))
    decreases es
  {
    if es != [] && k > 0 {
      assert Upto(es, k)[1..] == Upto(es[1..], k - 1);
      ConsistentPrefix(sch, Apply(w, es[0]), es[1..], k - 1);
    }
  }

  lemma Prepend(sch: Schedule, w: World, end: Pos, e: Effect, rest: seq<Effect>)
    requires Persisted(sch, w, end)
    requires ConsistentThroughout(sch, Apply(w, e), rest)
    ensures ConsistentThroughout(sch, w, [e] + rest)
    ensures ApplyAll(w, [e] + rest) == ApplyAll(Apply(w, e), rest)
  {
    hide Persisted, Apply;
    assert ([e] + rest)[1..] == rest;
  }

  lemma Ends(sch: Schedule, w: World, end: Pos)
    requires Persisted(sch, w, end)
    ensures ConsistentThroughout(sch, w, []) && ApplyAll(w, []) == w
    ensures Remembered(sch, w, end) ==> Inv(sch, w)
  {
    hide Persisted, Remembered;
  }

  lemma Lone(sch: Schedule, w: World, end: Pos, e: Effect, end1: Pos)
    requires Persisted(sch, w, end) && Persisted(sch, Apply(w, e), end1)
    ensures ConsistentThroughout(sch, w, [e]) && ApplyAll(w, [e]) == Apply(w, e)
  {
    hide Persisted, Apply;
    Ends(sch, Apply(w, e), end1);
    Prepend(sch, w, end, e, []);
    assert [e] + [] == [e];
  }

  lemma Pair(sch: Schedule, w: World, end: Pos, e0: Effect, end1: Pos, e1: Effect, end2: Pos)
    requires Persisted(sch, w, end) && Persisted(sch, Apply(w, e0), end1)
    requires Persisted(sch, Apply(Apply(w, e0), e1), end2)
    ensures ConsistentThroughout(sch, w, [e0, e1]) && ApplyAll(w, [e0, e1]) == Apply(Apply(w, e0), e1)
  {
    hide Persisted, Apply;
    Lone(sch, Apply(w, e0), end1, e1, end2);
    Prepend(sch, w, end, e0, [e1]);
    assert [e0] + [e1] == [e0, e1];
  }

  lemma StatusKeeps(sch: Schedule, w: World, end: Pos, s: Status)
    requires Persisted(sch, w, end) && s != Pending
    requires s == Done ==> end == Pos(sch.repeat, 0) && AllClosed(w.rows)
    ensures Persisted(sch, Apply(w, SetStatus(s)), end)
  {
    hide IsPrefix, AllClosed, Increasing;
  }

  lemma RememberKeeps(sch: Schedule, w: World, end: Pos, m: Option<Mem>)
    requires Persisted(sch, w, end)
    ensures Persisted(sch, Apply(w, Remember(m)), end)
  {
    hide IsPrefix, AllClosed, Increasing;
  }

  /** A tick keeps the database consistent at every point, and a whole tick keeps the invariant. */
  lemma TickKeeps(sch: Schedule, w: World, end: Pos, obs: Observation)
    requires sch.Valid() && Persisted(sch, w, end) && Remembered(sch, w, end)
    requires w.mem.Some? && w.mem.value.status == Active
    ensures var es := TickEffects(sch, w.mem.value, obs);
            ConsistentThroughout(sch, w, es) && Inv(sch, ApplyAll(w, es))
  {
    hide Persisted, Remembered;
    match obs
    case Unreadable =>
    case Continues =>
    case Latched => LatchedTickKeeps(sch, w, end);
    case Ended(full) => EndedTickKeeps(sch, w, end, full);
  }

  lemma LatchedTickKeeps(sch: Schedule, w: World, end: Pos)
    requires sch.Valid() && Persisted(sch, w, end) && Remembered(sch, w, end)
    requires w.mem.Some? && w.mem.value.status == Active
    ensures var es := TickEffects(sch, w.mem.value, Latched);
            ConsistentThroughout(sch, w, es) && Inv(sch, ApplyAll(w, es))
  {
    var m := w.mem.value;
    var e0, e1, e2 := Remember(Some(m.(status := Failed))), CloseRow(m.pos), SetStatus(Failed);
    var w1 := Apply(w, e0);
    CloseKeeps(sch, w1, end, m.pos);
    var w2 := Apply(w1, e1);
    var w3 := Apply(w2, e2);
    assert Persisted(sch, w3, end) && Remembered(sch, w3, end);
    Three(sch, w, end, e0, e1, e2);
    assert [e0, e1, e2] == TickEffects(sch, m, Latched);
  }

  lemma Three(sch: Schedule, w: World, end: Pos, e0: Effect, e1: Effect, e2: Effect)
    requires Persisted(sch, w, end) && Persisted(sch, Apply(w, e0), end)
    requires Persisted(sch, Apply(Apply(w, e0), e1), end)
    requires Persisted(sch, Apply(Apply(Apply(w, e0), e1), e2), end)
    ensures ConsistentThroughout(sch, w, [e0, e1, e2])
    ensures ApplyAll(w, [e0, e1, e2]) == Apply(Apply(Apply(w, e0), e1), e2)
  {
    hide Persisted, Apply;
    Pair(sch, Apply(w, e0), end, e1, end, e2, end);
    Prepend(sch, w, end, e0, [e1, e2]);
    assert [e0] + [e1, e2] == [e0, e1, e2];
  }

  lemma EndedTickKeeps(sch: Schedule, w: World, end: Pos, full: bool)
    requires sch.Valid() && Persisted(sch, w, end) && Remembered(sch, w, end)
    requires w.mem.Some? && w.mem.value.status == Active
    ensures var es := TickEffects(sch, w.mem.value, Ended(full));
            ConsistentThroughout(sch, w, es) && Inv(sch, ApplyAll(w, es))
  {
    var m := w.mem.value;
    var e0 := CloseRow(m.pos);
    CloseKeeps(sch, w, end, m.pos);
    var w1 := Apply(w, e0);
    var e1 := Enqueue(m.pos.cycle);
    if end.step == 0 && !full {
      LastStepIsNew(sch, w, end, m.pos);
      EnqueueKeeps(sch, w1, end, m.pos.cycle);
    }
    EndedParts(sch, w, m, end, full);
  }

  lemma LastStepIsNew(sch: Schedule, w: World, end: Pos, p: Pos)
    requires sch.Valid() && Persisted(sch, w, end) && p in w.rows && w.rows[p] == Open && Next(sch, p) == end
    requires end.step == 0
    ensures end == Pos(p.cycle + 1, 0) && p.cycle !in w.events
  {
    assert p == Pos(p.cycle, sch.steps - 1);
  }

  lemma EndedParts(sch: Schedule, w: World, m: Mem, end: Pos, full: bool)
    requires sch.Valid() && Persisted(sch, w, end) && end == Next(sch, m.pos) && m.status == Active
    requires var w1 := Apply(w, CloseRow(m.pos));
             && Persisted(sch, w1, end) && AllClosed(w1.rows) && w1.status == Active
             && (end.step == 0 && !full ==> Persisted(sch, Apply(w1, Enqueue(m.pos.cycle)), end))
    ensures var es := TickEffects(sch, m, Ended(full));
            ConsistentThroughout(sch, w, es) && Inv(sch, ApplyAll(w, es))
  {
    hide Persisted, Moving, Inv;
    var e0, e1, move := CloseRow(m.pos), Enqueue(m.pos.cycle), Moving(sch, m);
    var w1 := Apply(w, e0);
    if end.step == 0 && !full {
      var w2 := Apply(w1, e1);
      MovingKeeps(sch, w2, m);
      Prepend(sch, w1, end, e1, move);
      Prepend(sch, w, end, e0, [e1] + move);
      assert [e0] + ([e1] + move) == TickEffects(sch, m, Ended(full));
    } else {
      MovingKeeps(sch, w1, m);
      Prepend(sch, w, end, e0, move);
      assert [e0] + move == TickEffects(sch, m, Ended(full));
    }
  }

  /** The second half of a step change: remember the new position, then persist it. */
  lemma MovingKeeps(sch: Schedule, w: World, m: Mem)
    requires sch.Valid() && Persisted(sch, w, Next(sch, m.pos)) && AllClosed(w.rows)
    requires w.status == Active && m.status == Active
    ensures ConsistentThroughout(sch, w, Moving(sch, m)) && Inv(sch, ApplyAll(w, Moving(sch, m)))
  {
    hide Persisted;
    var end := Next(sch, m.pos);
    if end.cycle < sch.repeat {
      MovingOn(sch, w, end);
    } else {
      PrefixEnd(sch, w, end);
      MovingOut(sch, w, end);
    }
  }

  lemma PrefixEnd(sch: Schedule, w: World, end: Pos)
    requires Persisted(sch, w, end)
    ensures sch.HasPosition(end) || end == Pos(sch.repeat, 0)
  {
    hide Increasing, AllClosed;
  }

  lemma MovingOn(sch: Schedule, w: World, end: Pos)
    requires sch.Valid() && Persisted(sch, w, end) && AllClosed(w.rows) && w.status == Active && end.cycle < sch.repeat
    ensures var es := [Remember(Some(Mem(end, Active))), InsertRow(end)];
            ConsistentThroughout(sch, w, es) && Inv(sch, ApplyAll(w, es))
  {
    PrefixEnd(sch, w, end);
    assert end !in w.rows by { NextIsMissing(sch, w, end); }
    hide Persisted;
    var e0, e1 := Remember(Some(Mem(end, Active))), InsertRow(end);
    var w1 := Apply(w, e0);
    RememberKeeps(sch, w, end, e0.mem);
    InsertKeeps(sch, w1, end);
    Pair(sch, w, end, e0, end, e1, Next(sch, end));
    Ends(sch, Apply(w1, e1), Next(sch, end));
  }

  lemma NextIsMissing(sch: Schedule, w: World, end: Pos)
    requires Persisted(sch, w, end)
    ensures end !in w.rows
  {
    hide Increasing, AllClosed;
  }

  lemma MovingOut(sch: Schedule, w: World, end: Pos)
    requires sch.Valid() && Persisted(sch, w, end) && AllClosed(w.rows) && w.status == Active
    requires end == Pos(sch.repeat, 0)
    ensures var es := [Remember(Some(Mem(end, Done))), SetStatus(Done)];
            ConsistentThroughout(sch, w, es) && Inv(sch, ApplyAll(w, es))
  {
    hide Persisted, AllClosed;
    var e0, e1 := Remember(Some(Mem(end, Done))), SetStatus(Done);
    var w1 := Apply(w, e0);
    RememberKeeps(sch, w, end, e0.mem);
    StatusKeeps(sch, w1, end, Done);
    Pair(sch, w, end, e0, end, e1, end);
    Ends(sch, Apply(w1, e1), end);
  }

  // ---- Recovery ------------------------------------------------------------------------

  /** The largest row alone tells recovery where the rows end. */
  lemma LastRowEndsPrefix(sch: Schedule, w: World, end: Pos)
    requires sch.Valid() && Persisted(sch, w, end) && w.rows != map[]
    ensures Next(sch, LastRow(w.rows)) == end
  {
    var next := Next(sch, LastRow(w.rows));
    assert next in w.rows <==> next.step < sch.steps && Before(next, end);
  }

  /** Recovery goes back to the one open row, or on to the first missing one; it never
      repeats a closed row and never leaves one out. */
  lemma ResumeNeitherSkipsNorRepeats(sch: Schedule, w: World, end: Pos)
    requires sch.Valid() && Persisted(sch, w, end)
    ensures var p := ResumePos(sch, w.rows);
            && (p in w.rows ==> w.rows[p] == Open)
            && (AllClosed(w.rows) <==> p == end)
            && forall q: Pos | q.step < sch.steps && Before(q, p) :: q in w.rows && w.rows[q] == Closed
  {
    if w.rows == map[] {
      assert end == Pos(0, 0) by {
        assert Pos(0, 0) !in w.rows;
      }
    } else {
      LastRowEndsPrefix(sch, w, end);
      var last := LastRow(w.rows);
      forall q | q in w.rows && w.rows[q] == Open ensures q == last {
        assert Next(sch, q) == end;
      }
    }
  }

  lemma ResumeKeeps(sch: Schedule, w: World, end: Pos, o: StartOutcome)
    requires sch.Valid() && Persisted(sch, w, end) && w.status == Active && w.mem.None?
    ensures var es := ResumeEffects(sch, w, o);
            ConsistentThroughout(sch, w, es) && Inv(sch, ApplyAll(w, es))
  {
    ResumeNeitherSkipsNorRepeats(sch, w, end);
    ResumeEnds(sch, w, end);
    hide Persisted, AllClosed, ResumePos;
    var p := ResumePos(sch, w.rows);
    Ends(sch, w, end);
    if o.Unreachable? {
      FinishingKeeps(sch, w, end, Failed);
    } else if p.cycle >= sch.repeat {
      FinishingKeeps(sch, w, end, Done);
    } else if o.Refused? {
      FinishingKeeps(sch, w, end, Failed);
    } else if o.Accepted? {
      ResumingKeeps(sch, w, end, p);
    }
  }

  /** Where recovery goes, next to where the rows end. */
  lemma ResumeEnds(sch: Schedule, w: World, end: Pos)
    requires sch.Valid() && Persisted(sch, w, end)
    ensures var p := ResumePos(sch, w.rows);
            && p.step < sch.steps
            && (p in w.rows ==> Next(sch, p) == end && p.cycle < sch.repeat)
            && (p !in w.rows ==> p == end && AllClosed(w.rows))
            && (p.cycle >= sch.repeat ==> end == Pos(sch.repeat, 0) && AllClosed(w.rows))
  {
    ResumeNeitherSkipsNorRepeats(sch, w, end);
    hide Increasing;
    if w.rows != map[] {
      LastRowEndsPrefix(sch, w, end);
    }
  }

  lemma FinishingKeeps(sch: Schedule, w: World, end: Pos, s: Status)
    requires sch.Valid() && Persisted(sch, w, end) && w.mem.None? && (s == Failed || s == Done)
    requires s == Done ==> end == Pos(sch.repeat, 0) && AllClosed(w.rows)
    ensures ConsistentThroughout(sch, w, [SetStatus(s)]) && Inv(sch, ApplyAll(w, [SetStatus(s)]))
  {
    hide Persisted, AllClosed;
    StatusKeeps(sch, w, end, s);
    Lone(sch, w, end, SetStatus(s), end);
    Ends(sch, Apply(w, SetStatus(s)), end);
  }

  lemma ResumingKeeps(sch: Schedule, w: World, end: Pos, p: Pos)
    requires sch.Valid() && Persisted(sch, w, end) && w.status == Active && w.mem.None? && sch.HasPosition(p)
    requires if p in w.rows then w.rows[p] == Open && Next(sch, p) == end else p == end && AllClosed(w.rows)
    ensures var es := [InsertRow(p), Remember(Some(Mem(p, Active)))];
            ConsistentThroughout(sch, w, es) && Inv(sch, ApplyAll(w, es))
  {
    var e0, e1 := InsertRow(p), Remember(Some(Mem(p, Active)));
    var w1 := Apply(w, e0);
    if p !in w.rows {
      InsertKeeps(sch, w, p);
    }
    hide Persisted, AllClosed;
    var end1 := Next(sch, p);
    assert p in w.rows ==> w1 == w;
    RememberKeeps(sch, w1, end1, e1.mem);
    Pair(sch, w, end, e0, end1, e1, end1);
    Ends(sch, Apply(w1, e1), end1);
  }

  lemma KickoffKeeps(sch: Schedule, w: World, end: Pos, o: StartOutcome)
    requires sch.Valid() && Persisted(sch, w, end) && w.status == Pending && w.mem.None?
    ensures var es := KickoffEffects(o);
            ConsistentThroughout(sch, w, es) && Inv(sch, ApplyAll(w, es))
  {
    NothingYet(sch, w, end);
    hide Persisted, AllClosed, ConsistentThroughout, Inv;
    if o.Unreachable? {
      FinishingKeeps(sch, w, end, Failed);
    } else {
      var e0, e1 := SetStatus(Active), InsertRow(Pos(0, 0));
      var w1, end2 := Apply(w, e0), Next(sch, end);
      var w2 := Apply(w1, e1);
      StatusKeeps(sch, w, end, Active);
      InsertKeeps(sch, w1, end);
      var rest := KickoffEffects(o)[2..];
      AfterStartKeeps(sch, w2, end2, o);
      Prepend(sch, w1, end, e1, rest);
      Prepend(sch, w, end, e0, [e1] + rest);
      assert KickoffEffects(o) == [e0] + ([e1] + rest);
    }
  }

  lemma NothingYet(sch: Schedule, w: World, end: Pos)
    requires sch.Valid() && Persisted(sch, w, end) && w.status == Pending
    ensures end == Pos(0, 0) && AllClosed(w.rows)
  {
    assert Pos(0, 0) !in w.rows;
  }

  /** What follows the first row of an experiment. */
  lemma AfterStartKeeps(sch: Schedule, w: World, end: Pos, o: StartOutcome)
    requires sch.Valid() && Persisted(sch, w, end) && w.status == Active && w.mem.None? && !o.Unreachable?
    requires Pos(0, 0) in w.rows && w.rows[Pos(0, 0)] == Open && end == Next(sch, Pos(0, 0))
    ensures var rest := KickoffEffects(o)[2..];
            ConsistentThroughout(sch, w, rest) && Inv(sch, ApplyAll(w, rest))
  {
    hide Persisted;
    match o
    case Unanswered =>
      Ends(sch, w, end);
      assert KickoffEffects(o)[2..] == [];
    case Accepted =>
      var e := Remember(Some(Mem(Pos(0, 0), Active)));
      RememberKeeps(sch, w, end, e.mem);
      Lone(sch, w, end, e, end);
      Ends(sch, Apply(w, e), end);
      assert KickoffEffects(o)[2..] == [e];
    case Refused =>
      var e0, e1 := SetStatus(Failed), Remember(Some(Mem(Pos(0, 0), Failed)));
      StatusKeeps(sch, w, end, Failed);
      RememberKeeps(sch, Apply(w, e0), end, e1.mem);
      Pair(sch, w, end, e0, end, e1, end);
      Ends(sch, Apply(Apply(w, e0), e1), end);
      assert KickoffEffects(o)[2..] == [e0, e1];
  }

  // ---- Every step of every run -----------------------------------------------------------

  /** A tick's INSERT of the next row raised, and the process lived on. */
  predicate InsertLost(sch: Schedule, w: World, op: Op) {
    && op.act.Tick? && op.fate.Raises?
    && var es := Effects(sch, w, op.act);
       op.fate.at < |es| && es[op.fate.at].InsertRow?
  }

  /** Of all acts and all fates exactly one breaks the invariant: surviving the loss of the
      INSERT that a tick sends after it has moved the in-memory position. */
  lemma StepKeepsExactly(sch: Schedule, w: World, op: Op)
    requires sch.Valid() && Inv(sch, w)
    ensures Inv(sch, Step(sch, w, op)) <==> !InsertLost(sch, w, op)
  {
    var end :| Persisted(sch, w, end) && Remembered(sch, w, end);
    var es := Effects(sch, w, op.act);
    ActKeeps(sch, w, end, op.act);
    match op.fate
    case Completes =>
    case Dies(k) =>
      ConsistentPrefix(sch, w, es, k);
      var v := ApplyAll(w, Upto(es, k));
      var e :| Persisted(sch, v, e);
      assert Persisted(sch, v.(mem := None), e) && Remembered(sch, v.(mem := None), e);
    case Raises(k) =>
      if k < |es| && es[k].IsStatement() {
        RaiseKeepsExactly(sch, w, end, op);
      }
  }

  lemma ActKeeps(sch: Schedule, w: World, end: Pos, a: Act)
    requires sch.Valid() && Persisted(sch, w, end) && Remembered(sch, w, end)
    ensures ConsistentThroughout(sch, w, Effects(sch, w, a)) && Inv(sch, ApplyAll(w, Effects(sch, w, a)))
  {
    var es := Effects(sch, w, a);
    if es == [] {
    } else {
      match a
      case Tick(obs) => TickKeeps(sch, w, end, obs);
      case Kickoff(o) => KickoffKeeps(sch, w, end, o);
      case Resume(o) => ResumeKeeps(sch, w, end, o);
      case Reap =>
        var w1 := Apply(w, es[0]);
        assert Persisted(sch, w1, end) && Remembered(sch, w1, end);
        Prepend(sch, w, end, es[0], []);
    }
  }

  /** What a list of effects leaves alone. */
  lemma Untouched(w: World, es: seq<Effect>)
    ensures (forall e | e in es :: !e.Remember?) ==> ApplyAll(w, es).mem == w.mem
    ensures (forall e | e in es :: !e.SetStatus?) ==> ApplyAll(w, es).status == w.status
    ensures (forall e | e in es :: !e.InsertRow?) ==> ApplyAll(w, es).rows.Keys == w.rows.Keys
    decreases es
  {
    if es != [] {
      Untouched(Apply(w, es[0]), es[1..]);
      assert es[0] in es;
      assert forall e | e in es[1..] :: e in es;
    }
  }

  lemma RaiseKeepsExactly(sch: Schedule, w: World, end: Pos, op: Op)
    requires sch.Valid() && Persisted(sch, w, end) && Remembered(sch, w, end)
    requires op.fate.Raises?
    requires var es := Effects(sch, w, op.act);
             && op.fate.at < |es| && es[op.fate.at].IsStatement()
             && ConsistentThroughout(sch, w, es)
    ensures Inv(sch, Step(sch, w, op)) <==> !InsertLost(sch, w, op)
  {
    hide Persisted, ConsistentThroughout, Inv, ApplyAll, Remembered;
    var es, k := Effects(sch, w, op.act), op.fate.at;
    var v := Step(sch, w, op);
    ConsistentPrefix(sch, w, es, k);
    if op.act.Tick? {
      RaisedTickKeepsExactly(sch, w, end, op.act.obs, k);
    } else {
      Untouched(w, es[..k]);
      NoCopyKeeps(sch, w, v);
    }
  }

  lemma NoCopyKeeps(sch: Schedule, w: World, v: World)
    requires Consistent(sch, v) && v.mem.None?
    ensures Inv(sch, v)
  {
    hide Persisted;
    var e :| Persisted(sch, v, e);
    Ends(sch, v, e);
  }

  lemma RaisedTickKeepsExactly(sch: Schedule, w: World, end: Pos, obs: Observation, k: nat)
    requires sch.Valid() && Persisted(sch, w, end) && Remembered(sch, w, end)
    requires w.mem.Some? && w.mem.value.status == Active
    requires var es := TickEffects(sch, w.mem.value, obs);
             k < |es| && es[k].IsStatement() && Consistent(sch, ApplyAll(w, es[..k]))
    ensures var es := TickEffects(sch, w.mem.value, obs);
            Inv(sch, ApplyAll(w, es[..k])) <==> !(k > 0 && es[k].InsertRow?)
    ensures TickEffects(sch, w.mem.value, obs)[0].InsertRow? ==> k > 0
  {
    var es := TickEffects(sch, w.mem.value, obs);
    var v := ApplyAll(w, es[..k]);
    hide Persisted, Moving;
    if k == 0 {
      Ends(sch, w, end);
    } else {
      RaisedTick(sch, w, end, obs, k);
      if es[k].InsertRow? {
        AheadBreaks(sch, v, end);
      } else {
        var e :| Persisted(sch, v, e);
        Ends(sch, v, e);
      }
    }
  }

  /** A live copy one step ahead of its rows. */
  lemma AheadBreaks(sch: Schedule, v: World, end: Pos)
    requires v.mem == Some(Mem(end, Active)) && end !in v.rows
    ensures !Inv(sch, v)
  {
    hide Persisted;
  }

  /** Past its first statement, a tick that raises has already moved the in-memory copy. */
  lemma RaisedTick(sch: Schedule, w: World, end: Pos, obs: Observation, k: nat)
    requires sch.Valid() && Persisted(sch, w, end) && Remembered(sch, w, end)
    requires w.mem.Some? && w.mem.value.status == Active
    requires var es := TickEffects(sch, w.mem.value, obs); 0 < k < |es| && es[k].IsStatement()
    ensures var es := TickEffects(sch, w.mem.value, obs);
            var v := ApplyAll(w, es[..k]);
            && v.status == Active
            && (es[k].InsertRow? ==> v.mem == Some(Mem(end, Active)) && end !in v.rows)
            && (!es[k].InsertRow? ==> v.mem.Some? && v.mem.value.status in {Failed, Done})
  {
    hide ApplyAll, Persisted, Remembered;
    OpenMeansActive(sch, w, end);
    if obs.Latched? {
      RaisedLatchedTick(sch, w, k);
    } else {
      RaisedEndedTick(sch, w, end, obs.queueFull);
    }
  }

  lemma OpenMeansActive(sch: Schedule, w: World, end: Pos)
    requires Remembered(sch, w, end) && w.mem.Some? && w.mem.value.status == Active
    ensures w.status == Active && Next(sch, w.mem.value.pos) == end
  {
  }

  lemma RaisedLatchedTick(sch: Schedule, w: World, k: nat)
    requires w.mem.Some? && w.status == Active && 0 < k < 3
    ensures var es := TickEffects(sch, w.mem.value, Latched);
            var v := ApplyAll(w, es[..k]);
            v.status == Active && v.mem == Some(w.mem.value.(status := Failed)) && !es[k].InsertRow?
  {
    var m := w.mem.value;
    var es := TickEffects(sch, m, Latched);
    Untouched(w, es[..k]);
    assert es[..k] == [es[0]] + es[1..k];
    assert es[..k][1..] == es[1..k];
    Untouched(Apply(w, es[0]), es[1..k]);
  }

  lemma RaisedEndedTick(sch: Schedule, w: World, end: Pos, full: bool)
    requires sch.Valid() && Persisted(sch, w, end) && Remembered(sch, w, end)
    requires w.mem.Some? && w.mem.value.status == Active
    ensures var es := TickEffects(sch, w.mem.value, Ended(full));
            var k := |es| - 1;
            var v := ApplyAll(w, es[..k]);
            && v.status == Active
            && (es[k].InsertRow? ==> v.mem == Some(Mem(end, Active)) && end !in v.rows)
            && (!es[k].InsertRow? ==> v.mem.Some? && v.mem.value.status == Done)
  {
    NextIsMissing(sch, w, end);
    OpenMeansActive(sch, w, end);
    hide Persisted, Remembered, ApplyAll, TickEffects;
    var m := w.mem.value;
    var pre := EndedSplits(sch, m, full);
    var es := TickEffects(sch, m, Ended(full));
    assert es[..|es| - 1] == pre + [Moving(sch, m)[0]];
    Untouched(w, pre);
    ApplyOneMore(w, pre, Moving(sch, m)[0]);
    assert end !in w.rows.Keys;
  }

  /** Before the position moves a tick closes a row and perhaps sends an event. */
  lemma EndedSplits(sch: Schedule, m: Mem, full: bool) returns (pre: seq<Effect>)
    ensures TickEffects(sch, m, Ended(full)) == pre + Moving(sch, m) && |Moving(sch, m)| == 2
    ensures forall e | e in pre :: e.CloseRow? || e.Enqueue?
  {
    pre := [CloseRow(m.pos)] + if Next(sch, m.pos).step == 0 && !full then [Enqueue(m.pos.cycle)] else [];
  }

  // ---- Whole runs -----------------------------------------------------------------------

  ghost predicate NoLostInsert(sch: Schedule, w: World, ops: seq<Op>)
    decreases ops
  {
    ops == [] || (!InsertLost(sch, w, ops[0]) && NoLostInsert(sch, Step(sch, w, ops[0]), ops[1..]))
  }

  ghost predicate InvThroughout(sch: Schedule, w: World, ops: seq<Op>)
    decreases ops
  {
    Inv(sch, w) && (ops != [] ==> InvThroughout(sch, Step(sch, w, ops[0]), ops[1..]))
  }

  /** Crash anywhere, restart any number of times, let any statement fail: the invariant
      holds at every point of the run exactly when no tick survives a lost INSERT. */
  lemma {:induction false} RunKeepsExactly(sch: Schedule, w: World, ops: seq<Op>)
    requires sch.Valid() && Inv(sch, w)
    ensures InvThroughout(sch, w, ops) <==> NoLostInsert(sch, w, ops)
    decreases ops
  {
    if ops != [] {
      StepKeepsExactly(sch, w, ops[0]);
      if !InsertLost(sch, w, ops[0]) {
        RunKeepsExactly(sch, Step(sch, w, ops[0]), ops[1..]);
      }
    }
  }

  lemma FreshIsConsistent(sch: Schedule)
    requires sch.Valid()
    ensures Inv(sch, FRESH)
  {
    assert Persisted(sch, FRESH, Pos(0, 0)) && Remembered(sch, FRESH, Pos(0, 0));
  }

  /** Nothing closed is ever reopened, no row and no event disappears - whatever fails. */
  lemma HistoryGrows(sch: Schedule, w: World, op: Op)
    ensures var v := Step(sch, w, op);
            && w.rows.Keys <= v.rows.Keys
            && (forall p | p in w.rows && w.rows[p] == Closed :: v.rows[p] == Closed)
            && w.events <= v.events
  {
    var es := Effects(sch, w, op.act);
    EffectsGrow(w, es);
    match op.fate
    case Completes =>
    case Dies(k) => EffectsGrow(w, Upto(es, k));
    case Raises(k) => if k < |es| { EffectsGrow(w, es[..k]); }
  }

  lemma EffectsGrow(w: World, es: seq<Effect>)
    ensures var v := ApplyAll(w, es);
            && w.rows.Keys <= v.rows.Keys
            && (forall p | p in w.rows && w.rows[p] == Closed :: v.rows[p] == Closed)
            && w.events <= v.events
    decreases es
  {
    if es != [] {
      EffectsGrow(Apply(w, es[0]), es[1..]);
    }
  }

  // ---- Completion -------------------------------------------------------------------------

  function Index(sch: Schedule, p: Pos): nat {
    p.cycle * sch.steps + p.step
  }

  lemma NextIndex(sch: Schedule, p: Pos)
    requires sch.Valid() && p.step < sch.steps
    ensures Index(sch, Next(sch, p)) == Index(sch, p) + 1
    ensures p.cycle < sch.repeat ==> Index(sch, p) < sch.repeat * sch.steps
    ensures p.cycle >= sch.repeat ==> Index(sch, p) >= sch.repeat * sch.steps
  {
    assert (p.cycle + 1) * sch.steps == p.cycle * sch.steps + sch.steps;
    if p.cycle < sch.repeat {
      assert (p.cycle + 1) * sch.steps <= sch.repeat * sch.steps;
    } else {
      assert p.cycle * sch.steps >= sch.repeat * sch.steps;
    }
  }

  lemma {:induction false} PrefixCount(sch: Schedule, ps: set<Pos>, end: Pos)
    requires sch.Valid() && end.step < sch.steps
    requires forall p: Pos :: p in ps <==> p.step < sch.steps && Before(p, end)
    ensures |ps| == Index(sch, end)
    decreases end.cycle, end.step
  {
    if end == Pos(0, 0) {
      assert ps == {};
    } else {
      var last := if end.step > 0 then Pos(end.cycle, end.step - 1) else Pos(end.cycle - 1, sch.steps - 1);
      assert last in ps;
      PrefixCount(sch, ps - {last}, last);
      NextIndex(sch, last);
    }
  }

  /** Whichever path wrote 'completed', every position of the schedule has a closed row. */
  lemma CompletedMeansAllRows(sch: Schedule, w: World)
    requires sch.Valid() && Inv(sch, w) && w.status == Done
    ensures |w.rows| == sch.repeat * sch.steps && AllClosed(w.rows)
    ensures forall p: Pos :: p in w.rows <==> sch.HasPosition(p)
  {
    var end :| Persisted(sch, w, end);
    PrefixCount(sch, w.rows.Keys, end);
  }

  function Ticks(obs: seq<Observation>): seq<Op> {
    seq(|obs|, i requires 0 <= i < |obs| => Op(Tick(obs[i]), Completes))
  }

  function Endings(obs: seq<Observation>): nat
    decreases obs
  {
    if obs == [] then 0 else (if obs[|obs| - 1].Ended? then 1 else 0) + Endings(obs[..|obs| - 1])
  }

  function UpTo(n: nat): seq<nat> {
    seq(n, i => i)
  }

  ghost predicate Undisturbed(obs: seq<Observation>) {
    forall o | o in obs :: o != Latched && o != Ended(true)
  }

  /** Without crash or halt, an experiment is completed exactly when repeat * steps step ends
      have been observed, and the events sent are exactly those of the finished cycles. */
  lemma {:induction false} CleanRun(sch: Schedule, obs: seq<Observation>)
    requires sch.Valid() && Undisturbed(obs)
    ensures var w := Run(sch, ApplyAll(FRESH, KickoffEffects(Accepted)), Ticks(obs));
            && (w.status == Done <==> Endings(obs) >= sch.repeat * sch.steps)
            && (w.status == Done ==> w.events == UpTo(sch.repeat))
            && (w.status != Done ==>
                  && w.status == Active && w.mem.Some? && w.mem.value.status == Active
                  && w.mem.value.pos.step < sch.steps && w.mem.value.pos.cycle < sch.repeat
                  && Index(sch, w.mem.value.pos) == Endings(obs)
                  && w.events == UpTo(w.mem.value.pos.cycle))
            && (w.status == Done ==> w.mem.Some? && w.mem.value.status == Done)
    decreases obs
  {
    var n := |obs|;
    CleanStart(sch);
    if n > 0 {
      hide ApplyAll, Index, Step;
      var start := ApplyAll(FRESH, KickoffEffects(Accepted));
      var before, o := obs[..n - 1], obs[n - 1];
      assert o in obs && forall o | o in before :: o in obs;
      CleanRun(sch, before);
      assert Ticks(obs)[..n - 1] == Ticks(before) && Ticks(obs)[n - 1] == Op(Tick(o), Completes);
      var w := Run(sch, start, Ticks(before));
      assert Run(sch, start, Ticks(obs)) == Step(sch, w, Op(Tick(o), Completes));
      if w.status == Done || !o.Ended? {
        NothingHappens(sch, w, o);
      } else {
        NextIndex(sch, w.mem.value.pos);
        CleanEnd(sch, w);
      }
    }
  }

  lemma CleanStart(sch: Schedule)
    requires sch.Valid()
    ensures var w := ApplyAll(FRESH, KickoffEffects(Accepted));
            w.mem == Some(Mem(Pos(0, 0), Active)) && w.status == Active && w.events == [] == UpTo(0)
    ensures Index(sch, Pos(0, 0)) == 0 < sch.repeat * sch.steps
  {
    NextIndex(sch, Pos(0, 0));
  }

  /** A tick of a finished experiment, or one that sees nothing, changes nothing. */
  lemma NothingHappens(sch: Schedule, w: World, o: Observation)
    requires o != Latched && w.mem.Some? && (w.mem.value.status == Done || !o.Ended?)
    ensures Step(sch, w, Op(Tick(o), Completes)) == w
  {
  }

  lemma CleanEnd(sch: Schedule, w: World)
    requires sch.Valid() && w.mem.Some? && w.mem.value.status == Active && w.status == Active
    requires sch.HasPosition(w.mem.value.pos) && w.events == UpTo(w.mem.value.pos.cycle)
    ensures var p := w.mem.value.pos;
            var next := Next(sch, p);
            var v := Step(sch, w, Op(Tick(Ended(false)), Completes));
            && Index(sch, next) == Index(sch, p) + 1
            && (next.cycle < sch.repeat <==> Index(sch, next) < sch.repeat * sch.steps)
            && v.mem == Some(Mem(next, if next.cycle < sch.repeat then Active else Done))
            && v.status == (if next.cycle < sch.repeat then Active else Done)
            && v.events == UpTo(next.cycle)
  {
    hide ApplyAll;
    var p, m := w.mem.value.pos, w.mem.value;
    NextIndex(sch, p);
    NextIndex(sch, Next(sch, p));
    var es := TickEffects(sch, m, Ended(false));
    var e0, e1 := CloseRow(p), Enqueue(p.cycle);
    var w1 := Apply(w, e0);
    ApplyCons(w, e0, es[1..]);
    if Next(sch, p).step == 0 {
      assert es == [e0] + ([e1] + Moving(sch, m)) && es[1..] == [e1] + Moving(sch, m);
      ApplyCons(w1, e1, Moving(sch, m));
      MovingMoves(sch, Apply(w1, e1), m);
    } else {
      assert es == [e0] + Moving(sch, m) && es[1..] == Moving(sch, m);
      MovingMoves(sch, w1, m);
    }
  }

  lemma ApplyCons(w: World, e: Effect, rest: seq<Effect>)
    ensures ApplyAll(w, [e] + rest) == ApplyAll(Apply(w, e), rest)
  {
    hide Apply;
    assert ([e] + rest)[1..] == rest;
  }

  lemma MovingMoves(sch: Schedule, w: World, m: Mem)
    requires m.status == Active && w.status == Active
    ensures var next, v := Next(sch, m.pos), ApplyAll(w, Moving(sch, m));
            var status := if next.cycle < sch.repeat then Active else Done;
            && v.mem == Some(Mem(next, status)) && v.status == status && v.events == w.events
            && v.rows == if next.cycle < sch.repeat && next !in w.rows then w.rows[next := Open] else w.rows
  {
    hide ApplyAll;
    var e0, e1 := Moving(sch, m)[0], Moving(sch, m)[1];
    assert Moving(sch, m) == [e0] + ([e1] + []);
    ApplyCons(w, e0, [e1] + []);
    ApplyCons(Apply(w, e0), e1, []);
    NoEffects(Apply(Apply(w, e0), e1));
  }

  lemma NoEffects(w: World)
    ensures ApplyAll(w, []) == w
  {
  }
}
