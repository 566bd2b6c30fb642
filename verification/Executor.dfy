/**
 The executor and the recovery code in their own, step-by-step form.  Every database
 statement, event and change of the registered experiment appends itself to a ghost log;
 the contracts say that each operation logs exactly the effect list of module
 `Orchestrator`, in that order, and that the state is the replay of the log.
 */
module Executor {
  import opened Prelude
  import opened Orchestrator

  class Experiment {
    var cycleIndex: nat
    var stepIndex: nat
    var status: Status

    constructor (cycle: nat, step: nat, s: Status)
      ensures View() == Mem(Pos(cycle, step), s)
    {
      cycleIndex, stepIndex, status := cycle, step, s;
    }

    ghost function View(): Mem
      reads this
    {
      Mem(Pos(cycleIndex, stepIndex), status)
    }
  }

  class Orchestration {
    const sch: Schedule
    var rows: map<Pos, RowState>  // experiment_steps
    var status: Status            // experiments.status
    var registered: Experiment?   // the entry of the in-memory dict
    var events: seq<nat>          // cycle_complete payloads accepted by the queue

    ghost const origin: World
    ghost var log: seq<Effect>

    ghost function World(): World
      reads this, registered
    {
      Orchestrator.World(rows, status, if registered == null then None else Some(registered.View()), events)
    }

    ghost predicate Valid()
      reads this, registered
    {
      World() == ApplyAll(origin, log)
    }

    /** A process starts with the tables as it finds them, and remembers no experiment. */
    constructor (s: Schedule, found: World)
      requires found.mem.None?
      ensures Valid() && sch == s && log == [] && World() == found
    {
      sch, rows, status, registered, events := s, found.rows, found.status, null, found.events;
      origin, log := found, [];
    }

    method InsertStepRow(exp: Experiment)
      requires Valid()
      modifies this`rows, this`log
      ensures Valid() && log == old(log) + [InsertRow(exp.View().pos)]
      ensures World() == Apply(old(World()), InsertRow(exp.View().pos))
    {
      var at := Pos(exp.cycleIndex, exp.stepIndex);
      if at !in rows { // ON CONFLICT DO NOTHING
        rows := rows[at := Open];
      }
      ApplyOneMore(origin, log, InsertRow(at));
      log := log + [InsertRow(at)];
    }

    method MarkStepCompleted(exp: Experiment)
      requires Valid()
      modifies this`rows, this`log
      ensures Valid() && log == old(log) + [CloseRow(exp.View().pos)]
      ensures World() == Apply(old(World()), CloseRow(exp.View().pos))
    {
      var at := Pos(exp.cycleIndex, exp.stepIndex);
      if at in rows { // UPDATE ... WHERE
        rows := rows[at := Closed];
      }
      ApplyOneMore(origin, log, CloseRow(at));
      log := log + [CloseRow(at)];
    }

    method MarkExperimentStatus(s: Status)
      requires Valid()
      modifies this`status, this`log
      ensures Valid() && log == old(log) + [SetStatus(s)]
      ensures World() == Apply(old(World()), SetStatus(s))
    {
      status := s;
      ApplyOneMore(origin, log, SetStatus(s));
      log := log + [SetStatus(s)];
    }

    method EnqueueCycleComplete(cycle: nat)
      requires Valid()
      modifies this`events, this`log
      ensures Valid() && log == old(log) + [Enqueue(cycle)]
      ensures World() == Apply(old(World()), Enqueue(cycle))
    {
      events := events + [cycle];
      ApplyOneMore(origin, log, Enqueue(cycle));
      log := log + [Enqueue(cycle)];
    }

    /** Log what the registered experiment looks like now. */
    ghost method Remembered()
      requires World().(mem := None) == ApplyAll(origin, log).(mem := None)
      modifies this`log
      ensures Valid() && log == old(log) + [Remember(World().mem)]
    {
      ApplyOneMore(origin, log, Remember(World().mem));
      log := log + [Remember(World().mem)];
    }

    method StepOneTick(exp: Experiment, obs: Observation)
      requires Valid() && registered == exp && exp.status == Active
      modifies this`rows, this`status, this`events, this`log, exp
      ensures Valid() && log == old(log) + TickEffects(sch, old(exp.View()), obs)
    {
      match obs
      case Unreadable =>
      case Latched =>
        exp.status := Failed;
        Remembered();
        MarkStepCompleted(exp);
        MarkExperimentStatus(Failed);
      case Ended(full) =>
        MarkStepCompleted(exp);
        Advance(exp, full);
      case Continues =>
    }

    method Advance(exp: Experiment, queueFull: bool)
      requires Valid() && registered == exp && exp.status == Active
      modifies this`rows, this`status, this`events, this`log, exp
      ensures Valid()
      ensures var m := old(exp.View());
              log == old(log)
                     + (if Next(sch, m.pos).step == 0 && !queueFull then [Enqueue(m.pos.cycle)] else [])
                     + Moving(sch, m)
    {
      hide ApplyAll, Apply;
      var wrapped := exp.stepIndex + 1 >= sch.steps;
      if wrapped && !queueFull {
        EnqueueCycleComplete(exp.cycleIndex);
      }
      exp.stepIndex := exp.stepIndex + 1;
      if wrapped {
        exp.cycleIndex := exp.cycleIndex + 1;
        exp.stepIndex := 0;
      }
      if exp.cycleIndex >= sch.repeat {
        exp.status := Done;
        Remembered();
        MarkExperimentStatus(Done);
      } else {
        Remembered();
        InsertStepRow(exp);
      }
    }

    method Kickoff(o: StartOutcome)
      requires Valid() && registered == null && status == Pending
      modifies this
      ensures Valid() && log == old(log) + KickoffEffects(o)
    {
      hide ApplyAll, Apply;
      if o.Unreachable? {
        MarkExperimentStatus(Failed);
        return;
      }
      var exp := new Experiment(0, 0, Active);
      MarkExperimentStatus(Active);
      InsertStepRow(exp);
      match o
      case Unanswered =>
      case Refused =>
        exp.status := Failed;
        MarkExperimentStatus(Failed);
        registered := exp;
        Remembered();
      case Accepted =>
        registered := exp;
        Remembered();
      case Unreachable =>
    }

    method LoadResumeState() returns (cycle: nat, step: nat)
      ensures Pos(cycle, step) == ResumePos(sch, rows)
    {
      if rows == map[] {
        return 0, 0;
      }
      var row := LastRow(rows);
      if rows[row] == Open {
        return row.cycle, row.step;
      }
      cycle, step := row.cycle, row.step + 1;
      if step >= sch.steps {
        cycle, step := cycle + 1, 0;
      }
    }

    method ResumeInflight(o: StartOutcome)
      requires Valid() && registered == null && status == Active
      modifies this
      ensures Valid() && log == old(log) + ResumeEffects(sch, old(World()), o)
    {
      if o.Unreachable? {
        MarkExperimentStatus(Failed);
        return;
      }
      var cycle, step := LoadResumeState();
      if cycle >= sch.repeat {
        MarkExperimentStatus(Done);
        return;
      }
      var exp := new Experiment(cycle, step, Active);
      match o
      case Unanswered =>
      case Refused =>
        MarkExperimentStatus(Failed);
      case Accepted =>
        InsertStepRow(exp);
        registered := exp;
        Remembered();
      case Unreachable =>
    }

    method Reap()
      requires Valid()
      modifies this`registered, this`log
      ensures Valid()
      ensures log == old(log) + Effects(sch, old(World()), Act.Reap)
    {
      if registered != null && (registered.status == Done || registered.status == Failed) {
        registered := null;
        Remembered();
      }
    }
  }
}
