/** What holds of a cell over whole histories of currents, ambients and injected faults. */
module CellProofs {
  import opened Prelude
  import opened Models
  import opened Chemistry
  import opened Aging
  import opened CellModel

  // ---- Every counted cycle is paid for with throughput -----------------------------------------

  /** How far the state of charge has travelled on the current excursion below the top. */
  function Travelled(c: Cell): real {
    if c.atTop then 0.0 else (c.top - c.bottom) + (c.soc - c.bottom)
  }

  ghost predicate OnCourse(c: Cell) {
    && 0.0 <= c.soc <= 1.0
    && (!c.atTop ==> c.bottom <= c.soc && c.bottom <= c.top < 0.95)
  }

  /** With `q` usable ampere-hours, throughput covers the counted cycles and the present excursion. */
  ghost predicate PaidAt(c: Cell, q: real) {
    && Sane(c.age) && 0.0 <= c.soc <= 1.0 && c.agingAccum >= 0.0
    && c.age.cycles as real * q <= c.age.throughput
    && (c.latched == NoError ==>
          OnCourse(c) && (c.age.cycles as real + Travelled(c)) * q <= c.age.throughput)
  }

  ghost predicate Paid(c: Cell) {
    Sound(c.chem) && PaidAt(c, QEffective(c))
  }

  lemma ClampShrinks(s: real, d: real)
    requires 0.0 <= s <= 1.0
    ensures 0.0 <= Clamp01(s + d) <= 1.0 && Abs(Clamp01(s + d) - s) <= Abs(d)
  {
  }

  lemma ChargeMoved(c: Cell, i: real, dt: real)
    requires c.chem.capacity > 0.0 && dt >= 0.0
    ensures Abs(DeltaSoc(c, i, dt)) * QEffective(c) == Abs(i) * dt / 3600.0
  {
    var q, d := QEffective(c), DeltaSoc(c, i, dt);
    assert d * (3600.0 * q) == -i * dt;
    assert d * q == -i * dt / 3600.0;
  }

  /** Detection never claims more travel, cycles included, than there was. */
  lemma DetectPays(c: Cell, moved: Cell)
    requires OnCourse(c) && moved.atTop == c.atTop && moved.top == c.top && moved.bottom == c.bottom
    requires 0.0 <= moved.soc <= 1.0
    ensures var v := DetectCycle(moved);
            && OnCourse(v) && v.soc == moved.soc && Travelled(v) >= 0.0
            && v.age.cycles as real + Travelled(v)
               <= moved.age.cycles as real + Travelled(c) + Abs(moved.soc - c.soc)
            && v.age.throughput == moved.age.throughput
  {
  }

  lemma QFollowsSoh(c: Cell, v: Cell)
    requires Sound(c.chem) && v.chem == c.chem && Soh(c.chem, v.age) <= Soh(c.chem, c.age)
    ensures 0.0 < QEffective(v) <= QEffective(c)
  {
    UsableMonotone(c.chem.capacity, Soh(c.chem, v.age), Soh(c.chem, c.age));
  }

  lemma UsableMonotone(capacity: real, x: real, y: real)
    requires capacity >= 0.0 && x <= y
    ensures 0.0 < Usable(capacity, x) <= Usable(capacity, y)
  {
    Scale(capacity, x, y);
  }

  /** The ampere-hours that a tick moves. */
  function Spent(i: real, dt: real): real {
    Abs(i) * dt / 3600.0
  }

  lemma SpentIs(i: real, dt: real)
    requires dt >= 0.0
    ensures Spent(i, dt) >= 0.0 && Spent(0.0, dt) == 0.0
  {
    Scale(dt, 0.0, Abs(i));
    DivideMonotone(0.0, Abs(i) * dt, 3600.0);
  }

  lemma GrowFacts(m: Math, c: Cell, i: real, dt: real)
    requires m.Lawful() && Sound(c.chem) && Sane(c.age) && 0.0 <= c.soc <= 1.0
    requires dt >= 0.0 && c.agingAccum >= 0.0
    ensures var v := Grow(m, c, i, dt);
            && v == c.(age := v.age, agingAccum := v.agingAccum)
            && Sane(v.age) && v.agingAccum >= 0.0 && QEffective(v) <= QEffective(c)
            && v.age.throughput == c.age.throughput + Spent(i, dt)
            && v.age.cycles == c.age.cycles && v.age.lam == c.age.lam
  {
    var d := Spent(i, dt);
    SpentIs(i, dt);
    var e1, e2 := Throughput(d), Calendar(c.agingAccum + dt, c.soc, c.tempC);
    SohNeverRises(m, c.chem, c.age, e1);
    var age := Apply(m, c.chem, c.age, e1);
    SohNeverRises(m, c.chem, age, e2);
    GrowIs(m, c, i, dt);
    QFollowsSoh(c, Grow(m, c, i, dt));
  }

  /** A growth step is one throughput event, and a calendar event when a second is full. */
  lemma GrowIs(m: Math, c: Cell, i: real, dt: real)
    requires c.chem.capacity > 0.0 && Spent(i, dt) >= 0.0
    ensures var v := Grow(m, c, i, dt);
            var age := Apply(m, c.chem, c.age, Throughput(Spent(i, dt)));
            && v == c.(age := v.age, agingAccum := v.agingAccum)
            && age.throughput == c.age.throughput + Spent(i, dt)
            && age.cycles == c.age.cycles && age.lam == c.age.lam && age.elapsed == c.age.elapsed
            && if c.agingAccum + dt >= 1.0
               then v.agingAccum == 0.0
                    && v.age == Apply(m, c.chem, age, Calendar(c.agingAccum + dt, c.soc, c.tempC))
               else v.agingAccum == c.agingAccum + dt && v.age == age
  {
  }

  lemma DetectFacts(m: Math, c: Cell)
    requires m.Lawful() && Sound(c.chem) && Sane(c.age)
    ensures var v := DetectCycle(c);
            && v.chem == c.chem && Sane(v.age) && 0.0 < QEffective(v) <= QEffective(c)
            && v.agingAccum == c.agingAccum && v.latched == c.latched
  {
    var e := Cycle(c.top - c.bottom);
    SohNeverRises(m, c.chem, c.age, e);
    var v := DetectCycle(c);
    assert v.age == c.age || v.age == Apply(m, c.chem, c.age, e);
    QFollowsSoh(c, v);
  }

  lemma StepIs(m: Math, c: Cell, current: real, dt: real, ambient: real)
    requires Sound(c.chem) && c.latched == NoError
    ensures var i := Driven(c, current);
            var moved := Move(c, i, dt, ambient);
            Step(m, c, current, dt, ambient)
            == if moved.tempC > c.chem.runawayC then moved.(latched := ThermalRunaway)
               else DetectCycle(Grow(m, moved, i, dt)).(lastCurrent := i)
  {
  }

  /** A cell keeps its chemistry. */
  lemma StepKeepsItsChem(m: Math, c: Cell, current: real, dt: real, ambient: real)
    requires Sound(c.chem)
    ensures Step(m, c, current, dt, ambient).chem == c.chem
  {
    hide Grow, DetectCycle, QEffective;
    var i := Driven(c, current);
    var moved := Move(c, i, dt, ambient);
    assert moved.chem == c.chem;
    GrowKeepsChem(m, moved, i, dt);
  }

  lemma GrowKeepsChem(m: Math, c: Cell, i: real, dt: real)
    requires c.chem.capacity > 0.0
    ensures DetectCycle(Grow(m, c, i, dt)).chem == c.chem
  {
  }

  lemma TravelIsPaid(c: Cell, i: real, dt: real, ambient: real)
    requires Paid(c) && c.latched == NoError && dt >= 0.0
    ensures var moved := Move(c, i, dt, ambient);
            Part(Abs(moved.soc - c.soc), QEffective(c)) <= Spent(i, dt)
  {
    ClampShrinks(c.soc, DeltaSoc(c, i, dt));
    ChargeMoved(c, i, dt);
    Scale(QEffective(c), Abs(Clamp01(c.soc + DeltaSoc(c, i, dt)) - c.soc), Abs(DeltaSoc(c, i, dt)));
  }

  lemma PayArithmetic(n: nat, travelled: real, before: real, moved: real, q0: real, q1: real, thr: real, spent: real)
    requires travelled >= 0.0 && n as real + travelled <= before + moved && 0.0 < q1 <= q0
    requires before * q0 <= thr && moved * q0 <= spent
    ensures n as real * q1 <= (n as real + travelled) * q1 <= thr + spent
  {
    var after := n as real + travelled;
    Scale(q1, n as real, after);
    Scale(after, q1, q0);
    Scale(q0, after, before + moved);
    assert (before + moved) * q0 == before * q0 + moved * q0;
  }

  /** What is left of a step once each part has reported its facts. */
  lemma Settle(c: Cell, v: Cell, moved: real, q0: real, q1: real, spent: real)
    requires PaidAt(c, q0) && c.latched == NoError
    requires Sane(v.age) && v.agingAccum >= 0.0 && OnCourse(v) && Travelled(v) >= 0.0
    requires 0.0 < q1 <= q0
    requires v.age.cycles as real + Travelled(v) <= c.age.cycles as real + Travelled(c) + moved
    requires moved * q0 <= spent
    requires v.age.throughput == c.age.throughput + spent
    ensures PaidAt(v, q1)
  {
    PayArithmetic(v.age.cycles, Travelled(v), c.age.cycles as real + Travelled(c), moved,
                  q0, q1, c.age.throughput, spent);
  }

  ghost predicate OnlyMoved(c: Cell, moved: Cell) {
    0.0 <= moved.soc <= 1.0 && moved == c.(soc := moved.soc, vRc := moved.vRc, tempC := moved.tempC)
  }

  lemma UnmeltedFacts(m: Math, c: Cell, moved: Cell, i: real, dt: real)
    requires m.Lawful() && Sound(c.chem) && Sane(c.age) && OnCourse(c) && c.agingAccum >= 0.0 && dt >= 0.0
    requires OnlyMoved(c, moved)
    ensures var v := DetectCycle(Grow(m, moved, i, dt)).(lastCurrent := i);
            && v.chem == c.chem && Sane(v.age) && v.agingAccum >= 0.0 && OnCourse(v) && Travelled(v) >= 0.0
            && v.latched == c.latched && v.soc == moved.soc
            && 0.0 < QEffective(v) <= QEffective(c)
            && v.age.cycles as real + Travelled(v)
               <= c.age.cycles as real + Travelled(c) + Abs(moved.soc - c.soc)
            && v.age.throughput == c.age.throughput + Spent(i, dt)
  {
    var grown := Grow(m, moved, i, dt);
    GrowFacts(m, moved, i, dt);
    DetectPays(c, grown);
    DetectFacts(m, grown);
  }

  ghost predicate Advanced(c: Cell, v: Cell, spent: real)
    requires c.chem.capacity > 0.0 && v.chem.capacity > 0.0
  {
    && Sane(v.age) && v.agingAccum >= 0.0 && OnCourse(v) && Travelled(v) >= 0.0
    && 0.0 < QEffective(v) <= QEffective(c)
    && v.age.cycles as real + Travelled(v) <= c.age.cycles as real + Travelled(c) + Abs(v.soc - c.soc)
    && Part(Abs(v.soc - c.soc), QEffective(c)) <= spent
    && v.age.throughput == c.age.throughput + spent
  }

  lemma UnmeltedAdvances(m: Math, c: Cell, i: real, dt: real, ambient: real)
    requires m.Lawful() && Paid(c) && c.latched == NoError && dt >= 0.0
    ensures var v := DetectCycle(Grow(m, Move(c, i, dt, ambient), i, dt)).(lastCurrent := i);
            v.chem == c.chem && v.latched == NoError && Advanced(c, v, Spent(i, dt))
  {
    hide Grow, DetectCycle, QEffective, DeltaSoc, NextVrc, NextTemp, Part;
    var moved := Move(c, i, dt, ambient);
    ClampShrinks(c.soc, DeltaSoc(c, i, dt));
    TravelIsPaid(c, i, dt, ambient);
    UnmeltedFacts(m, c, moved, i, dt);
  }

  lemma AdvancedPays(c: Cell, v: Cell, spent: real)
    requires Paid(c) && c.latched == NoError && v.chem == c.chem && Advanced(c, v, spent)
    ensures Paid(v)
  {
    hide QEffective;
    Settle(c, v, Abs(v.soc - c.soc), QEffective(c), QEffective(v), spent);
  }

  /** A step that ends in thermal runaway leaves age and account as they were. */
  lemma MeltedPays(c: Cell, v: Cell)
    requires Paid(c) && v.chem == c.chem && v.age == c.age && v.latched != NoError
    requires 0.0 <= v.soc <= 1.0 && v.agingAccum >= 0.0
    ensures Paid(v)
  {
    hide QEffective;
    SameAgeSameQ(c, v);
  }

  lemma StepPays(m: Math, c: Cell, current: real, dt: real, ambient: real)
    requires m.Lawful() && Paid(c) && dt >= 0.0
    ensures Paid(Step(m, c, current, dt, ambient))
  {
    hide Step, QEffective, Grow, DetectCycle, DeltaSoc, NextVrc, NextTemp, Advanced, Part, Spent, OnCourse;
    if c.latched == NoError {
      var i := Driven(c, current);
      var moved := Move(c, i, dt, ambient);
      StepIs(m, c, current, dt, ambient);
      if moved.tempC > c.chem.runawayC {
        ClampShrinks(c.soc, DeltaSoc(c, i, dt));
        MeltedPays(c, moved.(latched := ThermalRunaway));
      } else {
        UnmeltedAdvances(m, c, i, dt, ambient);
        AdvancedPays(c, DetectCycle(Grow(m, moved, i, dt)).(lastCurrent := i), Spent(i, dt));
      }
    } else {
      LatchedStays(m, c, current, dt, ambient);
    }
  }

  lemma SameAgeSameQ(c: Cell, v: Cell)
    requires c.chem.capacity > 0.0 && v.chem == c.chem
    ensures v.age == c.age ==> QEffective(v) == QEffective(c)
  {
  }

  lemma LatchedStays(m: Math, c: Cell, current: real, dt: real, ambient: real)
    requires Sound(c.chem) && c.latched != NoError
    ensures Step(m, c, current, dt, ambient) == c
  {
  }

  lemma {:induction false} LatchIsFinal(m: Math, c: Cell, xs: seq<Input>)
    requires Sound(c.chem) && c.latched != NoError
    ensures History(m, c, xs).latched != NoError
    decreases xs
  {
    if xs != [] {
      if xs[0].Drive? { LatchedStays(m, c, xs[0].current, xs[0].dt, xs[0].ambient); }
      LatchIsFinal(m, Feed(m, c, xs[0]), xs[1..]);
    }
  }

  /** cycle_count * q_effective <= cumulative_throughput_ah for every history of a new cell:
      any currents, any tick lengths, any ambient, any faults, clamping and runaway included. */
  lemma {:induction false} CyclesArePaidFor(m: Math, c: Cell, xs: seq<Input>)
    requires m.Lawful() && Paid(c)
    requires forall x | x in xs :: x.Drive? ==> x.dt >= 0.0
    ensures Paid(History(m, c, xs))
    decreases xs
  {
    if xs != [] {
      assert xs[0] in xs && forall x | x in xs[1..] :: x in xs;
      if xs[0].Drive? {
        StepPays(m, c, xs[0].current, xs[0].dt, xs[0].ambient);
      }
      CyclesArePaidFor(m, Feed(m, c, xs[0]), xs[1..]);
    }
  }

  lemma NewCellIsPaid(c: Chem)
    requires Sound(c)
    ensures Paid(NewCell(c))
  {
  }
}
